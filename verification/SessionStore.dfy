/** The on-disk session: `load` with its one-time migration, `store` and `clear`, as file-system steps
  * any of which may fail and after any of which the process may die. One lock holder at a time. */
module SessionStore {
  import opened Common

  type Contents = string

  datatype Session = Session(issuer: string, clientId: string, accessToken: string, refreshToken: Option<string>,
                             expiresAt: nat, lifetimeSecs: Option<nat>)

  /** The JSON codec; only the round trip of a stored session is asked of it. */
  datatype Codec = Codec(parse: Contents -> Option<Session>, serialize: Session -> Contents)

  ghost predicate RoundTrips(codec: Codec) {
    forall s: Session :: codec.parse(codec.serialize(s)) == Some(s)
  }

  /** The files of one session key. `tmp` is the `.json.tmp` beside the state file. */
  datatype Disk = Disk(state: Option<Contents>, legacy: Option<Contents>, tmp: Option<Contents>)

  datatype Error = Io | Parse

  datatype Outcome = Loaded(r: Result<Option<Session>, Error>) | Stored(failed: bool) | Cleared(failed: bool)

  /** Where an operation stands: the file-system call it makes next. */
  datatype Pc =
    | LoadStart | CheckLegacy
    | MigrateRead | MigrateDir(bytes: Contents) | MigrateOpen(bytes: Contents) | MigrateWrite(bytes: Contents, n: nat)
    | MigrateSync | MigrateRename | MigrateVerify | MigrateUnlink
    | ReadState | ReadLegacy
    | StoreDir(bytes: Contents) | StoreOpen(bytes: Contents) | StoreWrite(bytes: Contents, n: nat)
    | StoreSync | StoreRename | StoreCleanup
    | ClearState | ClearLegacy
    | Finished(outcome: Outcome)

  /** What the operating system does with the call; `progress` is how much one write takes. */
  datatype Choice = Works(progress: nat) | Fails

  function ReadSession(codec: Codec, file: Option<Contents>, c: Choice): Pc {
    if c.Fails? then Finished(Loaded(Err(Io)))
    else match file
      case None => Finished(Loaded(Ok(None)))
      case Some(bytes) =>
        match codec.parse(bytes)
        case None => Finished(Loaded(Err(Parse)))
        case Some(s) => Finished(Loaded(Ok(Some(s))))
  }

  /** Steps of `load` and of the migration it may start; a migration error falls back to the legacy file.
    * A path whose metadata cannot be read counts as absent. */
  function LoadStep(codec: Codec, d: Disk, pc: Pc, c: Choice): (Disk, Pc) {
    match pc
    case LoadStart => (d, if c.Works? && d.state.Some? then ReadState else CheckLegacy)
    case CheckLegacy => (d, if c.Works? && d.legacy.Some? then MigrateRead else ReadState)
    case MigrateRead => (d, if c.Works? && d.legacy.Some? then MigrateDir(d.legacy.value) else ReadLegacy)
    case MigrateDir(bytes) => (d, if c.Works? then MigrateOpen(bytes) else ReadLegacy)
    case MigrateOpen(bytes) => if c.Works? then (d.(tmp := Some("")), MigrateWrite(bytes, 0)) else (d, ReadLegacy)
    case MigrateWrite(bytes, n) =>
      if c.Fails? then (d, ReadLegacy)
      else
        var m := Min(n + c.progress, |bytes|);
        (d.(tmp := Some(bytes[..m])), if m == |bytes| then MigrateSync else MigrateWrite(bytes, m))
    case MigrateSync => (d, if c.Works? then MigrateRename else ReadLegacy)
    case MigrateRename => if c.Works? && d.tmp.Some? then (d.(state := d.tmp, tmp := None), MigrateVerify) else (d, ReadLegacy)
    case MigrateVerify => (d, if c.Works? && d.state.Some? then MigrateUnlink else ReadLegacy)
    case MigrateUnlink => if c.Works? then (d.(legacy := None), ReadState) else (d, ReadLegacy)
    case ReadState => (d, ReadSession(codec, d.state, c))
    case ReadLegacy => (d, ReadSession(codec, d.legacy, c))
    case _ => (d, pc)
  }

  /** Steps of `store`: write beside, rename over, and tidy up after a failure. */
  function StoreStep(d: Disk, pc: Pc, c: Choice): (Disk, Pc) {
    match pc
    case StoreDir(bytes) => (d, if c.Works? then StoreOpen(bytes) else Finished(Stored(true)))
    case StoreOpen(bytes) => if c.Works? then (d.(tmp := Some("")), StoreWrite(bytes, 0)) else (d, StoreCleanup)
    case StoreWrite(bytes, n) =>
      if c.Fails? then (d, StoreCleanup)
      else
        var m := Min(n + c.progress, |bytes|);
        (d.(tmp := Some(bytes[..m])), if m == |bytes| then StoreSync else StoreWrite(bytes, m))
    case StoreSync => (d, if c.Works? then StoreRename else StoreCleanup)
    case StoreRename =>
      if c.Works? && d.tmp.Some? then (d.(state := d.tmp, tmp := None), Finished(Stored(false))) else (d, StoreCleanup)
    case StoreCleanup => (if c.Works? then d.(tmp := None) else d, Finished(Stored(true)))
    case _ => (d, pc)
  }

  /** Steps of `clear`: the state file first, then the legacy one; a missing file is fine. */
  function ClearStep(d: Disk, pc: Pc, c: Choice): (Disk, Pc) {
    match pc
    case ClearState => if c.Works? then (d.(state := None), ClearLegacy) else (d, Finished(Cleared(true)))
    case ClearLegacy => if c.Works? then (d.(legacy := None), Finished(Cleared(false))) else (d, Finished(Cleared(true)))
    case _ => (d, pc)
  }

  function Step(codec: Codec, d: Disk, pc: Pc, c: Choice): (Disk, Pc) {
    if pc.StoreDir? || pc.StoreOpen? || pc.StoreWrite? || pc.StoreSync? || pc.StoreRename? || pc.StoreCleanup? then StoreStep(d, pc, c)
    else if pc.ClearState? || pc.ClearLegacy? then ClearStep(d, pc, c)
    else LoadStep(codec, d, pc, c)
  }

  /** An operation driven by the choices it meets. It dies where they run out before it has finished. */
  function Run(codec: Codec, d: Disk, pc: Pc, choices: seq<Choice>): (Disk, Pc)
    decreases |choices|
  {
    if choices == [] || pc.Finished? then (d, pc)
    else var (d', pc') := Step(codec, d, pc, choices[0]); Run(codec, d', pc', choices[1..])
  }

  datatype Operation = Load | Store(session: Session) | Clear

  function Entry(codec: Codec, op: Operation): Pc {
    match op
    case Load => LoadStart
    case Store(s) => StoreDir(codec.serialize(s))
    case Clear => ClearState
  }

  // ---------- What the disk means ----------

  /** The session file a load reads: the state path, or the legacy one while nothing is at the state path. */
  function Visible(d: Disk): Option<Contents> { if d.state.Some? then d.state else d.legacy }

  /** At most one version of the session lies on the two paths. */
  predicate OneCopy(d: Disk) { d.state.None? || d.legacy.None? || d.state == d.legacy }

  /** What holds at each point inside a load, whatever lies at the state path. */
  ghost predicate LoadShape(d: Disk, pc: Pc) {
    match pc
    case LoadStart => true
    case CheckLegacy => true
    case MigrateRead => d.legacy.Some?
    case MigrateDir(bytes) => d.legacy == Some(bytes)
    case MigrateOpen(bytes) => d.legacy == Some(bytes)
    case MigrateWrite(bytes, n) => d.legacy == Some(bytes) && n <= |bytes|
    case MigrateSync => d.legacy.Some? && d.tmp == d.legacy
    case MigrateRename => d.legacy.Some? && d.tmp == d.legacy
    case MigrateVerify => d.state.Some? && d.legacy == d.state
    case MigrateUnlink => d.state.Some? && d.legacy == d.state
    case ReadState => true
    case ReadLegacy => d.legacy.Some?
    case Finished(outcome) => outcome.Loaded?
    case _ => false
  }

  predicate Migrating(pc: Pc) {
    pc.MigrateRead? || pc.MigrateDir? || pc.MigrateOpen? || pc.MigrateWrite? || pc.MigrateSync? || pc.MigrateRename?
    || pc.MigrateVerify? || pc.MigrateUnlink?
  }

  /** A load that started with `v` visible, and will not change it. */
  ghost predicate LoadInv(d: Disk, pc: Pc, v: Option<Contents>) {
    && LoadShape(d, pc) && Visible(d) == v
    && (Migrating(pc) || pc.LoadStart? || pc.CheckLegacy? ==> OneCopy(d))
    && (pc.ReadLegacy? ==> d.legacy == v)
  }

  /** The load looks where the session is. */
  ghost predicate Sees(d: Disk, pc: Pc) { pc.ReadState? ==> d.state.Some? || d.legacy.None? }

  /** What a finished load may report. */
  ghost predicate Reports(codec: Codec, v: Option<Contents>, pc: Pc) {
    pc.Finished? && pc.outcome.Loaded? ==>
      || pc.outcome.r == Err(Io)
      || (v.None? && pc.outcome.r == Ok(None))
      || (v.Some? && codec.parse(v.value).Some? && pc.outcome.r == Ok(codec.parse(v.value)))
      || (v.Some? && codec.parse(v.value).None? && pc.outcome.r == Err(Parse))
  }

  lemma {:induction false} StepKeepsShape(codec: Codec, d: Disk, pc: Pc, c: Choice)
    requires LoadShape(d, pc)
    ensures var (d', pc') := Step(codec, d, pc, c); LoadShape(d', pc')
  {
    if pc.MigrateWrite? && c.Works? { assert pc.bytes[..|pc.bytes|] == pc.bytes; }
  }

  lemma {:induction false} LoadStepKeeps(codec: Codec, d: Disk, pc: Pc, v: Option<Contents>, c: Choice)
    requires LoadInv(d, pc, v)
    ensures var (d', pc') := Step(codec, d, pc, c); LoadInv(d', pc', v)
  {
    StepKeepsShape(codec, d, pc, c);
  }

  /** Past its two looks at the metadata a load finds the session, unless its last read fails. */
  lemma {:induction false} LoadStepSees(codec: Codec, d: Disk, pc: Pc, v: Option<Contents>, c: Choice)
    requires LoadInv(d, pc, v) && Sees(d, pc) && Reports(codec, v, pc) && !pc.LoadStart? && !pc.CheckLegacy?
    ensures var (d', pc') := Step(codec, d, pc, c); Sees(d', pc') && Reports(codec, v, pc') && !pc'.LoadStart? && !pc'.CheckLegacy?
    ensures (pc.ReadState? || pc.ReadLegacy?) && c.Works? && v.Some? && codec.parse(v.value).Some? ==>
              Step(codec, d, pc, c).1 == Finished(Loaded(Ok(codec.parse(v.value))))
  {}

  lemma {:induction false} LoadRunKeeps(codec: Codec, d: Disk, pc: Pc, v: Option<Contents>, choices: seq<Choice>)
    requires LoadInv(d, pc, v)
    ensures var (d', pc') := Run(codec, d, pc, choices); LoadInv(d', pc', v)
    decreases |choices|
  {
    hide Step, LoadInv;
    if choices != [] && !pc.Finished? {
      LoadStepKeeps(codec, d, pc, v, choices[0]);
      var (d', pc') := Step(codec, d, pc, choices[0]);
      LoadRunKeeps(codec, d', pc', v, choices[1..]);
    }
  }

  lemma {:induction false} LoadRunSees(codec: Codec, d: Disk, pc: Pc, v: Option<Contents>, choices: seq<Choice>)
    requires LoadInv(d, pc, v) && Sees(d, pc) && Reports(codec, v, pc) && !pc.LoadStart? && !pc.CheckLegacy?
    ensures var (d', pc') := Run(codec, d, pc, choices); LoadInv(d', pc', v) && Reports(codec, v, pc')
    decreases |choices|
  {
    hide Step, LoadInv, Reports, Sees;
    if choices != [] && !pc.Finished? {
      LoadStepKeeps(codec, d, pc, v, choices[0]);
      LoadStepSees(codec, d, pc, v, choices[0]);
      var (d', pc') := Step(codec, d, pc, choices[0]);
      LoadRunSees(codec, d', pc', v, choices[1..]);
    }
  }

  /** The load's looks at the metadata succeed: at the state path, and at the legacy path when nothing is
    * at the state path. */
  predicate StatsWork(d: Disk, choices: seq<Choice>) {
    (|choices| > 0 ==> choices[0].Works?) && (|choices| > 1 && d.state.None? ==> choices[1].Works?)
  }

  /** However a load ends - finished, failed, or killed at any step - it leaves what a load would read
    * unchanged if it can look at the metadata, and reports exactly that or an I/O error. */
  lemma {:induction false} LoadPreservesVisible(codec: Codec, d: Disk, choices: seq<Choice>)
    requires StatsWork(d, choices)
    ensures var (d', pc) := Run(codec, d, LoadStart, choices);
            Visible(d') == Visible(d) && Reports(codec, Visible(d), pc)
  {
    var v := Visible(d);
    if choices != [] {
      var rest := choices[1..];
      var pc1 := Step(codec, d, LoadStart, choices[0]).1;
      assert Run(codec, d, LoadStart, choices) == Run(codec, d, pc1, rest);
      if d.state.Some? {
        LoadRunSees(codec, d, ReadState, v, rest);
      } else if rest != [] {
        assert rest[0] == choices[1];
        LoadRunSees(codec, d, Step(codec, d, CheckLegacy, rest[0]).1, v, rest[1..]);
      }
    }
  }

  ghost predicate KeepsVisible(codec: Codec, d: Disk, choices: seq<Choice>) {
    Visible(Run(codec, d, LoadStart, choices).0) == Visible(d)
  }

  /** Whatever fails, metadata included: no load changes what is visible, if and only if no two versions
    * of the session lie on the two paths. With two, a load that cannot look at the state path migrates
    * the legacy one over it. */
  lemma {:induction false} LoadsKeepVisibleIff(codec: Codec, d: Disk)
    ensures (forall choices: seq<Choice> :: KeepsVisible(codec, d, choices)) <==> OneCopy(d)
  {
    if OneCopy(d) {
      forall choices: seq<Choice> ensures KeepsVisible(codec, d, choices) {
        LoadRunKeeps(codec, d, LoadStart, Visible(d), choices);
      }
    } else {
      var choices := BlindMigration(codec, d);
      assert !KeepsVisible(codec, d, choices);
    }
  }

  /** Only the first look fails; everything up to the rename works. */
  lemma {:induction false} BlindMigration(codec: Codec, d: Disk) returns (choices: seq<Choice>)
    requires d.state.Some? && d.legacy.Some?
    ensures Visible(Run(codec, d, LoadStart, choices).0) == d.legacy
  {
    var bytes := d.legacy.value;
    var all := Works(|bytes|);
    choices := [Fails] + [all, all, all, all, all, all, all];
    assert bytes[..|bytes|] == bytes;
    var d6 := d.(tmp := Some(bytes));
    var r7 := [all];
    assert r7[1..] == [];
    assert Run(codec, d6, MigrateRename, r7) == Run(codec, d6.(state := d.legacy, tmp := None), MigrateVerify, []);
    assert [all, all][1..] == r7;
    assert Run(codec, d6, MigrateSync, [all, all]) == Run(codec, d6, MigrateRename, r7);
    BlindStart(codec, d, bytes, all);
  }

  lemma {:induction false} BlindStart(codec: Codec, d: Disk, bytes: Contents, all: Choice)
    requires d.state.Some? && d.legacy == Some(bytes) && all == Works(|bytes|)
    ensures Run(codec, d, LoadStart, [Fails] + [all, all, all, all, all, all, all])
         == Run(codec, d.(tmp := Some(bytes)), MigrateSync, [all, all])
  {
    assert bytes[..|bytes|] == bytes;
    assert ([Fails] + [all, all, all, all, all, all, all])[1..] == [all, all, all, all, all, all, all];
    assert [all, all, all, all, all, all, all][1..] == [all, all, all, all, all, all];
    assert [all, all, all, all, all, all][1..] == [all, all, all, all, all];
    assert [all, all, all, all, all][1..] == [all, all, all, all];
    assert [all, all, all, all][1..] == [all, all, all];
    assert [all, all, all][1..] == [all, all];
    assert Run(codec, d.(tmp := Some("")), MigrateWrite(bytes, 0), [all, all, all]) == Run(codec, d.(tmp := Some(bytes)), MigrateSync, [all, all]);
    assert Run(codec, d, MigrateOpen(bytes), [all, all, all, all]) == Run(codec, d.(tmp := Some("")), MigrateWrite(bytes, 0), [all, all, all]);
    assert Run(codec, d, MigrateDir(bytes), [all, all, all, all, all]) == Run(codec, d, MigrateOpen(bytes), [all, all, all, all]);
    assert Run(codec, d, MigrateRead, [all, all, all, all, all, all]) == Run(codec, d, MigrateDir(bytes), [all, all, all, all, all]);
    assert Run(codec, d, CheckLegacy, [all, all, all, all, all, all, all]) == Run(codec, d, MigrateRead, [all, all, all, all, all, all]);
  }

  /** The other look: a load that cannot see the legacy path reports that there is no session. */
  lemma {:induction false} UnseenLegacyIsMissed(codec: Codec, bytes: Contents, tmp: Option<Contents>)
    ensures Run(codec, Disk(None, Some(bytes), tmp), LoadStart, [Works(0), Fails, Works(0)])
         == (Disk(None, Some(bytes), tmp), Finished(Loaded(Ok(None))))
  {
    var d, choices := Disk(None, Some(bytes), tmp), [Works(0), Fails, Works(0)];
    assert choices[1..] == [Fails, Works(0)] && choices[1..][1..] == [Works(0)] && [Works(0)][1..] == [];
    assert Run(codec, d, ReadState, [Works(0)]) == Run(codec, d, Finished(Loaded(Ok(None))), []);
    assert Run(codec, d, CheckLegacy, [Fails, Works(0)]) == Run(codec, d, ReadState, [Works(0)]);
  }

  // ---------- What a load reports ----------

  /** Reading the one file is as good as reading the other. */
  predicate ReadsSame(codec: Codec, v: Option<Contents>, file: Option<Contents>) {
    v.Some? && file.Some? && codec.parse(v.value) == codec.parse(file.value)
  }

  /** A load of a disk on which it does not matter where it looks. */
  ghost predicate ReportInv(codec: Codec, v: Option<Contents>, d: Disk, pc: Pc) {
    && LoadShape(d, pc) && Reports(codec, v, pc)
    && (v.Some? ==> d.state.Some?)
    && (d.state.Some? ==> ReadsSame(codec, v, d.state))
    && (d.legacy.Some? ==> ReadsSame(codec, v, d.legacy))
  }

  lemma {:induction false} ReportStep(codec: Codec, v: Option<Contents>, d: Disk, pc: Pc, c: Choice)
    requires ReportInv(codec, v, d, pc)
    ensures var (d', pc') := Step(codec, d, pc, c); ReportInv(codec, v, d', pc')
  {
    StepKeepsShape(codec, d, pc, c);
  }

  lemma {:induction false} ReportRun(codec: Codec, v: Option<Contents>, d: Disk, pc: Pc, choices: seq<Choice>)
    requires ReportInv(codec, v, d, pc)
    ensures var (d', pc') := Run(codec, d, pc, choices); ReportInv(codec, v, d', pc')
    decreases |choices|
  {
    hide Step, ReportInv;
    if choices != [] && !pc.Finished? {
      ReportStep(codec, v, d, pc, choices[0]);
      var (d', pc') := Step(codec, d, pc, choices[0]);
      ReportRun(codec, v, d', pc', choices[1..]);
    }
  }

  ghost predicate ReportsWhatIsThere(codec: Codec, d: Disk, choices: seq<Choice>) {
    Reports(codec, Visible(d), Run(codec, d, LoadStart, choices).1)
  }

  /** Whatever fails: every load reports the session that is there or an I/O error, if and only if nothing
    * lies at the legacy path, or what lies at the state path reads as the same session. */
  lemma {:induction false} LoadsReportIff(codec: Codec, d: Disk)
    ensures (forall choices: seq<Choice> :: ReportsWhatIsThere(codec, d, choices)) <==>
            d.legacy.None? || (d.state.Some? && codec.parse(d.state.value) == codec.parse(d.legacy.value))
  {
    if d.legacy.None? || ReadsSame(codec, d.state, d.legacy) {
      forall choices: seq<Choice> ensures ReportsWhatIsThere(codec, d, choices) {
        ReportRun(codec, Visible(d), d, LoadStart, choices);
      }
    } else if d.state.None? {
      UnseenLegacyIsMissed(codec, d.legacy.value, d.tmp);
      assert d == Disk(None, Some(d.legacy.value), d.tmp);
      assert !ReportsWhatIsThere(codec, d, [Works(0), Fails, Works(0)]);
    } else {
      OlderIsReported(codec, d);
      assert !ReportsWhatIsThere(codec, d, [Fails, Works(0), Works(0), Fails, Works(0)]);
    }
  }

  /** The failing case with two versions: a load that cannot look at the state path, and cannot migrate,
    * reports the legacy one. */
  lemma {:induction false} OlderIsReported(codec: Codec, d: Disk)
    requires d.state.Some? && d.legacy.Some?
    ensures Run(codec, d, LoadStart, [Fails, Works(0), Works(0), Fails, Works(0)])
         == (d, Finished(Loaded(match codec.parse(d.legacy.value) case None => Err(Parse) case Some(s) => Ok(Some(s)))))
  {
    hide Run;
    var w := Works(0);
    OneCall(codec, d, LoadStart, Fails, [w, w, Fails, w]);
    OneCall(codec, d, CheckLegacy, w, [w, Fails, w]);
    OneCall(codec, d, MigrateRead, w, [Fails, w]);
    OneCall(codec, d, MigrateDir(d.legacy.value), Fails, [w]);
    OneCall(codec, d, ReadLegacy, w, []);
    NoCall(codec, d, ReadSession(codec, d.legacy, w));
    assert [Fails] + [w, w, Fails, w] == [Fails, w, w, Fails, w] && [w] + [w, Fails, w] == [w, w, Fails, w];
    assert [w] + [Fails, w] == [w, Fails, w] && [Fails] + [w] == [Fails, w] && [w] + [] == [w];
  }

  lemma {:induction false} OneCall(codec: Codec, d: Disk, pc: Pc, c: Choice, more: seq<Choice>)
    requires !pc.Finished?
    ensures Run(codec, d, pc, [c] + more) == var (d', pc') := Step(codec, d, pc, c); Run(codec, d', pc', more)
  {
    assert ([c] + more)[1..] == more;
  }

  lemma {:induction false} NoCall(codec: Codec, d: Disk, pc: Pc)
    ensures Run(codec, d, pc, []) == (d, pc)
  {}

  // ---------- Crash consistency of the migration ----------

  /** Loads one after the other, each killed or failing wherever its choices say. */
  function Loads(codec: Codec, d: Disk, attempts: seq<seq<Choice>>): Disk
    decreases |attempts|
  {
    if attempts == [] then d else Loads(codec, Run(codec, d, LoadStart, attempts[0]).0, attempts[1..])
  }

  lemma {:induction false} CopyStays(codec: Codec, d: Disk, pc: Pc, v: Option<Contents>, choices: seq<Choice>)
    requires LoadInv(d, pc, v) && OneCopy(d)
    ensures OneCopy(Run(codec, d, pc, choices).0)
    decreases |choices|
  {
    if choices != [] && !pc.Finished? {
      LoadStepKeeps(codec, d, pc, v, choices[0]);
      var (d', pc') := Step(codec, d, pc, choices[0]);
      CopyStays(codec, d', pc', v, choices[1..]);
    }
  }

  lemma {:induction false} LoadsPreserveVisible(codec: Codec, d: Disk, attempts: seq<seq<Choice>>)
    requires OneCopy(d)
    ensures Visible(Loads(codec, d, attempts)) == Visible(d) && OneCopy(Loads(codec, d, attempts))
    decreases |attempts|
  {
    if attempts != [] {
      LoadRunKeeps(codec, d, LoadStart, Visible(d), attempts[0]);
      CopyStays(codec, d, LoadStart, Visible(d), attempts[0]);
      LoadsPreserveVisible(codec, Run(codec, d, LoadStart, attempts[0]).0, attempts[1..]);
    }
  }

  /** From one complete legacy session, after any number of interrupted or failing loads, the next load
    * that can look at the metadata and gets as far as reading returns that session: never a damaged file,
    * and the state path never shows anything but nothing or the whole session. */
  lemma {:induction false} MigrationIsCrashSafe(codec: Codec, bytes: Contents, tmp: Option<Contents>, attempts: seq<seq<Choice>>, last: seq<Choice>)
    requires codec.parse(bytes).Some?
    ensures var d := Loads(codec, Disk(None, Some(bytes), tmp), attempts);
            && (d.state == None || d.state == Some(bytes))
            && (d.state.None? ==> d.legacy == Some(bytes))
            && var pc := Run(codec, d, LoadStart, last).1;
               pc.Finished? && StatsWork(d, last) ==>
                 pc.outcome == Loaded(Ok(codec.parse(bytes))) || pc.outcome == Loaded(Err(Io))
  {
    LoadsPreserveVisible(codec, Disk(None, Some(bytes), tmp), attempts);
    var d := Loads(codec, Disk(None, Some(bytes), tmp), attempts);
    LoadRunKeeps(codec, d, LoadStart, Visible(d), last);
    if StatsWork(d, last) { LoadPreservesVisible(codec, d, last); }
  }

  // ---------- An uninterrupted load finishes ----------

  /** Every write that works takes at least one character. */
  predicate WritesProgress(choices: seq<Choice>) {
    forall i | 0 <= i < |choices| && choices[i].Works? :: choices[i].progress > 0
  }

  /** How many calls a load may still make. */
  function CallsLeft(d: Disk, pc: Pc): nat {
    match pc
    case LoadStart => 11 + LegacySize(d)
    case CheckLegacy => 10 + LegacySize(d)
    case MigrateRead => 9 + LegacySize(d)
    case MigrateDir(bytes) => 8 + |bytes|
    case MigrateOpen(bytes) => 7 + |bytes|
    case MigrateWrite(bytes, n) => if n <= |bytes| then 6 + |bytes| - n else 0
    case MigrateSync => 5
    case MigrateRename => 4
    case MigrateVerify => 3
    case MigrateUnlink => 2
    case ReadState => 1
    case ReadLegacy => 1
    case _ => 0
  }

  function LegacySize(d: Disk): nat { if d.legacy.Some? then |d.legacy.value| else 0 }

  lemma {:induction false} CallUsesOne(codec: Codec, d: Disk, pc: Pc, c: Choice)
    requires LoadShape(d, pc) && !pc.Finished? && (c.Works? ==> c.progress > 0)
    ensures var (d', pc') := Step(codec, d, pc, c); CallsLeft(d', pc') < CallsLeft(d, pc)
  {}

  /** From any point of a load, so many calls are enough, whatever fails. */
  lemma {:induction false} LoadFinishes(codec: Codec, d: Disk, pc: Pc, choices: seq<Choice>)
    requires LoadShape(d, pc) && WritesProgress(choices) && |choices| >= CallsLeft(d, pc)
    ensures Run(codec, d, pc, choices).1.Finished?
    decreases |choices|
  {
    hide Step, LoadShape, CallsLeft;
    if !pc.Finished? {
      NotDoneYet(d, pc);
      StepKeepsShape(codec, d, pc, choices[0]);
      CallUsesOne(codec, d, pc, choices[0]);
      var (d', pc') := Step(codec, d, pc, choices[0]);
      LoadFinishes(codec, d', pc', choices[1..]);
    }
  }

  lemma {:induction false} NotDoneYet(d: Disk, pc: Pc)
    requires LoadShape(d, pc) && !pc.Finished?
    ensures CallsLeft(d, pc) > 0
  {}

  /** The number of calls after which the operation has finished. */
  function FinishesAfter(codec: Codec, d: Disk, pc: Pc, choices: seq<Choice>): (n: nat)
    ensures n <= |choices|
    decreases |choices|
  {
    if choices == [] || pc.Finished? then 0
    else var (d', pc') := Step(codec, d, pc, choices[0]); 1 + FinishesAfter(codec, d', pc', choices[1..])
  }

  lemma {:induction false} LastReadReturns(codec: Codec, d: Disk, pc: Pc, v: Contents, choices: seq<Choice>)
    requires LoadInv(d, pc, Some(v)) && Sees(d, pc) && codec.parse(v).Some? && !pc.LoadStart? && !pc.CheckLegacy? && !pc.Finished?
    requires Run(codec, d, pc, choices).1.Finished? && choices != []
    requires var n := FinishesAfter(codec, d, pc, choices); n > 0 && choices[n - 1].Works?
    ensures Run(codec, d, pc, choices).1.outcome == Loaded(Ok(codec.parse(v)))
    decreases |choices|
  {
    hide LoadInv, Reports, Sees, Step;
    LoadOngoing(codec, Some(v), pc);
    LoadStepKeeps(codec, d, pc, Some(v), choices[0]);
    LoadStepSees(codec, d, pc, Some(v), choices[0]);
    var (d', pc') := Step(codec, d, pc, choices[0]);
    if pc'.Finished? {
      LoadHasShape(d, pc, Some(v));
      FinishesByReading(codec, d, pc, choices[0]);
      assert Run(codec, d', pc', choices[1..]) == (d', pc');
    } else {
      LastReadReturns(codec, d', pc', v, choices[1..]);
    }
  }

  /** A load that is given so many calls finishes; and if it can look at the metadata and its very last
    * read works, it returns the session, whatever happened to the directory, the writes, the rename or
    * the unlink before. */
  lemma {:induction false} UninterruptedLoadReturns(codec: Codec, d: Disk, v: Contents, choices: seq<Choice>)
    requires WritesProgress(choices) && |choices| >= LegacySize(d) + 11
    ensures Run(codec, d, LoadStart, choices).1.Finished?
    ensures Visible(d) == Some(v) && codec.parse(v).Some? && StatsWork(d, choices)
            && choices[FinishesAfter(codec, d, LoadStart, choices) - 1].Works? ==>
              Run(codec, d, LoadStart, choices).1.outcome == Loaded(Ok(codec.parse(v)))
  {
    LoadFinishes(codec, d, LoadStart, choices);
    var rest := choices[1..];
    var pc1 := Step(codec, d, LoadStart, choices[0]).1;
    assert Run(codec, d, LoadStart, choices) == Run(codec, d, pc1, rest);
    assert FinishesAfter(codec, d, LoadStart, choices) == 1 + FinishesAfter(codec, d, pc1, rest);
    if Visible(d) == Some(v) && codec.parse(v).Some? && StatsWork(d, choices)
       && choices[FinishesAfter(codec, d, LoadStart, choices) - 1].Works? {
      if d.state.Some? {
        LastReadReturns(codec, d, pc1, v, rest);
      } else {
        var rest2 := rest[1..];
        var pc2 := Step(codec, d, CheckLegacy, rest[0]).1;
        assert rest[0] == choices[1];
        assert Run(codec, d, CheckLegacy, rest) == Run(codec, d, pc2, rest2);
        assert FinishesAfter(codec, d, CheckLegacy, rest) == 1 + FinishesAfter(codec, d, pc2, rest2);
        LastReadReturns(codec, d, pc2, v, rest2);
      }
    }
  }

  lemma {:induction false} LoadOngoing(codec: Codec, v: Option<Contents>, pc: Pc)
    requires !pc.Finished?
    ensures Reports(codec, v, pc)
  {}

  lemma {:induction false} LoadHasShape(d: Disk, pc: Pc, v: Option<Contents>)
    requires LoadInv(d, pc, v)
    ensures LoadShape(d, pc)
  {}

  lemma {:induction false} FinishesByReading(codec: Codec, d: Disk, pc: Pc, c: Choice)
    requires LoadShape(d, pc) && !pc.Finished? && Step(codec, d, pc, c).1.Finished?
    ensures pc.ReadState? || pc.ReadLegacy?
  {}

  // ---------- Store and clear ----------

  ghost predicate StoreInv(d: Disk, d0: Disk, pc: Pc, bytes: Contents) {
    && d.legacy == d0.legacy
    && (match pc
        case StoreDir(b) => d.state == d0.state && b == bytes
        case StoreOpen(b) => d.state == d0.state && b == bytes
        case StoreWrite(b, n) => d.state == d0.state && b == bytes && n <= |bytes|
        case StoreSync => d.state == d0.state && d.tmp == Some(bytes)
        case StoreRename => d.state == d0.state && d.tmp == Some(bytes)
        case StoreCleanup => d.state == d0.state
        case Finished(Stored(failed)) => if failed then d.state == d0.state else d.state == Some(bytes) && d.tmp.None?
        case _ => false)
  }

  lemma {:induction false} StoreStepKeeps(codec: Codec, d: Disk, d0: Disk, pc: Pc, bytes: Contents, c: Choice)
    requires StoreInv(d, d0, pc, bytes)
    ensures var (d', pc') := Step(codec, d, pc, c); StoreInv(d', d0, pc', bytes)
  {
    assert bytes[..|bytes|] == bytes;
  }

  lemma {:induction false} StoreRunKeeps(codec: Codec, d: Disk, d0: Disk, pc: Pc, bytes: Contents, choices: seq<Choice>)
    requires StoreInv(d, d0, pc, bytes)
    ensures var (d', pc') := Run(codec, d, pc, choices); StoreInv(d', d0, pc', bytes)
    decreases |choices|
  {
    hide Step, StoreInv;
    if choices != [] && !pc.Finished? {
      StoreStepKeeps(codec, d, d0, pc, bytes, choices[0]);
      var (d', pc') := Step(codec, d, pc, choices[0]);
      StoreRunKeeps(codec, d', d0, pc', bytes, choices[1..]);
    }
  }

  /** Store is all or nothing: whatever point it is stopped at, the state path holds the old file or the
    * whole new one; success means the new one, a reported failure the old one. */
  lemma {:induction false} StoreIsAtomic(codec: Codec, d: Disk, s: Session, choices: seq<Choice>)
    ensures var (d', pc) := Run(codec, d, Entry(codec, Store(s)), choices);
            && d'.legacy == d.legacy
            && (d'.state == d.state || d'.state == Some(codec.serialize(s)))
            && (pc == Finished(Stored(false)) ==> d'.state == Some(codec.serialize(s)) && d'.tmp.None?)
            && (pc == Finished(Stored(true)) ==> d'.state == d.state)
  {
    StoreRunKeeps(codec, d, d, Entry(codec, Store(s)), codec.serialize(s), choices);
  }

  lemma {:induction false} ClearRun(codec: Codec, d: Disk, choices: seq<Choice>)
    ensures var (d', pc) := Run(codec, d, ClearState, choices);
            && d'.tmp == d.tmp
            && (d' == d || d' == d.(state := None) || d' == d.(state := None, legacy := None))
            && (pc == Finished(Cleared(false)) ==> d'.state.None? && d'.legacy.None?)
  {
    if choices != [] {
      var (d1, pc1) := Step(codec, d, ClearState, choices[0]);
      if choices[1..] != [] && !pc1.Finished? {
        var (d2, pc2) := Step(codec, d1, pc1, choices[1..][0]);
        assert Run(codec, d1, pc1, choices[1..]) == Run(codec, d2, pc2, choices[1..][1..]);
        assert pc2.Finished?;
        assert Run(codec, d2, pc2, choices[1..][1..]) == (d2, pc2);
      }
      assert Run(codec, d, ClearState, choices) == Run(codec, d1, pc1, choices[1..]);
    }
  }

  /** Logout is complete when it reports success: nothing is left for any later load to find. */
  lemma {:induction false} ClearedMeansGone(codec: Codec, d: Disk, choices: seq<Choice>, later: seq<Choice>)
    requires Run(codec, d, ClearState, choices).1 == Finished(Cleared(false))
    ensures var d' := Run(codec, d, ClearState, choices).0;
            var pc := Run(codec, d', LoadStart, later).1;
            pc.Finished? ==> pc.outcome == Loaded(Ok(None)) || pc.outcome == Loaded(Err(Io))
  {
    ClearRun(codec, d, choices);
    NothingIsFound(codec, Run(codec, d, ClearState, choices).0, LoadStart, later);
  }

  lemma {:induction false} NothingIsFound(codec: Codec, d: Disk, pc: Pc, choices: seq<Choice>)
    requires d.state.None? && d.legacy.None?
    requires pc.LoadStart? || pc.CheckLegacy? || pc.ReadState? || pc == Finished(Loaded(Ok(None))) || pc == Finished(Loaded(Err(Io)))
    ensures var pc' := Run(codec, d, pc, choices).1;
            pc'.Finished? ==> pc'.outcome == Loaded(Ok(None)) || pc'.outcome == Loaded(Err(Io))
    decreases |choices|
  {
    if choices != [] && !pc.Finished? {
      NothingIsFound(codec, d, Step(codec, d, pc, choices[0]).1, choices[1..]);
    }
  }

  /** A clear that is stopped anywhere leaves the session as it was or gone, if and only if no different
    * copy lies at the legacy path: such a copy is what the next load brings back. */
  lemma {:induction false} InterruptedClearIff(codec: Codec, d: Disk)
    ensures (forall choices: seq<Choice> :: KeptOrGone(codec, d, choices)) <==> d.legacy.None? || d.legacy == Visible(d)
  {
    var once := [Works(0)];
    assert once[1..] == [];
    assert Run(codec, d, ClearState, once) == Run(codec, d.(state := None), ClearLegacy, once[1..]);
    assert Visible(Run(codec, d, ClearState, once).0) == d.legacy;
    assert KeptOrGone(codec, d, once) <==> d.legacy.None? || d.legacy == Visible(d);
    forall choices: seq<Choice> ensures KeptOrGone(codec, d, choices) || Visible(Run(codec, d, ClearState, choices).0) == d.legacy {
      ClearRun(codec, d, choices);
    }
  }

  ghost predicate KeptOrGone(codec: Codec, d: Disk, choices: seq<Choice>) {
    var v := Visible(Run(codec, d, ClearState, choices).0);
    v == Visible(d) || v.None?
  }

  // ---------- When everything works ----------

  predicate AllWork(choices: seq<Choice>) {
    forall i | 0 <= i < |choices| :: choices[i].Works? && choices[i].progress > 0
  }

  /** How many calls a store may still make when all of them work. */
  function StoreLeft(pc: Pc): nat {
    match pc
    case StoreDir(bytes) => 5 + |bytes|
    case StoreOpen(bytes) => 4 + |bytes|
    case StoreWrite(bytes, n) => if n <= |bytes| then 3 + |bytes| - n else 0
    case StoreSync => 2
    case StoreRename => 1
    case _ => 0
  }

  predicate StoreGoesWell(pc: Pc) {
    pc.StoreDir? || pc.StoreOpen? || pc.StoreWrite? || pc.StoreSync? || pc.StoreRename? || pc == Finished(Stored(false))
  }

  lemma {:induction false} WorkingStoreStep(codec: Codec, d: Disk, d0: Disk, pc: Pc, bytes: Contents, c: Choice)
    requires StoreInv(d, d0, pc, bytes) && StoreGoesWell(pc) && !pc.Finished? && c.Works? && c.progress > 0
    ensures var pc' := Step(codec, d, pc, c).1; StoreGoesWell(pc') && StoreLeft(pc') < StoreLeft(pc)
  {}

  lemma {:induction false} WorkingStoreRun(codec: Codec, d: Disk, d0: Disk, pc: Pc, bytes: Contents, choices: seq<Choice>)
    requires StoreInv(d, d0, pc, bytes) && StoreGoesWell(pc) && AllWork(choices) && |choices| >= StoreLeft(pc)
    ensures Run(codec, d, pc, choices).1 == Finished(Stored(false))
    decreases |choices|
  {
    hide Step, StoreInv, StoreLeft;
    if !pc.Finished? {
      StoreStillLeft(d, d0, pc, bytes);
      WorkingStoreStep(codec, d, d0, pc, bytes, choices[0]);
      StoreStepKeeps(codec, d, d0, pc, bytes, choices[0]);
      var (d', pc') := Step(codec, d, pc, choices[0]);
      WorkingStoreRun(codec, d', d0, pc', bytes, choices[1..]);
    }
  }

  lemma {:induction false} StoreStillLeft(d: Disk, d0: Disk, pc: Pc, bytes: Contents)
    requires StoreInv(d, d0, pc, bytes) && StoreGoesWell(pc) && !pc.Finished?
    ensures StoreLeft(pc) > 0
  {}

  /** A store none of whose calls fails stores. */
  lemma {:induction false} WorkingStoreStores(codec: Codec, d: Disk, s: Session, choices: seq<Choice>)
    requires AllWork(choices) && |choices| >= 5 + |codec.serialize(s)|
    ensures Run(codec, d, Entry(codec, Store(s)), choices)
         == (d.(state := Some(codec.serialize(s)), tmp := None), Finished(Stored(false)))
  {
    WorkingStoreRun(codec, d, d, Entry(codec, Store(s)), codec.serialize(s), choices);
    StoreIsAtomic(codec, d, s, choices);
  }

  /** A store that fails and can still tidy up leaves nothing beside the state file. */
  lemma {:induction false} FailedStoreTidies(codec: Codec, d: Disk, pc: Pc, choices: seq<Choice>)
    requires (StoreGoesWell(pc) || pc.StoreCleanup?) && !pc.Finished?
    requires var n := FinishesAfter(codec, d, pc, choices); n > 0 && choices[n - 1].Works?
    requires Run(codec, d, pc, choices).1 == Finished(Stored(true))
    ensures Run(codec, d, pc, choices).0.tmp.None?
    decreases |choices|
  {
    var (d', pc') := Step(codec, d, pc, choices[0]);
    if pc'.Finished? {
      assert Run(codec, d', pc', choices[1..]) == (d', pc');
    } else if choices[1..] != [] {
      FailedStoreTidies(codec, d', pc', choices[1..]);
    }
  }

  lemma {:induction false} WorkingLoadStep(codec: Codec, d: Disk, pc: Pc, bytes: Contents, c: Choice)
    requires GoingOver(d, pc, bytes) && !pc.ReadState? && c.Works? && c.progress > 0
    ensures var (d', pc') := Step(codec, d, pc, c); GoingOver(d', pc', bytes)
  {
    assert bytes[..|bytes|] == bytes;
  }

  /** A migration none of whose calls has failed. */
  ghost predicate GoingOver(d: Disk, pc: Pc, bytes: Contents) {
    && LoadShape(d, pc)
    && (pc.LoadStart? || pc.CheckLegacy? || Migrating(pc) ==> d.legacy == Some(bytes))
    && (pc.LoadStart? || pc.CheckLegacy? ==> d.state.None?)
    && (pc.MigrateVerify? || pc.MigrateUnlink? ==> d.state == Some(bytes) && d.tmp.None?)
    && (pc.ReadState? ==> d == Disk(Some(bytes), None, None))
    && !pc.ReadLegacy? && !pc.Finished?
  }

  lemma {:induction false} WorkingLoadRun(codec: Codec, d: Disk, pc: Pc, bytes: Contents, choices: seq<Choice>)
    requires GoingOver(d, pc, bytes) && AllWork(choices) && |choices| >= CallsLeft(d, pc)
    ensures Run(codec, d, pc, choices) == (Disk(Some(bytes), None, None), ReadSession(codec, Some(bytes), Works(0)))
    decreases |choices|
  {
    hide Step, LoadShape, CallsLeft;
    NotDoneYet(d, pc);
    var (d', pc') := Step(codec, d, pc, choices[0]);
    if pc.ReadState? {
      ReadsState(codec, d, choices[0]);
      assert Run(codec, d', pc', choices[1..]) == (d', pc');
    } else {
      WorkingLoadStep(codec, d, pc, bytes, choices[0]);
      CallUsesOne(codec, d, pc, choices[0]);
      WorkingLoadRun(codec, d', pc', bytes, choices[1..]);
    }
  }

  lemma {:induction false} ReadsState(codec: Codec, d: Disk, c: Choice)
    requires c.Works? && d.state.Some?
    ensures Step(codec, d, ReadState, c) == (d, ReadSession(codec, d.state, Works(0))) && ReadSession(codec, d.state, Works(0)).Finished?
  {}

  /** A load none of whose calls fails moves a legacy session to the state path, and reports it. */
  lemma {:induction false} WorkingLoadMigrates(codec: Codec, d: Disk, choices: seq<Choice>)
    requires d.state.None? && d.legacy.Some? && AllWork(choices) && |choices| >= LegacySize(d) + 11
    ensures var (d', pc) := Run(codec, d, LoadStart, choices);
            && d' == Disk(d.legacy, None, None)
            && (codec.parse(d.legacy.value).Some? ==> pc == Finished(Loaded(Ok(codec.parse(d.legacy.value)))))
            && (codec.parse(d.legacy.value).None? ==> pc == Finished(Loaded(Err(Parse))))
  {
    WorkingLoadRun(codec, d, LoadStart, d.legacy.value, choices);
  }

  /** A clear neither of whose calls fails removes both files. */
  lemma {:induction false} WorkingClearClears(codec: Codec, d: Disk, choices: seq<Choice>)
    requires AllWork(choices) && |choices| >= 2
    ensures Run(codec, d, ClearState, choices) == (d.(state := None, legacy := None), Finished(Cleared(false)))
  {
    var d1, d2, end := d.(state := None), d.(state := None, legacy := None), Finished(Cleared(false));
    assert choices[1..][0] == choices[1];
    assert Run(codec, d2, end, choices[1..][1..]) == (d2, end);
    assert Run(codec, d1, ClearLegacy, choices[1..]) == (d2, end);
  }

  // ---------- Whole histories ----------

  datatype Call = Call(op: Operation, choices: seq<Choice>)

  function Calls(codec: Codec, d: Disk, calls: seq<Call>): Disk
    decreases |calls|
  {
    if calls == [] then d
    else Calls(codec, Run(codec, d, Entry(codec, calls[0].op), calls[0].choices).0, calls[1..])
  }

  /** Both paths show nothing but files from `known`, the complete ones. */
  ghost predicate OnlyComplete(d: Disk, known: set<Contents>) {
    (d.state.Some? ==> d.state.value in known) && (d.legacy.Some? ==> d.legacy.value in known)
  }

  lemma {:induction false} CallShowsOnlyComplete(codec: Codec, d: Disk, call: Call, known: set<Contents>)
    requires OnlyComplete(d, known) && (call.op.Store? ==> codec.serialize(call.op.session) in known)
    ensures OnlyComplete(Run(codec, d, Entry(codec, call.op), call.choices).0, known)
  {
    match call.op
    case Load =>
      LoadRunShows(codec, d, LoadStart, call.choices, known);
    case Store(s) => StoreIsAtomic(codec, d, s, call.choices);
    case Clear => ClearRun(codec, d, call.choices);
  }

  lemma {:induction false} LoadRunShows(codec: Codec, d: Disk, pc: Pc, choices: seq<Choice>, known: set<Contents>)
    requires LoadShape(d, pc) && OnlyComplete(d, known)
    ensures OnlyComplete(Run(codec, d, pc, choices).0, known)
    decreases |choices|
  {
    if choices != [] && !pc.Finished? {
      StepKeepsShape(codec, d, pc, choices[0]);
      var (d', pc') := Step(codec, d, pc, choices[0]);
      LoadRunShows(codec, d', pc', choices[1..], known);
    }
  }

  /** Over every history of loads, stores and clears, stopped anywhere: a reader never finds anything at
    * either path but a complete file, one the history began with or one it was asked to store. */
  lemma {:induction false} NeverPartial(codec: Codec, d: Disk, calls: seq<Call>, known: set<Contents>)
    requires OnlyComplete(d, known) && forall c :: c in calls && c.op.Store? ==> codec.serialize(c.op.session) in known
    ensures OnlyComplete(Calls(codec, d, calls), known)
    decreases |calls|
  {
    if calls != [] {
      assert calls[0] in calls;
      CallShowsOnlyComplete(codec, d, calls[0], known);
      NeverPartial(codec, Run(codec, d, Entry(codec, calls[0].op), calls[0].choices).0, calls[1..], known);
    }
  }

  /** Every one of the loads can look at the metadata. */
  predicate AllStatsWork(codec: Codec, d: Disk, attempts: seq<seq<Choice>>)
    decreases |attempts|
  {
    attempts != [] ==>
      StatsWork(d, attempts[0]) && AllStatsWork(codec, Run(codec, d, LoadStart, attempts[0]).0, attempts[1..])
  }

  lemma {:induction false} SeeingLoadsPreserveVisible(codec: Codec, d: Disk, attempts: seq<seq<Choice>>)
    requires AllStatsWork(codec, d, attempts)
    ensures Visible(Loads(codec, d, attempts)) == Visible(d)
    decreases |attempts|
  {
    if attempts != [] {
      LoadPreservesVisible(codec, d, attempts[0]);
      SeeingLoadsPreserveVisible(codec, Run(codec, d, LoadStart, attempts[0]).0, attempts[1..]);
    }
  }

  /** A stored session is what every later load reads that can look at the metadata, through any number of
    * interrupted or failing loads in between, if those can look too or no other version lies at the
    * legacy path. */
  lemma {:induction false} StoredStaysVisible(codec: Codec, d: Disk, s: Session, choices: seq<Choice>, attempts: seq<seq<Choice>>, last: seq<Choice>)
    requires RoundTrips(codec) && Run(codec, d, Entry(codec, Store(s)), choices).1 == Finished(Stored(false))
    requires var d1 := Run(codec, d, Entry(codec, Store(s)), choices).0; AllStatsWork(codec, d1, attempts) || OneCopy(d1)
    requires StatsWork(Loads(codec, Run(codec, d, Entry(codec, Store(s)), choices).0, attempts), last)
    ensures var d' := Loads(codec, Run(codec, d, Entry(codec, Store(s)), choices).0, attempts);
            var pc := Run(codec, d', LoadStart, last).1;
            pc.Finished? ==> pc.outcome == Loaded(Ok(Some(s))) || pc.outcome == Loaded(Err(Io))
  {
    StoreIsAtomic(codec, d, s, choices);
    var d1 := Run(codec, d, Entry(codec, Store(s)), choices).0;
    if OneCopy(d1) { LoadsPreserveVisible(codec, d1, attempts); } else { SeeingLoadsPreserveVisible(codec, d1, attempts); }
    var d' := Loads(codec, d1, attempts);
    LoadPreservesVisible(codec, d', last);
    LoadShapeAtEnd(codec, d', LoadStart, last);
    assert codec.parse(codec.serialize(s)) == Some(s);
  }

  lemma {:induction false} LoadShapeAtEnd(codec: Codec, d: Disk, pc: Pc, choices: seq<Choice>)
    requires LoadShape(d, pc)
    ensures LoadShape(Run(codec, d, pc, choices).0, Run(codec, d, pc, choices).1)
    decreases |choices|
  {
    hide Step, LoadShape;
    if choices != [] && !pc.Finished? {
      StepKeepsShape(codec, d, pc, choices[0]);
      var (d', pc') := Step(codec, d, pc, choices[0]);
      LoadShapeAtEnd(codec, d', pc', choices[1..]);
    }
  }
}
