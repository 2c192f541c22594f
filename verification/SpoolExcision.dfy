/** Removing a run of refused records from the telemetry daemon's spool
  * (scripts/otel-daemon-unstick.py). The collector, the digest and the quarantine key are
  * arbitrary functions; the collector may answer differently at each attempt. */
module SpoolExcision {
  import opened Common
  import opened Lines
  import Utf8

  const HeadBytes: nat := 4096

  // ---------------------------------------------------------------- the scan, over records

  datatype Answer = Undecodable | Raised | Status(code: int)

  /** ASCII whitespace only. */
  predicate Blank(r: Bytes) {
    forall i | 0 <= i < |r| :: 9 <= r[i] <= 13 || r[i] == 32
  }

  datatype World<!D, !K> = World(
    digest: Bytes -> D,
    key: Bytes -> K,
    answer: (nat, Bytes) -> Answer)

  predicate Accepted(a: Answer) { a.Status? && 200 <= a.code < 300 }

  predicate Refused(a: Answer) { a.Status? && !(200 <= a.code < 300) }

  /** How offering records ends: an accepted one, a failure, or nothing more to offer; each
    * after a number of refusals. */
  datatype Probe = Found(refused: nat) | Failed(refused: nat) | Exhausted(refused: nat)

  function ProbeFrom<D, K>(w: World<D, K>, records: seq<Bytes>, tried: nat, maxScan: int): (p: Probe)
    ensures tried <= p.refused <= tried + |records|
    ensures !p.Exhausted? ==> p.refused < tried + |records|
    decreases |records|
  {
    if records == [] || tried >= maxScan || Blank(records[0]) then Exhausted(tried)
    else if !w.answer(tried, records[0]).Status? then Failed(tried)
    else if Accepted(w.answer(tried, records[0])) then Found(tried)
    else ProbeFrom(w, records[1..], tried + 1, maxScan)
  }

  /** Record `i`, offered after `tried + i` others, is refused. */
  ghost predicate RefusedAt<D, K>(w: World<D, K>, records: seq<Bytes>, tried: nat, i: nat) {
    i < |records| && !Blank(records[i]) && Refused(w.answer(tried + i, records[i]))
  }

  /** What stops the offering after `n` refusals. */
  ghost predicate Stops<D, K>(w: World<D, K>, records: seq<Bytes>, n: nat, at: nat, maxScan: int, p: Probe) {
    if n >= |records| || at >= maxScan || Blank(records[n]) then p == Exhausted(at)
    else
      var answer := w.answer(at, records[n]);
      if Accepted(answer) then p == Found(at) else p == Failed(at) && !answer.Status?
  }

  /** The probe is `n` refusals in a row, within the limit, and then the first thing that stops it. */
  lemma {:induction false} ProbeMeaning<D, K>(w: World<D, K>, records: seq<Bytes>, tried: nat, maxScan: int)
    ensures var p := ProbeFrom(w, records, tried, maxScan); var n := p.refused - tried;
            && (forall i | 0 <= i < n :: RefusedAt(w, records, tried, i))
            && (n > 0 ==> p.refused <= maxScan)
            && Stops(w, records, n, p.refused, maxScan, p)
    decreases |records|
  {
    var p := ProbeFrom(w, records, tried, maxScan);
    if p.refused > tried {
      var later := records[1..];
      ProbeMeaning(w, later, tried + 1, maxScan);
      var n := p.refused - tried;
      forall i | 0 <= i < n ensures RefusedAt(w, records, tried, i) {
        if i > 0 { assert RefusedAt(w, later, tried + 1, i - 1); }
      }
      if n < |records| { assert records[n] == later[n - 1]; }
    }
  }

  // ---------------------------------------------------------------- the script

  /** `None` on a checkpoint from a build that could not ask. */
  datatype Identity = Identity(inode: Option<nat>, device: Option<nat>)

  datatype Checkpoint<D, K> = Checkpoint(
    offset: nat,
    headLen: nat,
    head: D,
    identity: Identity,
    quarantine: map<K, nat>)

  /** `data[:n]` */
  function Head(raw: Bytes, n: nat): Bytes { if n <= |raw| then raw[..n] else raw }

  /** Two ids agree unless both are known and they differ. */
  predicate Agree(recorded: Identity, current: Identity) {
    && (recorded.inode.Some? && current.inode.Some? ==> recorded.inode == current.inode)
    && (recorded.device.Some? && current.device.Some? ==> recorded.device == current.device)
  }

  /** The daemon's own test that the checkpoint was measured against this file. */
  predicate SameFile<D(==), K>(w: World<D, K>, raw: Bytes, at: Identity, cp: Checkpoint<D, K>) {
    cp.headLen <= |raw| && Agree(cp.identity, at) && w.digest(Head(raw, cp.headLen)) == cp.head
  }

  /** The two files as they lie. `readable` is false while the checkpoint is being rewritten in place. */
  datatype Disk<D, K> = Disk(raw: Bytes, identity: Identity, checkpoint: Checkpoint<D, K>, readable: bool)

  /** The records the daemon offers next: from the checkpoint, or from the start when the file is shorter
    * than the offset or not the same; none while the checkpoint cannot be read, which is an error. */
  function Offered<D(==), K>(w: World<D, K>, d: Disk<D, K>): Option<seq<Bytes>> {
    if !d.readable then None
    else if |d.raw| < d.checkpoint.offset || !SameFile(w, d.raw, d.identity, d.checkpoint) then Some(Records(d.raw))
    else Some(RecordsAt(d.raw, d.checkpoint.offset))
  }

  datatype Outcome =
    | Unreadable | HeadMismatch | InsideHead | ProbeFailed | NotStuck | NoneAccepted | DryRun | HeadWouldChange | Applied

  function RecordsAt(raw: Bytes, offset: nat): seq<Bytes> {
    if offset <= |raw| then Records(raw[offset..]) else []
  }

  /** What the script decides, told over records rather than bytes. */
  function Decide<D(==), K>(w: World<D, K>, raw: Bytes, cp: Checkpoint<D, K>, maxScan: int, apply: bool): Outcome {
    if w.digest(Head(raw, cp.headLen)) != cp.head then HeadMismatch
    else if cp.offset < HeadBytes then InsideHead
    else
      var probe := ProbeFrom(w, RecordsAt(raw, cp.offset), 0, maxScan);
      if probe.Failed? then ProbeFailed
      else if probe.refused == 0 then NotStuck
      else if probe.Exhausted? then NoneAccepted
      else if !apply then DryRun
      else if w.digest(Head(Excised(raw, cp.offset, probe.refused), cp.headLen)) != cp.head then HeadWouldChange
      else Applied
  }

  /** The file without the first `n` records from `offset` on. */
  function Excised(raw: Bytes, offset: nat, n: nat): Bytes {
    if offset <= |raw| && n <= |RecordsAt(raw, offset)|
    then raw[..offset] + Concat(RecordsAt(raw, offset)[n..])
    else raw
  }

  class Spool<!D(==), !K(==)> {
    const w: World<D, K>
    var raw: Bytes
    var identity: Identity
    var checkpoint: Checkpoint<D, K>
    var readable: bool

    function OnDisk(): Disk<D, K>
      reads this
    {
      Disk(raw, identity, checkpoint, readable)
    }

    constructor (w: World<D, K>, d: Disk<D, K>)
      ensures this.w == w && OnDisk() == d
    {
      this.w, raw, identity, checkpoint, readable := w, d.raw, d.identity, d.checkpoint, d.readable;
    }

    /** Walks the bytes from the checkpoint's offset; `bad` holds where each refused record
      * starts and `end` where the walk stopped. */
    method Scan(maxScan: int) returns (probe: Probe, bad: seq<nat>, end: nat)
      ensures probe == ProbeFrom(w, RecordsAt(raw, checkpoint.offset), 0, maxScan)
      ensures |bad| == probe.refused
      ensures checkpoint.offset <= |raw| ==>
        RunOf(raw, checkpoint.offset, bad, end)
      ensures checkpoint.offset > |raw| ==> bad == []
    {
      hide RunOf, ProbeFrom, RecordsAt, IsLineEnd, Blank;
      var offset := checkpoint.offset;
      var pos := offset;
      bad := [];
      RunStart(raw, offset);
      while pos < |raw| && |bad| < maxScan
        invariant offset <= |raw| ==> RunOf(raw, offset, bad, pos)
        invariant offset > |raw| ==> bad == [] && pos == offset
        invariant ProbeFrom(w, RecordsAt(raw, pos), |bad|, maxScan)
               == ProbeFrom(w, RecordsAt(raw, offset), 0, maxScan)
        decreases |raw| - pos
      {
        var next := LineEnd(raw, pos);
        var line := raw[pos..next];
        ProbeStep(w, raw, pos, |bad|, maxScan);
        if Blank(line) {
          return Exhausted(|bad|), bad, pos;
        }
        var answer := w.answer(|bad|, line);
        if !answer.Status? {
          return Failed(|bad|), bad, pos;
        }
        if Accepted(answer) {
          return Found(|bad|), bad, pos;
        }
        RunGrows(raw, offset, bad, pos);
        bad := bad + [pos];
        pos := next;
      }
      ProbeEnds(w, raw, pos, |bad|, maxScan);
      probe := Exhausted(|bad|);
      end := pos;
    }

    /** The quarantine without the entries of the records starting at `bad`. */
    method Unquarantine(bad: seq<nat>, ghost records: seq<Bytes>) returns (quarantine: map<K, nat>)
      requires |bad| == |records|
      requires forall i | 0 <= i < |bad| :: StartsAt(raw, bad[i], records[i])
      ensures quarantine == checkpoint.quarantine - Keys(w, records)
    {
      quarantine := checkpoint.quarantine;
      for i := 0 to |bad|
        invariant quarantine == checkpoint.quarantine - Keys(w, records[..i])
      {
        var line := raw[bad[i]..LineEnd(raw, bad[i])];
        KeysGrow(w, records, i);
        quarantine := quarantine - {w.key(line)};
      }
      assert records[..|records|] == records;
    }

    /** Every exit but the last leaves both files as they were. The last replaces the spool, by a file
      * of the identity `replacement`, and then rewrites the checkpoint in place; the process may be
      * killed after any number of these `writes`. */
    method Unstick(maxScan: int, apply: bool, replacement: Identity, writes: nat) returns (outcome: Outcome)
      modifies this
      ensures outcome == if old(readable) then Decide(w, old(raw), old(checkpoint), maxScan, apply) else Unreadable
      ensures outcome != Applied ==> OnDisk() == old(OnDisk())
      ensures outcome == Applied ==> OnDisk() == Stage(w, old(OnDisk()), maxScan, replacement, writes)
    {
      hide ProbeFrom, RecordsAt, Keys, Excised, Head;
      if !readable {
        return Unreadable;
      }
      if w.digest(Head(raw, checkpoint.headLen)) != checkpoint.head {
        return HeadMismatch;
      }
      var offset := checkpoint.offset;
      if offset < HeadBytes {
        return InsideHead;
      }
      var probe, bad, end := Scan(maxScan);
      if probe.Failed? {
        return ProbeFailed;
      }
      if |bad| == 0 {
        return NotStuck;
      }
      if probe.Exhausted? {
        return NoneAccepted;
      }
      if !apply {
        return DryRun;
      }
      var edited := raw[..offset] + raw[end..];
      RunIsExcised(raw, offset, bad, end);
      if w.digest(Head(edited, checkpoint.headLen)) != checkpoint.head {
        return HeadWouldChange;
      }
      var quarantine := Unquarantine(bad, RecordsAt(raw, offset)[..|bad|]);
      outcome := Applied;
      if writes == 0 { return; }
      raw, identity := edited, replacement;
      if writes == 1 { return; }
      readable := false;
      if writes == 2 { return; }
      checkpoint := checkpoint.(identity := replacement, quarantine := quarantine);
      readable := true;
    }
  }

  /** An edit after so many of its writes: nothing; the spool replaced; the checkpoint emptied; done. */
  function Stage<D, K(==)>(w: World<D, K>, d: Disk<D, K>, maxScan: int, replacement: Identity, writes: nat): Disk<D, K> {
    var run, cp := Run(w, d.raw, d.checkpoint, maxScan), d.checkpoint;
    var edited := Excised(d.raw, cp.offset, |run|);
    match writes
    case 0 => d
    case 1 => Disk(edited, replacement, cp, true)
    case 2 => Disk(edited, replacement, cp, false)
    case _ => Disk(edited, replacement, cp.(identity := replacement, quarantine := cp.quarantine - Keys(w, run)), true)
  }

  lemma {:induction false} RunStart(raw: Bytes, offset: nat)
    ensures offset <= |raw| ==> RunOf(raw, offset, [], offset)
  {
    if offset <= |raw| {
      assert RecordsAt(raw, offset)[0..] == Records(raw[offset..]);
    }
  }

  lemma {:induction false} ProbeStep<D, K>(w: World<D, K>, raw: Bytes, pos: nat, tried: nat, maxScan: int)
    requires pos < |raw| && tried < maxScan
    ensures var next := LineEnd(raw, pos);
            var line := raw[pos..next];
            ProbeFrom(w, RecordsAt(raw, pos), tried, maxScan) ==
            if Blank(line) then Exhausted(tried)
            else if !w.answer(tried, line).Status? then Failed(tried)
            else if Accepted(w.answer(tried, line)) then Found(tried)
            else ProbeFrom(w, RecordsAt(raw, next), tried + 1, maxScan)
  {
    hide Records;
    RecordsFrom(raw, pos);
    var next := LineEnd(raw, pos);
    var records := RecordsAt(raw, pos);
    assert records[0] == raw[pos..next] && records[1..] == RecordsAt(raw, next);
  }

  lemma {:induction false} ProbeEnds<D, K>(w: World<D, K>, raw: Bytes, pos: nat, tried: nat, maxScan: int)
    requires pos >= |raw| || tried >= maxScan
    ensures ProbeFrom(w, RecordsAt(raw, pos), tried, maxScan) == Exhausted(tried)
  {}

  function Keys<D, K>(w: World<D, K>, records: seq<Bytes>): set<K> {
    set r | r in records :: w.key(r)
  }

  lemma {:induction false} KeysGrow<D, K>(w: World<D, K>, records: seq<Bytes>, i: nat)
    requires i < |records|
    ensures Keys(w, records[..i + 1]) == Keys(w, records[..i]) + {w.key(records[i])}
  {
    assert records[..i + 1] == records[..i] + [records[i]];
  }

  /** The refused records at the head of the queue. */
  function Run<D, K>(w: World<D, K>, raw: Bytes, cp: Checkpoint<D, K>, maxScan: int): seq<Bytes> {
    RecordsAt(raw, cp.offset)[..ProbeFrom(w, RecordsAt(raw, cp.offset), 0, maxScan).refused]
  }

  /** `bad` are the starts of the first records from `offset` on, and `end` is where they end. */
  ghost predicate RunOf(raw: Bytes, offset: nat, bad: seq<nat>, end: nat) {
    && offset <= end <= |raw|
    && |bad| <= |RecordsAt(raw, offset)|
    && Records(raw[end..]) == RecordsAt(raw, offset)[|bad|..]
    && forall i | 0 <= i < |bad| :: StartsAt(raw, bad[i], RecordsAt(raw, offset)[i])
  }

  predicate StartsAt(raw: Bytes, at: nat, record: Bytes) {
    at <= |raw| && raw[at..LineEnd(raw, at)] == record
  }

  lemma {:induction false} RunGrows(raw: Bytes, offset: nat, bad: seq<nat>, pos: nat)
    requires RunOf(raw, offset, bad, pos) && pos < |raw|
    ensures RunOf(raw, offset, bad + [pos], LineEnd(raw, pos))
  {
    var records := RecordsAt(raw, offset);
    var n, next := |bad|, LineEnd(raw, pos);
    RecordsFrom(raw, pos);
    var rest := records[n..];
    assert rest == [raw[pos..next]] + Records(raw[next..]);
    assert n < |records| && records[n] == rest[0] && records[n + 1..] == rest[1..];
  }

  lemma {:induction false} RunIsExcised(raw: Bytes, offset: nat, bad: seq<nat>, end: nat)
    requires RunOf(raw, offset, bad, end)
    ensures raw[..offset] + raw[end..] == Excised(raw, offset, |bad|)
  {
    RecordsCut(raw[end..]);
  }

  // ---------------------------------------------------------------- what it does to the file

  lemma {:induction false} ExcisedTail(raw: Bytes, offset: nat, n: nat)
    requires offset <= |raw| && n <= |RecordsAt(raw, offset)|
    ensures var after := Excised(raw, offset, n);
            && offset <= |after| && after[..offset] == raw[..offset]
            && after[offset..] == Concat(RecordsAt(raw, offset)[n..])
            && Records(after[offset..]) == RecordsAt(raw, offset)[n..]
  {
    var records := RecordsAt(raw, offset);
    RecordsCut(raw[offset..]);
    AppendSlices(raw[..offset], Concat(records[n..]), offset);
    assert forall i | 0 <= i < |records[n..]| :: records[n..][i] == records[n + i];
    CutIsUnique(Concat(records[n..]), records[n..]);
  }

  /** The new file's records are the old ones minus exactly the run, if and only if the offset
    * is the start of a record. */
  lemma {:induction false} ExcisionIsExactIff(raw: Bytes, offset: nat, n: nat)
    requires offset <= |raw| && n < |RecordsAt(raw, offset)|
    ensures Records(Excised(raw, offset, n)) == Records(raw[..offset]) + RecordsAt(raw, offset)[n..]
       <==> Aligned(raw, offset)
    ensures Aligned(raw, offset) ==> Records(raw) == Records(raw[..offset]) + RecordsAt(raw, offset)
  {
    hide Records, Concat;
    var head, tail := raw[..offset], Concat(RecordsAt(raw, offset)[n..]);
    ExcisedTail(raw, offset, n);
    assert Excised(raw, offset, n) == head + tail;
    AppendSlices(head, tail, offset);
    if Aligned(raw, offset) {
      assert raw == head + raw[offset..];
      RecordsAppend(head, tail);
      RecordsAppend(head, raw[offset..]);
    } else {
      assert Records(tail) != [];
      NoRecordsInNothing();
      RecordsMerge(head, tail);
    }
  }

  lemma {:induction false} NoRecordsInNothing()
    ensures Records([]) == []
  {}

  /** A head no longer than the offset is the same bytes after the edit, so the digest check
    * cannot fail; the daemon records a head of at most `HeadBytes`. */
  lemma {:induction false} HeadIsUntouched(raw: Bytes, offset: nat, n: nat, headLen: nat)
    requires headLen <= offset <= |raw| && n <= |RecordsAt(raw, offset)|
    ensures Head(Excised(raw, offset, n), headLen) == Head(raw, headLen)
  {
    ExcisedTail(raw, offset, n);
    var after := Excised(raw, offset, n);
    TakeThenSlice(after, offset, 0, headLen);
    TakeThenSlice(raw, offset, 0, headLen);
  }

  lemma {:induction false} NeverAnInternalError<D, K>(w: World<D, K>, raw: Bytes, cp: Checkpoint<D, K>, maxScan: int, apply: bool)
    requires cp.headLen <= HeadBytes
    ensures Decide(w, raw, cp, maxScan, apply) != HeadWouldChange
  {
    if cp.offset <= |raw| && cp.offset >= HeadBytes {
      var n := ProbeFrom(w, RecordsAt(raw, cp.offset), 0, maxScan).refused;
      HeadIsUntouched(raw, cp.offset, n, cp.headLen);
    }
  }

  /** What an edit does, over whole records: the file is `before + run + first + later`, every
    * record of the run was refused, `first` was accepted, and `before + first + later` is left,
    * with the unchanged offset at `first`. */
  ghost predicate Edit<D, K>(w: World<D, K>, raw: Bytes, after: Bytes, offset: nat,
                                 run: seq<Bytes>, first: Bytes, later: seq<Bytes>)
  {
    && offset <= |raw| && offset <= |after| && after[..offset] == raw[..offset]
    && run != []
    && Records(raw) == Records(raw[..offset]) + run + [first] + later
    && Records(after) == Records(raw[..offset]) + [first] + later
    && Records(after[offset..]) == [first] + later
    && (forall i | 0 <= i < |run| :: Refused(w.answer(i, run[i])))
    && Accepted(w.answer(|run|, first))
    && |raw| == |after| + |Concat(run)|
  }

  lemma {:induction false} AppliedIsAnEdit<D, K>(w: World<D, K>, raw: Bytes, cp: Checkpoint<D, K>, maxScan: int)
    returns (first: Bytes, later: seq<Bytes>)
    requires Aligned(raw, cp.offset)
    requires Decide(w, raw, cp, maxScan, true) == Applied
    ensures var run := Run(w, raw, cp, maxScan);
            Edit(w, raw, Excised(raw, cp.offset, |run|), cp.offset, run, first, later)
    ensures |Run(w, raw, cp, maxScan)| < maxScan
  {
    var offset, records := cp.offset, RecordsAt(raw, cp.offset);
    var n := ProbeFrom(w, records, 0, maxScan).refused;
    first, later := records[n], records[n + 1..];
    RunWasRefused(w, records, maxScan);
    EditOfRecords(raw, offset, n);
  }

  lemma {:induction false} RunWasRefused<D, K>(w: World<D, K>, records: seq<Bytes>, maxScan: int)
    requires ProbeFrom(w, records, 0, maxScan).Found?
    ensures var n := ProbeFrom(w, records, 0, maxScan).refused;
            && (forall i | 0 <= i < n :: Refused(w.answer(i, records[..n][i])))
            && Accepted(w.answer(n, records[n])) && !Blank(records[n]) && n < maxScan
  {
    ProbeMeaning(w, records, 0, maxScan);
    var n := ProbeFrom(w, records, 0, maxScan).refused;
    forall i | 0 <= i < n ensures Refused(w.answer(i, records[..n][i])) {
      assert RefusedAt(w, records, 0, i);
    }
  }

  lemma {:induction false} EditOfRecords(raw: Bytes, offset: nat, n: nat)
    requires offset <= |raw| && Aligned(raw, offset) && n < |RecordsAt(raw, offset)|
    ensures var records := RecordsAt(raw, offset); var after := Excised(raw, offset, n);
            var before, run, first, later := Records(raw[..offset]), records[..n], records[n], records[n + 1..];
            && offset <= |after| && after[..offset] == raw[..offset]
            && Records(raw) == before + run + [first] + later
            && Records(after) == before + [first] + later
            && Records(after[offset..]) == [first] + later
            && |raw| == |after| + |Concat(run)|
  {
    hide Records, RecordsAt, Excised, Aligned;
    var records := RecordsAt(raw, offset);
    ExcisionIsExactIff(raw, offset, n);
    ExcisedTail(raw, offset, n);
    ExcisedSize(raw, offset, n);
    Parted(Records(raw[..offset]), records, n);
  }

  lemma {:induction false} Parted<T>(before: seq<T>, records: seq<T>, n: nat)
    requires n < |records|
    ensures records[n..] == [records[n]] + records[n + 1..]
    ensures before + records == before + records[..n] + [records[n]] + records[n + 1..]
    ensures before + records[n..] == before + [records[n]] + records[n + 1..]
  {}

  lemma {:induction false} ExcisedSize(raw: Bytes, offset: nat, n: nat)
    requires offset <= |raw| && n <= |RecordsAt(raw, offset)|
    ensures |raw| == |Excised(raw, offset, n)| + |Concat(RecordsAt(raw, offset)[..n])|
  {
    hide Records, Concat;
    var records := RecordsAt(raw, offset);
    RecordsCut(raw[offset..]);
    ConcatAppend(records[..n], records[n..]);
    assert records == records[..n] + records[n..];
  }

  /** A collector whose answer depends on the record alone. */
  ghost predicate Steady<D(!new), K(!new)>(w: World<D, K>) {
    forall i: nat, j: nat, r: Bytes :: w.answer(i, r) == w.answer(j, r)
  }

  /** After an edit the daemon is no longer stuck: a second run of the script finds nothing. */
  lemma {:induction false} SecondRunFindsNothing<D(!new), K(!new)>(
      w: World<D, K>, raw: Bytes, cp: Checkpoint<D, K>, cp': Checkpoint<D, K>, maxScan: int, apply: bool)
    requires Steady(w)
    requires Decide(w, raw, cp, maxScan, true) == Applied
    requires cp'.offset == cp.offset && cp'.headLen == cp.headLen && cp'.head == cp.head
    ensures var n := |Run(w, raw, cp, maxScan)|;
            Decide(w, Excised(raw, cp.offset, n), cp', maxScan, apply) == NotStuck
  {
    var records := RecordsAt(raw, cp.offset);
    var n := ProbeFrom(w, records, 0, maxScan).refused;
    var after := Excised(raw, cp.offset, n);
    ExcisedTail(raw, cp.offset, n);
    RunWasRefused(w, records, maxScan);
    var left := RecordsAt(after, cp.offset);
    assert left == records[n..] && left[0] == records[n];
    assert w.answer(0, left[0]) == w.answer(n, records[n]);
    assert ProbeFrom(w, left, 0, maxScan) == Found(0);
  }

  /** The first `n` records are refused, one after another. */
  ghost predicate RefusesFirst<D, K>(w: World<D, K>, records: seq<Bytes>, n: nat, maxScan: int) {
    n <= |records| && (n > 0 ==> n <= maxScan) && forall i | 0 <= i < n :: RefusedAt(w, records, 0, i)
  }

  /** And the next one is offered, and answered like this. */
  ghost predicate ThenAnswers<D, K>(w: World<D, K>, records: seq<Bytes>, n: nat, maxScan: int, a: Answer) {
    && RefusesFirst(w, records, n, maxScan) && n < |records| && n < maxScan && !Blank(records[n])
    && w.answer(n, records[n]) == a
  }

  /** And there is no next one to offer. */
  ghost predicate ThenNothing<D, K>(w: World<D, K>, records: seq<Bytes>, n: nat, maxScan: int) {
    RefusesFirst(w, records, n, maxScan) && (n == |records| || n >= maxScan || Blank(records[n]))
  }

  /** How many are refused first, and what comes then, is one thing only. */
  lemma {:induction false} RefusesSoMany<D, K>(w: World<D, K>, records: seq<Bytes>, maxScan: int)
    ensures var p := ProbeFrom(w, records, 0, maxScan);
            && RefusesFirst(w, records, p.refused, maxScan)
            && (p.Exhausted? <==> ThenNothing(w, records, p.refused, maxScan))
            && (p.Found? ==> ThenAnswers(w, records, p.refused, maxScan, w.answer(p.refused, records[p.refused])) && Accepted(w.answer(p.refused, records[p.refused])))
            && (p.Failed? ==> ThenAnswers(w, records, p.refused, maxScan, w.answer(p.refused, records[p.refused])) && !w.answer(p.refused, records[p.refused]).Status?)
    ensures forall n: nat, a: Answer :: ThenAnswers(w, records, n, maxScan, a) && !Refused(a) ==> n == ProbeFrom(w, records, 0, maxScan).refused
    ensures forall n: nat :: ThenNothing(w, records, n, maxScan) ==> n == ProbeFrom(w, records, 0, maxScan).refused
  {
    var p := ProbeFrom(w, records, 0, maxScan);
    ProbeMeaning(w, records, 0, maxScan);
    forall n: nat, a: Answer | ThenAnswers(w, records, n, maxScan, a) && !Refused(a) ensures n == p.refused {
      assert !RefusedAt(w, records, 0, n);
      assert p.refused < maxScan ==> !RefusedAt(w, records, 0, p.refused);
    }
    forall n: nat | ThenNothing(w, records, n, maxScan) ensures n == p.refused {
      assert n < maxScan ==> !RefusedAt(w, records, 0, n);
      assert p.refused < maxScan ==> !RefusedAt(w, records, 0, p.refused);
    }
  }

  /** What the script says, and when, told by the answers of the collector. */
  lemma {:induction false} OutcomeIff<D, K>(w: World<D, K>, raw: Bytes, cp: Checkpoint<D, K>, maxScan: int, apply: bool)
    requires cp.headLen <= HeadBytes
    ensures var o, rs := Decide(w, raw, cp, maxScan, apply), RecordsAt(raw, cp.offset);
            var known := w.digest(Head(raw, cp.headLen)) == cp.head;
            && (o == HeadMismatch <==> !known)
            && (o == InsideHead <==> known && cp.offset < 4096)
            && (known && cp.offset >= 4096 ==>
                  && (o == ProbeFailed <==> exists n: nat, a: Answer :: ThenAnswers(w, rs, n, maxScan, a) && !a.Status?)
                  && (o == NotStuck <==> ThenNothing(w, rs, 0, maxScan) || exists a: Answer :: ThenAnswers(w, rs, 0, maxScan, a) && Accepted(a))
                  && (o == NoneAccepted <==> exists n: nat :: n > 0 && ThenNothing(w, rs, n, maxScan))
                  && (o == DryRun || o == Applied <==> exists n: nat, a: Answer :: n > 0 && ThenAnswers(w, rs, n, maxScan, a) && Accepted(a)))
            && (o == DryRun ==> !apply) && (o == Applied ==> apply)
  {
    hide Head, ProbeFrom, RefusesFirst, RecordsAt, Excised;
    NeverAnInternalError(w, raw, cp, maxScan, apply);
    RefusesSoMany(w, RecordsAt(raw, cp.offset), maxScan);
  }

  /** What a finished edit leaves of the checkpoint: the offset, the head and the new file's identity, and of
    * the quarantine every entry but those of the records removed, with its count. */
  lemma {:induction false} QuarantineForgetsTheRun<D, K>(w: World<D, K>, d: Disk<D, K>, maxScan: int, replacement: Identity, key: K)
    requires Decide(w, d.raw, d.checkpoint, maxScan, true) == Applied
    ensures var run := Run(w, d.raw, d.checkpoint, maxScan);
            var was, now := d.checkpoint.quarantine, Stage(w, d, maxScan, replacement, 3).checkpoint;
            && now.offset == d.checkpoint.offset && now.headLen == d.checkpoint.headLen && now.head == d.checkpoint.head
            && now.identity == replacement
            && (key in now.quarantine <==> key in was && forall i | 0 <= i < |run| :: w.key(run[i]) != key)
            && (key in now.quarantine ==> now.quarantine[key] == was[key])
  {
    KeysAreOf(w, Run(w, d.raw, d.checkpoint, maxScan), key);
  }

  lemma {:induction false} KeysAreOf<D, K>(w: World<D, K>, records: seq<Bytes>, key: K)
    ensures key in Keys(w, records) <==> exists i :: 0 <= i < |records| && w.key(records[i]) == key
  {
    if i :| 0 <= i < |records| && w.key(records[i]) == key { assert records[i] in records; }
  }

  /** A spool that has only grown is the same spool, and one that was cut short is started over; an id that
    * is not known never tells two files apart. */
  lemma {:induction false} DaemonGoesOn<D, K>(w: World<D, K>, d: Disk<D, K>, more: Bytes)
    requires d.readable
    ensures d.checkpoint.offset <= |d.raw| && SameFile(w, d.raw, d.identity, d.checkpoint) ==>
              Offered(w, d.(raw := d.raw + more)) == Some(RecordsAt(d.raw + more, d.checkpoint.offset))
    ensures |d.raw| < d.checkpoint.offset ==> Offered(w, d) == Some(Records(d.raw))
    ensures forall x: Identity :: Agree(Identity(None, None), x) && Agree(x, Identity(None, None))
  {
    hide Records;
    assert d.checkpoint.headLen <= |d.raw| ==> (d.raw + more)[..d.checkpoint.headLen] == d.raw[..d.checkpoint.headLen];
  }

  /** What the daemon offers next, wherever the edit was killed: before it, the run again; after it, the
    * accepted record; with an unreadable checkpoint, nothing. Between the two writes it offers the
    * accepted record if and only if the recorded identity agrees with the new file's; otherwise it
    * starts over and sends everything delivered before a second time. */
  lemma {:induction false} KilledEditOffers<D, K>(w: World<D, K>, d: Disk<D, K>, maxScan: int, replacement: Identity, writes: nat)
    requires d.readable && d.checkpoint.headLen <= HeadBytes && Agree(d.checkpoint.identity, d.identity)
    requires Aligned(d.raw, d.checkpoint.offset) && Decide(w, d.raw, d.checkpoint, maxScan, true) == Applied
    ensures var run := Run(w, d.raw, d.checkpoint, maxScan);
            var left := RecordsAt(d.raw, d.checkpoint.offset)[|run|..];
            var offered := Offered(w, Stage(w, d, maxScan, replacement, writes));
            match writes
            case 0 => offered == Some(run + left)
            case 1 => && offered == Some(if Agree(d.checkpoint.identity, replacement) then left
                                         else Records(d.raw[..d.checkpoint.offset]) + left)
                      && (offered == Some(left) <==> Agree(d.checkpoint.identity, replacement))
            case 2 => offered == None
            case _ => offered == Some(left)
  {
    hide Records, Excised, Head, ProbeFrom;
    var cp, raw := d.checkpoint, d.raw;
    var records, n := RecordsAt(raw, cp.offset), ProbeFrom(w, RecordsAt(raw, cp.offset), 0, maxScan).refused;
    ProbeWithin(w, records, maxScan);
    ExcisionIsExactIff(raw, cp.offset, n);
    ExcisedTail(raw, cp.offset, n);
    HeadIsUntouched(raw, cp.offset, n, cp.headLen);
    assert records == records[..n] + records[n..];
    SomethingBefore(raw, cp.offset);
    assert |Records(raw[..cp.offset]) + records[n..]| > |records[n..]|;
  }

  lemma {:induction false} ProbeWithin<D, K>(w: World<D, K>, records: seq<Bytes>, maxScan: int)
    ensures var p := ProbeFrom(w, records, 0, maxScan); p.Found? ==> p.refused < |records|
  {}

  lemma {:induction false} SomethingBefore(raw: Bytes, offset: nat)
    requires HeadBytes <= offset <= |raw|
    ensures Records(raw[..offset]) != []
  {}

  // ---------- Which refusals are removed ----------

  /** The statuses the collector means for good. */
  predicate Permanent(a: Answer) { a.Status? && (a.code == 400 || a.code == 413 || a.code == 422) }

  /** Refused for now: any other status outside 2xx. */
  predicate Transient(a: Answer) { Refused(a) && !Permanent(a) }

  /** A line of its own that is offered. */
  predicate Offerable(r: Bytes) { IsRecord(r) && Ended(r) && !Blank(r) }

  ghost predicate RefusesSome<D, K>(w: World<D, K>, at: nat) {
    exists r: Bytes :: Offerable(r) && Refused(w.answer(at, r))
  }

  ghost predicate PutsOffSome<D, K>(w: World<D, K>, at: nat) {
    exists r: Bytes :: Offerable(r) && Transient(w.answer(at, r))
  }

  ghost predicate AcceptsSome<D, K>(w: World<D, K>, at: nat) {
    exists r: Bytes :: IsRecord(r) && !Blank(r) && Accepted(w.answer(at, r))
  }

  /** Attempt by attempt: `n` refusals and an acceptance within the limit, one refusal among them only
    * for now. */
  ghost predicate PutsOffWithin<D, K>(w: World<D, K>, maxScan: int, i: nat, n: nat) {
    i < n < maxScan && PutsOffSome(w, i) && (forall j: nat | j < n :: RefusesSome(w, j)) && AcceptsSome(w, n)
  }

  /** Nothing is removed but what was refused for good. */
  ghost predicate RemovesPermanentOnly<D, K>(w: World<D, K>, raw: Bytes, cp: Checkpoint<D, K>, maxScan: int) {
    Decide(w, raw, cp, maxScan, true) == Applied ==>
      forall i: nat | i < |Run(w, raw, cp, maxScan)| :: Permanent(w.answer(i, Run(w, raw, cp, maxScan)[i]))
  }

  /** Over the collector: for every spool and checkpoint the script removes permanent refusals only, if
    * and only if the collector never puts a record off, within the scan limit, on the way to accepting
    * one. */
  lemma {:induction false} RemovesPermanentOnlyIff<D(!new), K(!new)>(w: World<D, K>, maxScan: int)
    ensures (forall raw: Bytes, cp: Checkpoint<D, K> :: RemovesPermanentOnly(w, raw, cp, maxScan)) <==>
            !exists i: nat, n: nat :: PutsOffWithin(w, maxScan, i, n)
  {
    hide RemovesPermanentOnly, PutsOffWithin;
    forall i: nat, n: nat | PutsOffWithin(w, maxScan, i, n)
      ensures exists raw: Bytes, cp: Checkpoint<D, K> :: !RemovesPermanentOnly(w, raw, cp, maxScan)
    {
      var raw, cp := RemovesATransient(w, maxScan, i, n);
    }
    forall raw: Bytes, cp: Checkpoint<D, K> | !RemovesPermanentOnly(w, raw, cp, maxScan)
      ensures exists i: nat, n: nat :: PutsOffWithin(w, maxScan, i, n)
    {
      var i, n := TransientIsPutOff(w, raw, cp, maxScan);
    }
  }

  lemma {:induction false} TransientIsPutOff<D, K>(w: World<D, K>, raw: Bytes, cp: Checkpoint<D, K>, maxScan: int)
    returns (i: nat, n: nat)
    requires !RemovesPermanentOnly(w, raw, cp, maxScan)
    ensures PutsOffWithin(w, maxScan, i, n)
  {
    var records := RecordsAt(raw, cp.offset);
    n := ProbeFrom(w, records, 0, maxScan).refused;
    i :| i < n && !Permanent(w.answer(i, Run(w, raw, cp, maxScan)[i]));
    RecordsCut(raw[cp.offset..]);
    ProbeMeaning(w, records, 0, maxScan);
    RunWasRefused(w, records, maxScan);
    forall j: nat | j < n ensures Offerable(records[j]) && Refused(w.answer(j, records[j])) && RefusesSome(w, j) {
      assert RefusedAt(w, records, 0, j);
    }
    assert Run(w, raw, cp, maxScan)[i] == records[i];
    assert Offerable(records[i]) && Transient(w.answer(i, records[i]));
    assert IsRecord(records[n]) && AcceptsSome(w, n);
  }

  /** A run of refusals with the one at `i` only for now. */
  lemma {:induction false} RunOfRefusals<D, K>(w: World<D, K>, i: nat, n: nat) returns (rs: seq<Bytes>)
    requires (i < n ==> PutsOffSome(w, i)) && forall j: nat | j < n :: RefusesSome(w, j)
    ensures |rs| == n && (i < n ==> Transient(w.answer(i, rs[i])))
    ensures forall j: nat | j < n :: Offerable(rs[j]) && Refused(w.answer(j, rs[j]))
  {
    if n == 0 {
      rs := [];
    } else {
      var front := RunOfRefusals(w, i, n - 1);
      assert RefusesSome(w, n - 1);
      var r: Bytes;
      if i == n - 1 {
        r :| Offerable(r) && Transient(w.answer(i, r));
      } else {
        r :| Offerable(r) && Refused(w.answer(n - 1, r));
      }
      rs := front + [r];
    }
  }

  lemma {:induction false} ProbeFinds<D, K>(w: World<D, K>, rs: seq<Bytes>, good: Bytes, tried: nat, maxScan: int)
    requires forall j: nat | j < |rs| :: !Blank(rs[j]) && Refused(w.answer(tried + j, rs[j]))
    requires !Blank(good) && Accepted(w.answer(tried + |rs|, good)) && tried + |rs| < maxScan
    ensures ProbeFrom(w, rs + [good], tried, maxScan) == Found(tried + |rs|)
    decreases |rs|
  {
    var all := rs + [good];
    if rs == [] {
      assert all[0] == good;
    } else {
      assert all[0] == rs[0] && all[1..] == rs[1..] + [good];
      assert Refused(w.answer(tried + 0, rs[0]));
      forall j: nat | j < |rs[1..]| ensures !Blank(rs[1..][j]) && Refused(w.answer(tried + 1 + j, rs[1..][j])) {
        assert rs[1..][j] == rs[j + 1] && Refused(w.answer(tried + (j + 1), rs[j + 1]));
      }
      ProbeFinds(w, rs[1..], good, tried + 1, maxScan);
    }
  }

  /** The spool that shows it: the records one after another behind `HeadBytes` of blank lines. */
  lemma {:induction false} RemovesATransient<D, K>(w: World<D, K>, maxScan: int, i: nat, n: nat)
    returns (raw: Bytes, cp: Checkpoint<D, K>)
    requires PutsOffWithin(w, maxScan, i, n)
    ensures !RemovesPermanentOnly(w, raw, cp, maxScan)
  {
    var rs := RunOfRefusals(w, i, n);
    var good: Bytes :| IsRecord(good) && !Blank(good) && Accepted(w.answer(n, good));
    raw, cp := SpoolOf(w, rs + [good]);
    forall j | 0 <= j < |rs + [good]| ensures IsRecord((rs + [good])[j]) {
      if j < n { assert Offerable(rs[j]); }
    }
    SpoolOfRecords(w, rs + [good], raw, cp);
    ProbeFinds(w, rs, good, 0, maxScan);
    assert Run(w, raw, cp, maxScan)[i] == rs[i];
  }

  lemma {:induction false} SpoolOf<D, K>(w: World<D, K>, records: seq<Bytes>) returns (raw: Bytes, cp: Checkpoint<D, K>)
    ensures raw == seq<Utf8.Byte>(HeadBytes, k => Newline) + Concat(records)
    ensures cp == Checkpoint(HeadBytes, 0, w.digest([]), Identity(None, None), map[])
  {
    raw := seq<Utf8.Byte>(HeadBytes, k => Newline) + Concat(records);
    cp := Checkpoint(HeadBytes, 0, w.digest([]), Identity(None, None), map[]);
  }

  lemma {:induction false} SpoolOfRecords<D, K>(w: World<D, K>, records: seq<Bytes>, raw: Bytes, cp: Checkpoint<D, K>)
    requires raw == seq<Utf8.Byte>(HeadBytes, k => Newline) + Concat(records)
    requires cp == Checkpoint(HeadBytes, 0, w.digest([]), Identity(None, None), map[])
    requires (forall j | 0 <= j < |records| :: IsRecord(records[j])) && forall j | 0 <= j < |records| - 1 :: Ended(records[j])
    ensures RecordsAt(raw, cp.offset) == records
    ensures w.digest(Head(raw, cp.headLen)) == cp.head
    ensures forall n: nat :: w.digest(Head(Excised(raw, cp.offset, n), cp.headLen)) == cp.head
  {
    hide Records;
    AppendSlices(seq<Utf8.Byte>(HeadBytes, k => Newline), Concat(records), HeadBytes);
    assert raw[HeadBytes..] == Concat(records);
    CutIsUnique(Concat(records), records);
    forall bytes: Bytes ensures Head(bytes, 0) == [] {}
  }

  /** With a collector that answers by the record alone and accepts some record: exactly when it answers
    * no record with a status outside 2xx and those three. */
  lemma {:induction false} SteadyCollectorIff<D(!new), K(!new)>(w: World<D, K>, maxScan: int)
    requires Steady(w) && maxScan > 1 && AcceptsSome(w, 0)
    ensures (forall raw: Bytes, cp: Checkpoint<D, K> :: RemovesPermanentOnly(w, raw, cp, maxScan)) <==> !PutsOffSome(w, 0)
  {
    hide RemovesPermanentOnly;
    RemovesPermanentOnlyIff(w, maxScan);
    var good: Bytes :| IsRecord(good) && !Blank(good) && Accepted(w.answer(0, good));
    assert w.answer(0, good) == w.answer(1, good);
    if PutsOffSome(w, 0) {
      assert RefusesSome(w, 0);
      assert PutsOffWithin(w, maxScan, 0, 1);
    }
    forall i: nat, n: nat | PutsOffWithin(w, maxScan, i, n) ensures PutsOffSome(w, 0) {
      var r: Bytes :| Offerable(r) && Transient(w.answer(i, r));
      assert w.answer(i, r) == w.answer(0, r);
    }
  }

  /** A witness: a collector that is briefly unavailable for one record has that record cut out. */
  lemma {:induction false} TransientRefusalIsExcised<D, K>(w: World<D, K>, raw: Bytes, cp: Checkpoint<D, K>, maxScan: int)
    requires HeadBytes <= cp.offset && Aligned(raw, cp.offset) && maxScan > 1 && cp.headLen <= HeadBytes
    requires w.digest(Head(raw, cp.headLen)) == cp.head
    requires var rs := RecordsAt(raw, cp.offset);
             && |rs| > 1 && !Blank(rs[0]) && !Blank(rs[1])
             && w.answer(0, rs[0]) == Status(503) && w.answer(1, rs[1]) == Status(200)
    ensures Decide(w, raw, cp, maxScan, true) == Applied
    ensures Run(w, raw, cp, maxScan) == [RecordsAt(raw, cp.offset)[0]]
  {
    var rs := RecordsAt(raw, cp.offset);
    assert rs[1..][0] == rs[1];
    assert ProbeFrom(w, rs[1..], 1, maxScan) == Found(1);
    assert ProbeFrom(w, rs, 0, maxScan) == Found(1);
    NeverAnInternalError(w, raw, cp, maxScan, true);
  }
}
