/** The frames of a streamed completion and the protocol that settles them
  * (crates/governance-redact/src/sse/mod.rs). Every line of the stream becomes a frame; each field a
  * frame contributes to has its own redactor; a frame is ready once every contribution it made has been
  * resolved. JSON is foreign code: `classify` parses a line and `render` writes a frame back. */
module SseFrames {
  import opened Common
  import opened RedactEngine
  import opened SseChunk
  import F = FieldRedactor

  datatype Class = Passthrough | Unparseable | Data(chunk: Chunk)

  datatype Format = Format(classify: Text -> Class, render: (Text, Chunk) -> Text)

  /** `waiting` counts the resolutions the frame waits for, one per contribution. */
  datatype Frame = Frame(line: Text, data: bool, chunk: Chunk, waiting: nat)

  // ---------- The protocol ----------

  datatype State = State(frames: seq<Frame>, fields: map<Key, F.Field>, unparsed: nat)

  const Start := State([], map[], 0)

  datatype Outcome = Going(st: State) | Stopped(entities: set<Entity>) | Failed

  function FieldAt(st: State, key: Key): F.Field {
    if key in st.fields then st.fields[key] else F.Empty
  }

  /** One listing in a release: the text is written, and the frame waits for one resolution less. */
  function SettleFrame(frames: seq<Frame>, id: nat, key: Key, text: Text): (after: seq<Frame>)
    ensures |after| == |frames|
  {
    if id < |frames| then
      var f := frames[id];
      frames[id := f.(chunk := SetDeltaContent(f.chunk, key, text), waiting := if f.waiting > 0 then f.waiting - 1 else 0)]
    else frames
  }

  /** The first listing of a batch carries its text, the others are blanked. */
  function Batch(text: Text, n: nat): seq<Text> {
    seq(n, i => if i == 0 then text else [])
  }

  function Apply(frames: seq<Frame>, key: Key, ids: seq<nat>, texts: seq<Text>): (after: seq<Frame>)
    ensures |after| == |frames|
    decreases |ids|
  {
    if ids == [] || texts == [] then frames
    else Apply(SettleFrame(frames, ids[0], key, texts[0]), key, ids[1..], texts[1..])
  }

  /** What a redactor's answer does to the frames. */
  function Absorb(st: State, key: Key, step: F.Stepped): (r: Outcome)
    ensures r.Going? ==> |r.st.frames| == |st.frames|
  {
    var fields := st.fields[key := step.field];
    match step.push
    case None => Failed
    case Some(BlockedBy(entities)) => Stopped(entities)
    case Some(Nothing) => Going(st.(fields := fields))
    case Some(Release(text, ids)) =>
      Going(st.(fields := fields, frames := Apply(st.frames, key, ids, Batch(text, |ids|))))
  }

  /** One field of the last frame is handed to its redactor. */
  function Contribute(sc: Scanner, window: nat, st: State, c: Contribution): Outcome
    requires st.frames != []
  {
    Absorb(st, c.key, F.Advance(sc, window, F.Pushed(FieldAt(st, c.key), |st.frames| - 1, c.text), false))
  }

  function ContributeAll(sc: Scanner, window: nat, st: State, cs: seq<Contribution>): Outcome
    requires st.frames != []
    decreases |cs|
  {
    if cs == [] then Going(st)
    else
      var next := Contribute(sc, window, st, cs[0]);
      if next.Going? then ContributeAll(sc, window, next.st, cs[1..]) else next
  }

  function AddFrame(st: State, f: Frame): State { st.(frames := st.frames + [f]) }

  function RawFrame(line: Text): Frame { Frame(line, false, [], 0) }

  function DataFrame(line: Text, chunk: Chunk): Frame { Frame(line, true, chunk, |DeltaContents(chunk)|) }

  function Ingest(fmt: Format, sc: Scanner, window: nat, st: State, line: Text): Outcome {
    match fmt.classify(line)
    case Passthrough => Going(AddFrame(st, RawFrame(line)))
    case Unparseable =>
      (match sc.scan(line)
       case None => Failed
       case Some(Blocked(entities)) => Stopped(entities)
       case Some(v) => Going(AddFrame(st, RawFrame(TextOf(v, line))).(unparsed := st.unparsed + CountOf(v))))
    case Data(chunk) => ContributeAll(sc, window, AddFrame(st, DataFrame(line, chunk)), DeltaContents(chunk))
  }

  function IngestAll(fmt: Format, sc: Scanner, window: nat, st: State, lines: seq<Text>): Outcome
    decreases |lines|
  {
    if lines == [] then Going(st)
    else
      var next := Ingest(fmt, sc, window, st, lines[0]);
      if next.Going? then IngestAll(fmt, sc, window, next.st, lines[1..]) else next
  }

  /** End of stream for one key: its redactor is flushed until it has nothing more. */
  function FlushKey(sc: Scanner, window: nat, st: State, key: Key): Outcome
    decreases |FieldAt(st, key).pending|
  {
    var step := F.Advance(sc, window, FieldAt(st, key), true);
    var next := Absorb(st, key, step);
    if next.Going? && step.push.value.Release? then FlushKey(sc, window, next.st, key) else next
  }

  function FlushAll(sc: Scanner, window: nat, st: State, keys: seq<Key>): Outcome
    decreases |keys|
  {
    if keys == [] then Going(st)
    else
      var next := FlushKey(sc, window, st, keys[0]);
      if next.Going? then FlushAll(sc, window, next.st, keys[1..]) else next
  }

  // ---------- Debts: contributions handed over and not yet resolved ----------

  datatype Debt = Debt(frame: nat, key: Key, text: Text)

  /** What the key's redactor holds. */
  function Pieces(ds: seq<Debt>, key: Key): seq<F.Piece> {
    if ds == [] then []
    else (if ds[0].key == key then [F.Piece(ds[0].frame, ds[0].text)] else []) + Pieces(ds[1..], key)
  }

  /** What the frame waits for. */
  function Count(ds: seq<Debt>, id: nat): nat {
    if ds == [] then 0 else (if ds[0].frame == id then 1 else 0) + Count(ds[1..], id)
  }

  /** Without the key's first debt. */
  function Paid(ds: seq<Debt>, key: Key): seq<Debt> {
    if ds == [] then [] else if ds[0].key == key then ds[1..] else [ds[0]] + Paid(ds[1..], key)
  }

  function PaidTimes(ds: seq<Debt>, key: Key, n: nat): seq<Debt>
    decreases n
  {
    if n == 0 then ds else PaidTimes(Paid(ds, key), key, n - 1)
  }

  ghost predicate Owed(ds: seq<Debt>, id: nat, key: Key) {
    exists d :: d in ds && d.frame == id && d.key == key
  }

  lemma {:induction false} PiecesAppend(a: seq<Debt>, b: seq<Debt>, key: Key)
    ensures Pieces(a + b, key) == Pieces(a, key) + Pieces(b, key)
  {
    if a == [] {
      assert a + b == b;
    } else {
      assert (a + b)[1..] == a[1..] + b;
      PiecesAppend(a[1..], b, key);
    }
  }

  lemma {:induction false} PiecesSnoc(ds: seq<Debt>, d: Debt, key: Key)
    ensures Pieces(ds + [d], key) == Pieces(ds, key) + (if d.key == key then [F.Piece(d.frame, d.text)] else [])
  {
    PiecesAppend(ds, [d], key);
    assert [d][1..] == [] && Pieces([], key) == [];
    assert Pieces([d], key) == if d.key == key then [F.Piece(d.frame, d.text)] else [];
  }

  lemma {:induction false} CountAppend(a: seq<Debt>, b: seq<Debt>, id: nat)
    ensures Count(a + b, id) == Count(a, id) + Count(b, id)
  {
    if a == [] {
      assert a + b == b;
    } else {
      assert (a + b)[1..] == a[1..] + b;
      CountAppend(a[1..], b, id);
    }
  }

  lemma {:induction false} CountZeroIff(ds: seq<Debt>, id: nat)
    ensures Count(ds, id) == 0 <==> forall d | d in ds :: d.frame != id
  {
    if ds != [] {
      CountZeroIff(ds[1..], id);
      assert ds == [ds[0]] + ds[1..];
    }
  }

  lemma {:induction false} PaidPieces(ds: seq<Debt>, key: Key, other: Key)
    requires Pieces(ds, key) != []
    ensures Pieces(Paid(ds, key), other) == if other == key then Pieces(ds, key)[1..] else Pieces(ds, other)
  {
    if ds[0].key != key {
      PaidPieces(ds[1..], key, other);
      var paid := Paid(ds, key);
      assert paid[0] == ds[0] && paid[1..] == Paid(ds[1..], key);
    }
  }

  lemma {:induction false} PaidCount(ds: seq<Debt>, key: Key, id: nat)
    requires Pieces(ds, key) != []
    ensures var head := Pieces(ds, key)[0].frame;
            && Count(ds, head) > 0
            && Count(Paid(ds, key), id) == Count(ds, id) - (if id == head then 1 else 0)
  {
    if ds[0].key != key {
      PaidCount(ds[1..], key, id);
      var paid := Paid(ds, key);
      assert paid[0] == ds[0] && paid[1..] == Paid(ds[1..], key);
    }
  }

  lemma {:induction false} PaidAppend(a: seq<Debt>, b: seq<Debt>, key: Key)
    requires Pieces(a, key) != []
    ensures Paid(a + b, key) == Paid(a, key) + b
  {
    assert (a + b)[0] == a[0] && (a + b)[1..] == a[1..] + b;
    if a[0].key != key { PaidAppend(a[1..], b, key); }
  }

  /** Paying removes one debt, of the head's frame and the key. */
  lemma {:induction false} PaidMembers(ds: seq<Debt>, key: Key, d: Debt)
    requires Pieces(ds, key) != []
    ensures d in Paid(ds, key) ==> d in ds
    ensures d in ds && (d.key != key || d.frame != Pieces(ds, key)[0].frame) ==> d in Paid(ds, key)
  {
    assert ds == [ds[0]] + ds[1..];
    if ds[0].key != key { PaidMembers(ds[1..], key, d); }
  }

  lemma {:induction false} HeadIsOwed(ds: seq<Debt>, key: Key)
    requires Pieces(ds, key) != []
    ensures Owed(ds, Pieces(ds, key)[0].frame, key)
  {
    if ds[0].key == key {
      assert ds[0] in ds;
    } else {
      HeadIsOwed(ds[1..], key);
      var d :| d in ds[1..] && d.frame == Pieces(ds, key)[0].frame && d.key == key;
      assert d in ds;
    }
  }

  // ---------- The books ----------

  /** Same frame, whatever its fields now say; a frame that waits for nothing does not change. */
  ghost predicate SameFrame(f: Frame, g: Frame) {
    && f.line == g.line && f.data == g.data && Evolves(Slots(f.chunk), Slots(g.chunk))
    && (f.waiting == 0 ==> f == g)
  }

  ghost predicate Still(a: seq<Frame>, b: seq<Frame>) {
    |a| == |b| && forall i | 0 <= i < |a| :: SameFrame(a[i], b[i])
  }

  lemma {:induction false} SameFrameTwice(f: Frame, g: Frame, h: Frame)
    requires SameFrame(f, g) && SameFrame(g, h)
    ensures SameFrame(f, h)
  {
    EvolvesTwice(Slots(f.chunk), Slots(g.chunk), Slots(h.chunk));
  }

  lemma {:induction false} StillTwice(a: seq<Frame>, b: seq<Frame>, c: seq<Frame>)
    requires Still(a, b) && Still(b, c)
    ensures Still(a, c)
  {
    forall i | 0 <= i < |a| ensures SameFrame(a[i], c[i]) {
      assert SameFrame(a[i], b[i]) && SameFrame(b[i], c[i]);
      SameFrameTwice(a[i], b[i], c[i]);
    }
  }

  lemma {:induction false} Itself(f: Frame)
    ensures SameFrame(f, f)
  {}

  /** A field that can be written and is not is owed for. */
  ghost predicate Accounted(f: Frame, id: nat, ds: seq<Debt>) {
    forall s | s in Slots(f.chunk) && s.reachable && !s.value.written :: Owed(ds, id, s.key)
  }

  ghost predicate Named(frames: seq<Frame>, d: Debt) {
    d.frame < |frames| && Names(Slots(frames[d.frame].chunk), d.key)
  }

  ghost predicate Books(frames: seq<Frame>, ds: seq<Debt>) {
    && (forall i | 0 <= i < |frames| :: frames[i].waiting == Count(ds, i))
    && (forall i | 0 <= i < |frames| :: Accounted(frames[i], i, ds))
    && forall d | d in ds :: Named(frames, d)
  }

  lemma {:induction false} SettledFrame(f: Frame, key: Key, text: Text)
    ensures Evolves(Slots(f.chunk), Slots(SetDeltaContent(f.chunk, key, text)))
    ensures forall s | s in Slots(SetDeltaContent(f.chunk, key, text)) && s.reachable && !s.value.written ::
              s.key != key && s in Slots(f.chunk)
  {
    WriteReachesItsField(f.chunk, key, text);
    WriteEvolves(Slots(f.chunk), key, text);
    var before, after := Slots(f.chunk), Written(Slots(f.chunk), key, text);
    forall s | s in after && s.reachable && !s.value.written ensures s.key != key && s in before {
      var i :| 0 <= i < |after| && after[i] == s;
      assert after[i] == Write(before[i], key, text);
      assert before[i] in before;
    }
  }

  lemma {:induction false} SettleKeepsStill(frames: seq<Frame>, id: nat, key: Key, text: Text)
    requires id < |frames| && frames[id].waiting > 0
    ensures Still(frames, SettleFrame(frames, id, key, text))
  {
    SettledFrame(frames[id], key, text);
    var after := SettleFrame(frames, id, key, text);
    forall i | 0 <= i < |frames| ensures SameFrame(frames[i], after[i]) {
      if i != id { Itself(frames[i]); }
    }
  }

  /** Settling the key's first debt keeps the books. */
  lemma {:induction false} HeadPaid(frames: seq<Frame>, ds: seq<Debt>, key: Key, text: Text)
    requires Books(frames, ds) && Pieces(ds, key) != []
    ensures var id := Pieces(ds, key)[0].frame;
            && id < |frames| && frames[id].waiting > 0
            && Books(SettleFrame(frames, id, key, text), Paid(ds, key))
            && Still(frames, SettleFrame(frames, id, key, text))
  {
    hide Evolves, Names;
    var id, paid := Pieces(ds, key)[0].frame, Paid(ds, key);
    HeadIsOwed(ds, key);
    var head :| head in ds && head.frame == id && head.key == key;
    assert Named(frames, head);
    PaidCount(ds, key, id);
    var after := SettleFrame(frames, id, key, text);
    SettleKeepsStill(frames, id, key, text);
    SettledFrame(frames[id], key, text);
    forall i | 0 <= i < |after| ensures after[i].waiting == Count(paid, i) && Accounted(after[i], i, paid) {
      PaidCount(ds, key, i);
      assert Accounted(frames[i], i, ds);
      forall s | s in Slots(after[i].chunk) && s.reachable && !s.value.written ensures Owed(paid, i, s.key) {
        assert Owed(ds, i, s.key);
        var d :| d in ds && d.frame == i && d.key == s.key;
        PaidMembers(ds, key, d);
      }
    }
    forall d | d in paid ensures Named(after, d) {
      PaidMembers(ds, key, d);
      assert Named(frames, d) && SameFrame(frames[d.frame], after[d.frame]);
      EvolutionKeepsNames(Slots(frames[d.frame].chunk), Slots(after[d.frame].chunk), d.key);
    }
  }

  lemma {:induction false} PiecesLead(base: seq<Debt>, todo: seq<Debt>, key: Key)
    requires Pieces(base, key) != []
    ensures Pieces(base + todo, key) != [] && Pieces(base + todo, key)[0] == Pieces(base, key)[0]
  {
    PiecesAppend(base, todo, key);
  }

  /** A whole release: the first `n` debts of the key are paid, and no others. */
  lemma {:induction false} ReleasePaid(frames: seq<Frame>, base: seq<Debt>, todo: seq<Debt>, key: Key, n: nat, texts: seq<Text>)
    requires Books(frames, base + todo) && n == |texts| <= |Pieces(base, key)|
    ensures var after := Apply(frames, key, F.FrameIds(Pieces(base, key)[..n]), texts);
            && Books(after, PaidTimes(base, key, n) + todo)
            && Still(frames, after)
    ensures Pieces(PaidTimes(base, key, n), key) == Pieces(base, key)[n..]
    decreases n
  {
    hide Books, SameFrame, Paid, Pieces;
    var q := Pieces(base, key);
    if n == 0 {
      assert q[0..] == q;
      forall i | 0 <= i < |frames| ensures SameFrame(frames[i], frames[i]) { Itself(frames[i]); }
    } else {
      PiecesLead(base, todo, key);
      PaidAppend(base, todo, key);
      HeadPaid(frames, base + todo, key, texts[0]);
      PaidPieces(base, key, key);
      var next := SettleFrame(frames, q[0].frame, key, texts[0]);
      ReleasePaid(next, Paid(base, key), todo, key, n - 1, texts[1..]);
      var ids := F.FrameIds(q[..n]);
      assert ids[0] == q[0].frame && ids[1..] == F.FrameIds(q[1..][..n - 1]);
      assert q[1..][n - 1..] == q[n..];
      StillTwice(frames, next, Apply(next, key, ids[1..], texts[1..]));
    }
  }

  lemma {:induction false} PaidTimesOther(ds: seq<Debt>, key: Key, n: nat, other: Key)
    requires n <= |Pieces(ds, key)| && other != key
    ensures Pieces(PaidTimes(ds, key, n), other) == Pieces(ds, other)
    decreases n
  {
    hide Pieces, Paid;
    if n > 0 {
      PaidPieces(ds, key, key);
      PaidPieces(ds, key, other);
      PaidTimesOther(Paid(ds, key), key, n - 1, other);
    }
  }

  // ---------- What the frames say for a key ----------

  function SaidBy(frames: seq<Frame>, key: Key): Text {
    if frames == [] then [] else SaidIn(Slots(frames[0].chunk), key) + SaidBy(frames[1..], key)
  }

  ghost predicate ClearFrames(frames: seq<Frame>, key: Key) {
    forall i | 0 <= i < |frames| :: Clear(Slots(frames[i].chunk), key)
  }

  predicate Rising(q: seq<F.Piece>) {
    forall i, j | 0 <= i < j < |q| :: q[i].frame < q[j].frame
  }

  /** What is written stands before what is held. */
  ghost predicate Behind(frames: seq<Frame>, key: Key, q: seq<F.Piece>) {
    forall i, p | 0 <= i < |frames| && p in q && WrittenAt(Slots(frames[i].chunk), key) :: i < p.frame
  }

  lemma {:induction false} SaidAppend(a: seq<Frame>, b: seq<Frame>, key: Key)
    ensures SaidBy(a + b, key) == SaidBy(a, key) + SaidBy(b, key)
  {
    if a == [] {
      assert a + b == b;
    } else {
      assert (a + b)[1..] == a[1..] + b;
      SaidAppend(a[1..], b, key);
      Assoc3(SaidIn(Slots(a[0].chunk), key), SaidBy(a[1..], key), SaidBy(b, key));
    }
  }

  lemma {:induction false} SaidOne(f: Frame, key: Key)
    ensures SaidBy([f], key) == SaidIn(Slots(f.chunk), key)
  {
    assert [f][1..] == [];
  }

  lemma {:induction false} NoneSays(frames: seq<Frame>, key: Key)
    requires forall i | 0 <= i < |frames| :: !WrittenAt(Slots(frames[i].chunk), key)
    ensures SaidBy(frames, key) == []
  {
    if frames != [] {
      assert !WrittenAt(Slots(frames[0].chunk), key);
      SaysNothing(Slots(frames[0].chunk), key);
      forall i | 0 <= i < |frames[1..]| ensures !WrittenAt(Slots(frames[1..][i].chunk), key) {
        assert frames[1..][i] == frames[i + 1];
      }
      NoneSays(frames[1..], key);
    }
  }

  /** Writing the last frame that says anything adds its text at the end. */
  lemma {:induction false} SaidAt(frames: seq<Frame>, id: nat, f: Frame, key: Key)
    requires id < |frames|
    requires forall i | id <= i < |frames| :: !WrittenAt(Slots(frames[i].chunk), key)
    ensures SaidBy(frames[id := f], key) == SaidBy(frames, key) + SaidIn(Slots(f.chunk), key)
  {
    hide WrittenAt, SaidIn, SaidBy;
    var front, back := frames[..id], frames[id + 1..];
    assert frames == front + ([frames[id]] + back) && frames[id := f] == front + ([f] + back);
    SaidAppend(front, [frames[id]] + back, key);
    SaidAppend(front, [f] + back, key);
    SaidAppend([f], back, key);
    SaidAppend([frames[id]], back, key);
    SaidOne(f, key);
    SaidOne(frames[id], key);
    SaysNothing(Slots(frames[id].chunk), key);
    forall i | 0 <= i < |back| ensures !WrittenAt(Slots(back[i].chunk), key) {
      assert back[i] == frames[id + 1 + i];
    }
    NoneSays(back, key);
    assert SaidBy(front, key) + ([] + []) == SaidBy(front, key);
  }

  /** Settling a clear key's first piece says its text after everything said so far. */
  lemma {:induction false} HeadSaid(frames: seq<Frame>, key: Key, q: seq<F.Piece>, text: Text)
    requires q != [] && q[0].frame < |frames| && Names(Slots(frames[q[0].frame].chunk), key)
    requires ClearFrames(frames, key) && Rising(q) && Behind(frames, key, q)
    ensures var after := SettleFrame(frames, q[0].frame, key, text);
            && SaidBy(after, key) == SaidBy(frames, key) + text
            && Rising(q[1..]) && Behind(after, key, q[1..])
  {
    hide WrittenAt, Names, Clear, SaidIn, SaidBy;
    var id := q[0].frame;
    var f := frames[id];
    var after := SettleFrame(frames, id, key, text);
    assert q[0] in q;
    WriteReachesItsField(f.chunk, key, text);
    OneFieldPerKey(f.chunk);
    assert Clear(Slots(f.chunk), key);
    WrittenIsSaid(Slots(f.chunk), key, text);
    SaidAt(frames, id, after[id], key);
    assert after == frames[id := after[id]];
    forall i, p | 0 <= i < |after| && p in q[1..] && WrittenAt(Slots(after[i].chunk), key) ensures i < p.frame {
      var j :| 0 <= j < |q[1..]| && q[1..][j] == p;
      assert q[j + 1] == p && p in q;
      assert q[0].frame < q[j + 1].frame;
      if i != id { assert after[i] == frames[i]; }
    }
  }

  lemma {:induction false} SettleOthers(frames: seq<Frame>, id: nat, key: Key, text: Text, other: Key)
    requires other != key
    ensures var after := SettleFrame(frames, id, key, text);
            && SaidBy(after, other) == SaidBy(frames, other)
            && forall i | 0 <= i < |frames| :: WrittenAt(Slots(after[i].chunk), other) <==> WrittenAt(Slots(frames[i].chunk), other)
  {
    hide WrittenAt, SaidIn;
    var after := SettleFrame(frames, id, key, text);
    if id < |frames| {
      var f := frames[id];
      WriteReachesItsField(f.chunk, key, text);
      WrittenOthers(Slots(f.chunk), key, text, other);
      SaidReplaced(frames, id, after[id], other);
      assert after == frames[id := after[id]];
    }
  }

  lemma {:induction false} SaidReplaced(frames: seq<Frame>, id: nat, f: Frame, key: Key)
    requires id < |frames| && SaidIn(Slots(f.chunk), key) == SaidIn(Slots(frames[id].chunk), key)
    ensures SaidBy(frames[id := f], key) == SaidBy(frames, key)
  {
    hide SaidIn;
    if id > 0 {
      assert frames[id := f][1..] == frames[1..][id - 1 := f];
      SaidReplaced(frames[1..], id - 1, f, key);
    } else {
      assert frames[id := f][1..] == frames[1..];
    }
  }

  lemma {:induction false} StillKeepsClear(a: seq<Frame>, b: seq<Frame>, key: Key)
    requires Still(a, b)
    ensures ClearFrames(a, key) <==> ClearFrames(b, key)
  {
    hide Evolves;
    forall i | 0 <= i < |a| ensures Clear(Slots(a[i].chunk), key) <==> Clear(Slots(b[i].chunk), key) {
      assert SameFrame(a[i], b[i]);
      EvolutionKeepsNames(Slots(a[i].chunk), Slots(b[i].chunk), key);
    }
  }

  /** A whole release of a clear key says its texts, in order, after everything said so far. */
  lemma {:induction false} ReleaseSaid(frames: seq<Frame>, ds: seq<Debt>, key: Key, q: seq<F.Piece>, n: nat, texts: seq<Text>)
    requires Books(frames, ds) && n == |texts| <= |q| && q <= Pieces(ds, key)
    requires ClearFrames(frames, key) && Rising(q) && Behind(frames, key, q)
    ensures var after := Apply(frames, key, F.FrameIds(q[..n]), texts);
            && SaidBy(after, key) == SaidBy(frames, key) + Concat(texts)
            && Rising(q[n..]) && Behind(after, key, q[n..])
    decreases n
  {
    hide Books, Behind, ClearFrames, Pieces, Paid, SaidBy;
    if n == 0 {
      assert q[0..] == q && SaidBy(frames, key) + Concat(texts) == SaidBy(frames, key);
    } else {
      var next := SettleFrame(frames, q[0].frame, key, texts[0]);
      assert Pieces(ds, key)[0] == q[0];
      HeadNamed(frames, ds, key);
      HeadPaid(frames, ds, key, texts[0]);
      PaidPieces(ds, key, key);
      HeadSaid(frames, key, q, texts[0]);
      StillKeepsClear(frames, next, key);
      ReleaseSaid(next, Paid(ds, key), key, q[1..], n - 1, texts[1..]);
      var ids := F.FrameIds(q[..n]);
      assert ids[0] == q[0].frame && ids[1..] == F.FrameIds(q[1..][..n - 1]);
      assert q[1..][n - 1..] == q[n..];
      Assoc3(SaidBy(frames, key), texts[0], Concat(texts[1..]));
    }
  }

  lemma {:induction false} HeadNamed(frames: seq<Frame>, ds: seq<Debt>, key: Key)
    requires Books(frames, ds) && Pieces(ds, key) != []
    ensures var id := Pieces(ds, key)[0].frame; id < |frames| && Names(Slots(frames[id].chunk), key)
  {
    HeadIsOwed(ds, key);
    var d :| d in ds && d.frame == Pieces(ds, key)[0].frame && d.key == key;
    assert Named(frames, d);
  }

  lemma {:induction false} ReleaseOthers(frames: seq<Frame>, key: Key, ids: seq<nat>, texts: seq<Text>, other: Key)
    requires other != key
    ensures var after := Apply(frames, key, ids, texts);
            && SaidBy(after, other) == SaidBy(frames, other)
            && forall i | 0 <= i < |frames| :: WrittenAt(Slots(after[i].chunk), other) <==> WrittenAt(Slots(frames[i].chunk), other)
    decreases |ids|
  {
    hide WrittenAt, SaidBy;
    if ids != [] && texts != [] {
      SettleOthers(frames, ids[0], key, texts[0], other);
      ReleaseOthers(SettleFrame(frames, ids[0], key, texts[0]), key, ids[1..], texts[1..], other);
    }
  }

  lemma {:induction false} BatchSaysText(text: Text, n: nat)
    requires n > 0
    ensures |Batch(text, n)| == n && Concat(Batch(text, n)) == text
  {
    var blanks := Batch(text, n)[1..];
    BlanksSayNothing(blanks);
    assert Concat(Batch(text, n)) == text + Concat(blanks);
  }

  lemma {:induction false} BlanksSayNothing(blanks: seq<Text>)
    requires forall i | 0 <= i < |blanks| :: blanks[i] == []
    ensures Concat(blanks) == []
  {
    if blanks != [] { BlanksSayNothing(blanks[1..]); }
  }
}
