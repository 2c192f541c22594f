/** Blocking safety of a streamed completion: no part of a blocking occurrence is in a line that was sent
  * (crates/governance-redact/src/sse/mod.rs). */
module SseSafety {
  import opened Common
  import opened RedactEngine
  import opened SseChunk
  import opened SseFrames
  import opened SseHoldBack
  import opened SseDelivery
  import F = FieldRedactor
  import HoldBack
  import Lines

  // ---------- A stream that blocks does not finish ----------

  /** An occurrence held wholly at the end is not flushed. */
  lemma {:induction false} FlushBlocks(env: Env, st: State, g: Ledger, heard: seq<Contribution>, keys: seq<Key>, key: Key, i: nat, j: nat)
    requires Ledgered(env.sc, st, g) && KeyInvAt(env, st, g, heard, key) && key in keys
    requires HoldBack.BlocksWhenPresent(env.sc, Given(heard, key), i, j) && j - i <= env.window
    ensures !FlushAll(env.sc, env.window, st, keys).Going?
    decreases |keys|
  {
    hide FlushKey, Ledgered, KeyInv, LawfulEnv, KeyDoneAt;
    if keys[0] == key {
      KeyFlushBlocks(env, st, FieldAt(st, key), Pieces(g.debts, key), HeadsOf(g, key), heard, key, i, j);
    } else if FlushKey(env.sc, env.window, st, keys[0]).Going? {
      assert keys == [keys[0]] + keys[1..];
      var next := FlushKey(env.sc, env.window, st, keys[0]).st;
      var mid := FlushKeyKeeps(env, st, g, heard, keys[0]);
      assert SameKey(st, g, next, mid, key);
      FlushBlocks(env, next, mid, heard, keys[1..], key, i, j);
    }
  }

  lemma {:induction false} KeyFlushBlocks(env: Env, st: State, field: F.Field, q: seq<F.Piece>, heads: seq<Text>,
                                          heard: seq<Contribution>, key: Key, i: nat, j: nat)
    requires KeyInv(env, field, q, heads, heard, key) && field == FieldAt(st, key)
    requires HoldBack.BlocksWhenPresent(env.sc, Given(heard, key), i, j) && j - i <= env.window
    ensures !FlushKey(env.sc, env.window, st, key).Going? && F.Join(q) != []
  {
    hide F.Marks, F.Join, F.FrameCut, F.Whole, Faithful, LawfulEnv, HoldBack.Forwarded;
    var whole, left := Given(heard, key), Concat(heads);
    assert KeepsClearAt(env, left, whole, whole, i, j);
    assert F.Join(q) == whole[|left|..|whole|];
    var step := F.Advance(env.sc, env.window, field, true);
    if F.Proceeds(step) { F.AdvanceTakes(env.sc, env.window, q, field.redactions, true); }
  }

  lemma {:induction false} GivenAppend(a: seq<Contribution>, b: seq<Contribution>, key: Key)
    ensures Given(a + b, key) == Given(a, key) + Given(b, key)
  {
    if a == [] {
      assert a + b == b;
    } else {
      assert (a + b)[1..] == a[1..] + b;
      GivenAppend(a[1..], b, key);
      Assoc3(if a[0].key == key then a[0].text else [], Given(a[1..], key), Given(b, key));
    }
  }

  /** With an occurrence that blocks, the stream does not finish, in whatever order it is flushed. */
  lemma {:induction false} SecretStops(env: Env, fmt: Format, lines: seq<Text>, keys: seq<Key>, key: Key, i: nat, j: nat)
    requires ParsedLines(fmt, lines) && ListsRedactors(fmt, env.sc, env.window, lines, keys)
    requires HoldBack.BlocksWhenPresent(env.sc, Given(Heard(fmt, lines), key), i, j) && j - i <= env.window
    ensures !Whole(fmt, env.sc, env.window, lines, keys).Going?
  {
    hide IngestAll, FlushAll, ParsedLines, Inv, Ledgered, KeyInv, HoldBack.BlocksWhenPresent, InPlace;
    if IngestAll(fmt, env.sc, env.window, Start, lines).Going? {
      StartInv(env);
      var g := IngestAllKeeps(env, fmt, Start, Blank, [], lines);
      var fed, heard := IngestAll(fmt, env.sc, env.window, Start, lines).st, Heard(fmt, lines);
      assert [] + heard == heard;
      InvIsLedgered(env, fed, g, heard);
      assert KeyInvAt(env, fed, g, heard, key);
      assert key in fed.fields <==> key in keys;
      if key !in keys {
        IdleHoldsNothing(env, fed, FieldAt(fed, key), Pieces(g.debts, key), HeadsOf(g, key), heard, key, i, j);
      } else {
        FlushBlocks(env, fed, g, heard, keys, key, i, j);
      }
    }
  }

  lemma {:induction false} IdleHoldsNothing(env: Env, st: State, field: F.Field, q: seq<F.Piece>, heads: seq<Text>,
                                            heard: seq<Contribution>, key: Key, i: nat, j: nat)
    requires KeyInv(env, field, q, heads, heard, key) && field == FieldAt(st, key)
    requires HoldBack.BlocksWhenPresent(env.sc, Given(heard, key), i, j) && j - i <= env.window
    ensures key in st.fields
  {
    hide Faithful, LawfulEnv, KeepsClear, F.Whole, HoldBack.BlocksWhenPresent;
    KeyFlushBlocks(env, st, field, q, heads, heard, key, i, j);
  }

  // ---------- What is held is the end of what was given ----------

  /** All that the lines hand over, in order; the first line is frame `from`. */
  function AllDebts(fmt: Format, lines: seq<Text>, from: nat): seq<Debt> {
    if lines == [] then [] else DebtsOf(from, DeltaContents(ChunkOf(fmt, lines[0]))) + AllDebts(fmt, lines[1..], from + 1)
  }

  /** The redactor holds the last of these pieces. */
  ghost predicate HoldsLast(field: F.Field, p: seq<F.Piece>) {
    exists k: nat :: k <= |p| && field == F.FieldOf(p[k..], field.redactions)
  }

  ghost predicate HeldLast(st: State, ds: seq<Debt>) { forall key :: HeldLastAt(st, ds, key) }

  ghost predicate HeldLastAt(st: State, ds: seq<Debt>, key: Key) { HoldsLast(FieldAt(st, key), Pieces(ds, key)) }

  lemma {:induction false} PushHoldsLast(sc: Scanner, window: nat, field: F.Field, p: seq<F.Piece>, id: nat, text: Text)
    requires HoldsLast(field, p) && F.Proceeds(F.Advance(sc, window, F.Pushed(field, id, text), false))
    ensures HoldsLast(F.Advance(sc, window, F.Pushed(field, id, text), false).field, p + [F.Piece(id, text)])
  {
    hide F.Advance, F.FieldOf, F.FrameCut;
    var k: nat :| k <= |p| && field == F.FieldOf(p[k..], field.redactions);
    var q := p[k..] + [F.Piece(id, text)];
    F.PushedPiece(p[k..], field.redactions, id, text);
    F.AdvanceTakes(sc, window, q, field.redactions, false);
    var step := F.Advance(sc, window, F.FieldOf(q, field.redactions), false);
    var n, all := F.Taken(step), p + [F.Piece(id, text)];
    assert all[k..] == q && all[k + n..] == q[n..];
  }

  lemma {:induction false} ContributeHeldLast(sc: Scanner, window: nat, st: State, ds: seq<Debt>, c: Contribution)
    requires HeldLast(st, ds) && st.frames != [] && Contribute(sc, window, st, c).Going?
    ensures var st' := Contribute(sc, window, st, c).st;
            HeldLast(st', ds + [Debt(|st.frames| - 1, c.key, c.text)]) && |st'.frames| == |st.frames|
  {
    hide F.Advance, HoldsLast, Pieces, Apply;
    var d, st' := Debt(|st.frames| - 1, c.key, c.text), Contribute(sc, window, st, c).st;
    forall key ensures HeldLastAt(st', ds + [d], key) {
      assert HeldLastAt(st, ds, key);
      PiecesSnoc(ds, d, key);
      if key == c.key {
        PushHoldsLast(sc, window, FieldAt(st, key), Pieces(ds, key), d.frame, d.text);
      } else {
        assert Pieces(ds, key) + [] == Pieces(ds, key) && FieldAt(st', key) == FieldAt(st, key);
      }
    }
  }

  lemma {:induction false} ContributeAllHeldLast(sc: Scanner, window: nat, st: State, ds: seq<Debt>, cs: seq<Contribution>)
    requires HeldLast(st, ds) && st.frames != [] && ContributeAll(sc, window, st, cs).Going?
    ensures var st' := ContributeAll(sc, window, st, cs).st;
            HeldLast(st', ds + DebtsOf(|st.frames| - 1, cs)) && |st'.frames| == |st.frames|
    decreases |cs|
  {
    hide HeldLast, Contribute;
    var id := |st.frames| - 1;
    if cs == [] {
      assert ds + DebtsOf(id, cs) == ds;
    } else {
      ContributeHeldLast(sc, window, st, ds, cs[0]);
      var d := Debt(id, cs[0].key, cs[0].text);
      ContributeAllHeldLast(sc, window, Contribute(sc, window, st, cs[0]).st, ds + [d], cs[1..]);
      assert (ds + [d]) + DebtsOf(id, cs[1..]) == ds + DebtsOf(id, cs);
    }
  }

  lemma {:induction false} IngestHeldLast(fmt: Format, sc: Scanner, window: nat, st: State, ds: seq<Debt>, line: Text)
    requires HeldLast(st, ds) && Ingest(fmt, sc, window, st, line).Going?
    ensures var st' := Ingest(fmt, sc, window, st, line).st;
            HeldLast(st', ds + DebtsOf(|st.frames|, DeltaContents(ChunkOf(fmt, line)))) && |st'.frames| == |st.frames| + 1
  {
    hide HoldsLast, ContributeAll, Pieces;
    assert forall st': State | st'.fields == st.fields :: forall key :: HeldLastAt(st, ds, key) ==> HeldLastAt(st', ds, key);
    match fmt.classify(line)
    case Data(chunk) => ContributeAllHeldLast(sc, window, AddFrame(st, DataFrame(line, chunk)), ds, DeltaContents(chunk));
    case _ =>
      assert Slots([]) == [] && DeltaContents([]) == [];
      assert ds + DebtsOf(|st.frames|, []) == ds;
  }

  lemma {:induction false} IngestAllHeldLast(fmt: Format, sc: Scanner, window: nat, st: State, ds: seq<Debt>, lines: seq<Text>)
    requires HeldLast(st, ds) && IngestAll(fmt, sc, window, st, lines).Going?
    ensures var st' := IngestAll(fmt, sc, window, st, lines).st;
            HeldLast(st', ds + AllDebts(fmt, lines, |st.frames|)) && |st'.frames| == |st.frames| + |lines|
    decreases |lines|
  {
    hide HeldLast, Ingest;
    if lines == [] {
      assert ds + AllDebts(fmt, lines, |st.frames|) == ds;
    } else {
      IngestHeldLast(fmt, sc, window, st, ds, lines[0]);
      var mine := DebtsOf(|st.frames|, DeltaContents(ChunkOf(fmt, lines[0])));
      IngestAllHeldLast(fmt, sc, window, Ingest(fmt, sc, window, st, lines[0]).st, ds + mine, lines[1..]);
      Assoc3(ds, mine, AllDebts(fmt, lines[1..], |st.frames| + 1));
    }
  }

  lemma {:induction false} StartHeldLast()
    ensures HeldLast(Start, [])
  {
    forall key ensures HeldLastAt(Start, [], key) {
      assert Pieces([], key)[0..] == [] && F.FieldOf([], 0) == F.Empty;
    }
  }

  // ---------- What that leaves for the lines that were sent ----------

  lemma {:induction false} DebtsSay(id: nat, cs: seq<Contribution>, key: Key)
    ensures F.Join(Pieces(DebtsOf(id, cs), key)) == Given(cs, key)
    ensures forall p | p in Pieces(DebtsOf(id, cs), key) :: p.frame == id
    decreases |cs|
  {
    if cs != [] {
      var first, rest := Debt(id, cs[0].key, cs[0].text), DebtsOf(id, cs[1..]);
      assert DebtsOf(id, cs) == [first] + rest && ([first] + rest)[1..] == rest;
      DebtsSay(id, cs[1..], key);
      var q := Pieces(rest, key);
      if first.key == key {
        assert ([F.Piece(id, first.text)] + q)[1..] == q;
      } else {
        assert [] + q == q && [] + Given(cs[1..], key) == Given(cs[1..], key);
      }
    }
  }

  /** The pieces of a key join to what the lines give it, and carry the ids of their frames. */
  lemma {:induction false} AllDebtsSay(fmt: Format, lines: seq<Text>, from: nat, key: Key)
    ensures F.Join(Pieces(AllDebts(fmt, lines, from), key)) == Given(Heard(fmt, lines), key)
    ensures forall p | p in Pieces(AllDebts(fmt, lines, from), key) :: from <= p.frame < from + |lines|
    decreases |lines|
  {
    hide Pieces, Given, DebtsOf, F.Join;
    if lines == [] {
      NothingGiven(key);
    } else {
      var cs := DeltaContents(ChunkOf(fmt, lines[0]));
      var mine, later := DebtsOf(from, cs), AllDebts(fmt, lines[1..], from + 1);
      DebtsSay(from, cs, key);
      AllDebtsSay(fmt, lines[1..], from + 1, key);
      PiecesAppend(mine, later, key);
      F.JoinAppend(Pieces(mine, key), Pieces(later, key));
      GivenAppend(cs, Heard(fmt, lines[1..]), key);
    }
  }

  lemma {:induction false} NothingGiven(key: Key)
    ensures Pieces([], key) == [] && F.Join([]) == [] && Given([], key) == []
  {}

  lemma {:induction false} AllDebtsAppend(fmt: Format, a: seq<Text>, b: seq<Text>, from: nat)
    ensures AllDebts(fmt, a + b, from) == AllDebts(fmt, a, from) + AllDebts(fmt, b, from + |a|)
    decreases |a|
  {
    hide DebtsOf;
    if a == [] {
      assert a + b == b;
    } else {
      assert (a + b)[1..] == a[1..] + b;
      AllDebtsAppend(fmt, a[1..], b, from + 1);
      Assoc3(DebtsOf(from, DeltaContents(ChunkOf(fmt, a[0]))), AllDebts(fmt, a[1..], from + 1), AllDebts(fmt, b, from + |a|));
    }
  }

  lemma {:induction false} EarlyIsThere(early: seq<F.Piece>, late: seq<F.Piece>, k: nat)
    requires k < |early|
    ensures early[k] in early && early[k] in (early + late)[k..]
  {
    assert (early + late)[k..][0] == early[k];
  }

  /** The end of `early + late`, when nothing of `early` is in it, is an end of `late`. */
  lemma {:induction false} LastOfLate(early: seq<F.Piece>, late: seq<F.Piece>, k: nat, front: nat)
    requires k <= |early + late|
    requires forall p | p in early :: p.frame < front
    requires forall p | p in (early + late)[k..] :: p.frame >= front
    ensures |F.Join((early + late)[k..])| <= |F.Join(late)|
  {
    var p := early + late;
    if k < |early| { EarlyIsThere(early, late, k); }
    var n := k - |early|;
    assert p[k..] == late[n..] && late == late[..n] + late[n..];
    F.JoinAppend(late[..n], late[n..]);
  }

  /** What a redactor holds was given by lines that still wait. */
  lemma {:induction false} HeldByWaiting(fmt: Format, sc: Scanner, st: State, g: Ledger, lines: seq<Text>, front: nat, key: Key)
    requires Ledgered(sc, st, g) && HeldLast(st, AllDebts(fmt, lines, 0)) && ReadyTo(st.frames, front) && front <= |lines|
    ensures |F.Join(Pieces(g.debts, key))| <= |Given(Heard(fmt, lines[front..]), key)|
  {
    hide FrameInv, F.Join, F.Marks, Given, Heard, Pieces, AllDebts;
    var field, q := FieldAt(st, key), Pieces(g.debts, key);
    assert LedgeredAt(sc, st, g, key) && HeldLastAt(st, AllDebts(fmt, lines, 0), key);
    assert lines == lines[..front] + lines[front..];
    AllDebtsAppend(fmt, lines[..front], lines[front..], 0);
    var a, b := AllDebts(fmt, lines[..front], 0), AllDebts(fmt, lines[front..], front);
    PiecesAppend(a, b, key);
    var early, late := Pieces(a, key), Pieces(b, key);
    AllDebtsSay(fmt, lines[..front], 0, key);
    AllDebtsSay(fmt, lines[front..], front, key);
    var k: nat :| k <= |early + late| && field == F.FieldOf((early + late)[k..], field.redactions);
    var held := (early + late)[k..];
    F.MarksShape(held, 0);
    F.MarksShape(q, 0);
    forall p | p in held ensures p.frame >= front {
      var i :| 0 <= i < |held| && held[i] == p;
      assert F.FrameIds(held)[i] == F.FrameIds(q)[i];
      WaitingPiece(st.frames, g.debts, key, q[i], front);
    }
    LastOfLate(early, late, k, front);
  }

  lemma {:induction false} WaitingPiece(frames: seq<Frame>, ds: seq<Debt>, key: Key, p: F.Piece, front: nat)
    requires Books(frames, ds) && ReadyTo(frames, front) && p in Pieces(ds, key)
    ensures p.frame >= front
  {
    PieceIsOwed(ds, key, p);
    CountZeroIff(ds, p.frame);
  }

  /** Where a stream that does not finish stands: after so many of its lines. */
  lemma {:induction false} LastIngested(fmt: Format, sc: Scanner, window: nat, h: Hold, chunks: seq<Text>, keys: seq<Key>) returns (n: nat)
    requires NoLine(h.buf) && !Deliver(fmt, sc, window, h, chunks, keys).end.Finished?
    ensures var lines := Lines.Records(h.buf + Concat(chunks)); var last := Deliver(fmt, sc, window, h, chunks, keys).last;
            n <= |lines| && IngestAll(fmt, sc, window, h.st, lines[..n]) == Going(last.st)
    decreases |chunks|
  {
    hide IngestAll, FlushAll, Output, DrainTo, Lines.Records, Lines.Complete, Lines.Rest;
    n := 0;
    NothingIngested(fmt, sc, window, h.st);
    assert Lines.Records(h.buf + Concat(chunks))[..0] == [];
    if chunks != [] {
      var raw := h.buf + chunks[0];
      LinesAhead(h.buf, chunks);
      var call := PushText(fmt, sc, window, h, chunks[0]);
      if call.Sent? {
        var first, rest := Lines.Complete(raw), Lines.Records(Lines.Rest(raw) + Concat(chunks[1..]));
        var k := LastIngested(fmt, sc, window, call.hold, chunks[1..], keys);
        n := |first| + k;
        assert (first + rest)[..n] == first + rest[..k];
        IngestAllAppend(fmt, sc, window, h.st, first, rest[..k]);
      }
    }
  }

  lemma {:induction false} NothingIngested(fmt: Format, sc: Scanner, window: nat, st: State)
    ensures IngestAll(fmt, sc, window, st, []) == Going(st)
  {}

  /** Nothing of the occurrence was given by a line that has been sent. */
  lemma {:induction false} SentGivenBefore(env: Env, fmt: Format, st: State, g: Ledger, lines: seq<Text>, whole: Text, key: Key,
                                           front: nat, i: nat, j: nat)
    requires Ledgered(env.sc, st, g) && KeyInvAt(env, st, g, Heard(fmt, lines), key)
    requires HeldLast(st, AllDebts(fmt, lines, 0)) && ReadyTo(st.frames, front) && front <= |lines|
    requires Given(Heard(fmt, lines), key) <= whole && HoldBack.BlocksWhenPresent(env.sc, whole, i, j) && j - i <= env.window
    ensures |Given(Heard(fmt, lines[..front]), key)| <= i
  {
    hide F.Join, F.Whole, F.Marks, Faithful, LawfulEnv, Ledgered, HeldLast, ReadyTo, HoldBack.Forwarded, Given, Heard, Pieces;
    HeldByWaiting(fmt, env.sc, st, g, lines, front, key);
    assert lines == lines[..front] + lines[front..];
    HeardAppend(fmt, lines[..front], lines[front..]);
    GivenAppend(Heard(fmt, lines[..front]), Heard(fmt, lines[front..]), key);
    assert KeepsClearAt(env, Concat(HeadsOf(g, key)), Given(Heard(fmt, lines), key), whole, i, j);
  }

  // ---------- What a client reads ----------

  /** What a client reads for a key: every text of the key, written or not. */
  function ReadIn(slots: seq<Slot>, key: Key): Text {
    if slots == [] then [] else (if slots[0].key == key then slots[0].value.text else []) + ReadIn(slots[1..], key)
  }

  function ReadBy(frames: seq<Frame>, key: Key): Text {
    if frames == [] then [] else ReadIn(Slots(frames[0].chunk), key) + ReadBy(frames[1..], key)
  }

  lemma {:induction false} WrittenIsRead(slots: seq<Slot>, key: Key)
    requires forall i | 0 <= i < |slots| && slots[i].key == key :: slots[i].value.written
    ensures ReadIn(slots, key) == SaidIn(slots, key)
  {
    if slots != [] {
      forall i | 0 <= i < |slots[1..]| && slots[1..][i].key == key ensures slots[1..][i].value.written {
        assert slots[1..][i] == slots[i + 1];
      }
      WrittenIsRead(slots[1..], key);
    }
  }

  /** For a clear key, a client reads in the frames sent what their redactor released into them. */
  lemma {:induction false} SentIsSaid(frames: seq<Frame>, ds: seq<Debt>, key: Key, from: nat, to: nat)
    requires Books(frames, ds) && ClearFrames(frames, key) && ReadyTo(frames, to) && from <= to
    ensures ReadBy(frames[from..to], key) == SaidBy(frames[from..to], key)
    decreases if from <= to then to - from else 0
  {
    hide SaidIn, ReadIn;
    if from < to {
      var f := frames[from];
      assert frames[from..to][0] == f && frames[from..to][1..] == frames[from + 1..to];
      assert Ready(f) && Clear(Slots(f.chunk), key) && Accounted(f, from, ds);
      CountZeroIff(ds, from);
      forall i | 0 <= i < |Slots(f.chunk)| && Slots(f.chunk)[i].key == key ensures Slots(f.chunk)[i].value.written {
        var s := Slots(f.chunk)[i];
        assert s in Slots(f.chunk) && s.reachable;
        assert !s.value.written ==> Owed(ds, from, s.key);
      }
      WrittenIsRead(Slots(f.chunk), key);
      SentIsSaid(frames, ds, key, from + 1, to);
    }
  }

  /** `read` is a beginning of what the scanner made of heads that end before `i`. */
  ghost predicate FromBefore(sc: Scanner, whole: Text, i: nat, read: Text, heads: seq<Text>) {
    && |Concat(heads)| <= i <= |whole| && Concat(heads) == whole[..|Concat(heads)|]
    && read <= HoldBack.Forwarded(sc, heads)
  }

  /** Blocking safety for a field of a completion: an occurrence `i..j` of a blocking entity in all that
    * the field is given, which fits the window and is reported whenever it is wholly held. For every
    * chunking, and however lines name their fields, the stream is stopped and no line sent until then gave
    * any byte of the occurrence. Where every line names the field reachably, what a client reads for it
    * was moreover made by the scanner, of text before the occurrence. */
  lemma {:induction false} NoByteOfAFieldSecretLeaves(env: Env, fmt: Format, chunks: seq<Text>, keys: seq<Key>, key: Key, i: nat, j: nat)
    requires var lines := Lines.Records(Concat(chunks));
             ParsedLines(fmt, lines) && ListsRedactors(fmt, env.sc, env.window, lines, keys)
    requires HoldBack.BlocksWhenPresent(env.sc, Given(Heard(fmt, Lines.Records(Concat(chunks))), key), i, j)
    requires j - i <= env.window
    ensures var lines := Lines.Records(Concat(chunks));
            var whole := Given(Heard(fmt, lines), key);
            var d := Deliver(fmt, env.sc, env.window, Fresh, chunks, keys);
            && !d.end.Finished?
            && d.last.front <= |lines| && d.out == Output(fmt, d.last.st.frames, 0, d.last.front)
            && |Given(Heard(fmt, lines[..d.last.front]), key)| <= i
            && (ClearLines(fmt, lines, key) ==>
                  d.last.front <= |d.last.st.frames| &&
                  exists heads :: FromBefore(env.sc, whole, i, ReadBy(d.last.st.frames[..d.last.front], key), heads))
  {
    hide ParsedLines, ClearLines, ListsRedactors, Output, Lines.Records, Lines.Complete, Lines.Rest, Deliver, HoldInv, Whole,
         IngestAll, FlushAll, Inv, Ledgered, ReadBy, FromBefore, HoldBack.BlocksWhenPresent, HeldLast, Given, Heard, AllDebts;
    var lines := Lines.Records(Concat(chunks));
    var heard, whole := Heard(fmt, lines), Given(Heard(fmt, lines), key);
    assert [] + Concat(chunks) == Concat(chunks);
    SecretStops(env, fmt, lines, keys, key, i, j);
    StreamDelivers(env, fmt, chunks, keys);
    FreshInv(env);
    var g, n := DeliverSends(env, fmt, Fresh, Blank, [], chunks, keys);
    var last := Deliver(fmt, env.sc, env.window, Fresh, chunks, keys).last;
    EmptyHasNoLine();
    var m := LastIngested(fmt, env.sc, env.window, Fresh, chunks, keys);
    StartHeldLast();
    IngestAllHeldLast(fmt, env.sc, env.window, Start, [], lines[..m]);
    assert [] + AllDebts(fmt, lines[..m], 0) == AllDebts(fmt, lines[..m], 0);
    assert m == |last.st.frames| == n;
    assert lines == lines[..n] + lines[n..];
    HeardAppend(fmt, lines[..n], lines[n..]);
    GivenAppend(Heard(fmt, lines[..n]), Heard(fmt, lines[n..]), key);
    assert [] + Heard(fmt, lines[..n]) == Heard(fmt, lines[..n]);
    InvIsLedgered(env, last.st, g, Heard(fmt, lines[..n]));
    SentGivenBefore(env, fmt, last.st, g, lines[..n], whole, key, last.front, i, j);
    assert lines[..n][..last.front] == lines[..last.front];
    if ClearLines(fmt, lines, key) {
      ClearTake(fmt, lines, n, key);
      ClearLinesClearFrames(fmt, env.sc, lines[..n], last.st.frames, key);
      SentFromBefore(env, last.st, g, Heard(fmt, lines[..n]), whole, key, last.front, i, j);
    }
  }

  lemma {:induction false} ClearTake(fmt: Format, lines: seq<Text>, n: nat, key: Key)
    requires ClearLines(fmt, lines, key) && n <= |lines|
    ensures ClearLines(fmt, lines[..n], key)
  {}

  lemma {:induction false} SentFromBefore(env: Env, st: State, g: Ledger, heard: seq<Contribution>, whole: Text, key: Key,
                                          front: nat, i: nat, j: nat)
    requires Ledgered(env.sc, st, g) && KeyInvAt(env, st, g, heard, key) && ClearFrames(st.frames, key)
    requires Given(heard, key) <= whole && HoldBack.BlocksWhenPresent(env.sc, whole, i, j) && j - i <= env.window
    requires ReadyTo(st.frames, front)
    ensures exists heads :: FromBefore(env.sc, whole, i, ReadBy(st.frames[..front], key), heads)
  {
    hide SaidBy, ReadBy, F.Join, F.Whole, F.Marks, Faithful, LawfulEnv, Books, HoldBack.Forwarded, ClearFrames, ReadyTo;
    var heads := HeadsOf(g, key);
    var given := Given(heard, key);
    assert LedgeredAt(env.sc, st, g, key);
    assert KeepsClearAt(env, Concat(heads), given, whole, i, j);
    assert Concat(heads) <= given <= whole;
    ReadyCount(st.frames, front);
    SentIsSaid(st.frames, g.debts, key, 0, front);
    assert st.frames[0..front] == st.frames[..front];
    assert st.frames == st.frames[..front] + st.frames[front..];
    SaidAppend(st.frames[..front], st.frames[front..], key);
    assert FromBefore(env.sc, whole, i, ReadBy(st.frames[..front], key), heads);
  }

  lemma {:induction false} ReadyCount(frames: seq<Frame>, front: nat)
    requires ReadyTo(frames, front)
    ensures front <= |frames|
  {}
}
