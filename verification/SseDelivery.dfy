/** What the client of a redacted stream receives: the ready frames, in arrival order, each exactly
  * once, however the upstream bytes were cut into chunks and however the stream ends
  * (crates/governance-redact/src/sse/mod.rs). */
module SseDelivery {
  import opened Common
  import opened RedactEngine
  import opened SseChunk
  import opened SseFrames
  import opened SseHoldBack
  import F = FieldRedactor
  import Lines

  // ---------- Draining ----------

  function Rendered(fmt: Format, f: Frame): Text {
    if f.data then fmt.render(f.line, f.chunk) else f.line
  }

  function Output(fmt: Format, frames: seq<Frame>, from: nat, to: nat): Text
    decreases if from <= to then to - from else 0
  {
    if from >= to || from >= |frames| then [] else Rendered(fmt, frames[from]) + Output(fmt, frames, from + 1, to)
  }

  /** How far the ready frames reach from `front`. */
  function DrainTo(frames: seq<Frame>, front: nat): (r: nat)
    ensures front <= r && (front <= |frames| ==> r <= |frames|)
    ensures forall i | front <= i < r :: i < |frames| && Ready(frames[i])
    ensures r < |frames| ==> !Ready(frames[r])
    decreases |frames| - front
  {
    if front < |frames| && Ready(frames[front]) then DrainTo(frames, front + 1) else front
  }

  lemma {:induction false} OutputJoins(fmt: Format, frames: seq<Frame>, a: nat, b: nat, c: nat)
    requires a <= b <= c
    ensures Output(fmt, frames, a, b) + Output(fmt, frames, b, c) == Output(fmt, frames, a, c)
    decreases b - a
  {
    hide Rendered;
    if a < b && a < |frames| {
      OutputJoins(fmt, frames, a + 1, b, c);
      Assoc3(Rendered(fmt, frames[a]), Output(fmt, frames, a + 1, b), Output(fmt, frames, b, c));
    } else if a < b {
      assert Output(fmt, frames, b, c) == [];
    }
  }

  /** The first `n` frames are the same. */
  ghost predicate SamePrefix(a: seq<Frame>, b: seq<Frame>, n: nat) {
    n <= |a| && n <= |b| && forall i | 0 <= i < n :: a[i] == b[i]
  }

  lemma {:induction false} OutputSame(fmt: Format, a: seq<Frame>, b: seq<Frame>, from: nat, to: nat)
    requires SamePrefix(a, b, to)
    ensures Output(fmt, a, from, to) == Output(fmt, b, from, to)
    decreases if from <= to then to - from else 0
  {
    hide Rendered;
    if from < to { OutputSame(fmt, a, b, from + 1, to); }
  }

  ghost predicate ReadyTo(frames: seq<Frame>, front: nat) {
    front <= |frames| && forall i | 0 <= i < front :: Ready(frames[i])
  }

  /** A frame that may leave never changes. */
  lemma {:induction false} StillKeepsReady(a: seq<Frame>, b: seq<Frame>, front: nat)
    requires |a| <= |b| && Still(a, b[..|a|]) && ReadyTo(a, front)
    ensures SamePrefix(a, b, front) && ReadyTo(b, DrainTo(b, front))
  {
    forall i | 0 <= i < front ensures a[i] == b[i] {
      assert SameFrame(a[i], b[..|a|][i]) && Ready(a[i]);
    }
    forall i | 0 <= i < DrainTo(b, front) ensures Ready(b[i]) {
      if i < front { assert Ready(a[i]); }
    }
  }

  lemma {:induction false} PrefixTwice(a: seq<Frame>, b: seq<Frame>, c: seq<Frame>, n: nat, m: nat)
    requires SamePrefix(a, b, n) && SamePrefix(b, c, m) && n <= m
    ensures SamePrefix(a, c, n)
  {}

  lemma {:induction false} DrainedOnce(frames: seq<Frame>, front: nat)
    ensures DrainTo(frames, DrainTo(frames, front)) == DrainTo(frames, front)
  {}

  lemma {:induction false} FrontIsDrainTo(frames: seq<Frame>, from: nat, front: nat)
    requires from <= front && ReadyTo(frames, front) && DrainTo(frames, front) == front
    ensures DrainTo(frames, from) == front
    decreases front - from
  {
    hide Ready;
    if from < front { FrontIsDrainTo(frames, from + 1, front); }
  }

  // ---------- Whole deliveries ----------

  datatype Hold = Hold(buf: Text, st: State, front: nat)

  const Fresh := Hold([], Start, 0)

  datatype Ending = Finished | Halted(entities: set<Entity>) | Broken

  function EndOf(o: Outcome): Ending {
    match o
    case Going(_) => Finished
    case Stopped(entities) => Halted(entities)
    case Failed => Broken
  }

  /** What one call sends, or how it ends the stream: a call that does sends nothing. */
  datatype Call = Sent(hold: Hold, out: Text) | Ended(end: Ending)

  function Drained(fmt: Format, st: State, buf: Text, front: nat): Call {
    var end := DrainTo(st.frames, front);
    Sent(Hold(buf, st, end), Output(fmt, st.frames, front, end))
  }

  function PushText(fmt: Format, sc: Scanner, window: nat, h: Hold, text: Text): (r: Call)
    ensures r.Ended? ==> !r.end.Finished?
  {
    var raw := h.buf + text;
    var fed := IngestAll(fmt, sc, window, h.st, Lines.Complete(raw));
    if fed.Going? then Drained(fmt, fed.st, Lines.Rest(raw), h.front) else Ended(EndOf(fed))
  }

  function LastLine(buf: Text): seq<Text> { if buf == [] then [] else [buf] }

  function Finish(fmt: Format, sc: Scanner, window: nat, h: Hold, keys: seq<Key>): (r: Call)
    ensures r.Ended? ==> !r.end.Finished?
  {
    var fed := IngestAll(fmt, sc, window, h.st, LastLine(h.buf));
    if !fed.Going? then Ended(EndOf(fed))
    else
      var done := FlushAll(sc, window, fed.st, keys);
      if done.Going? then Drained(fmt, done.st, [], h.front) else Ended(EndOf(done))
  }

  /** All that was sent, where things stood after the last call that sent it, and how it ended. */
  datatype Delivery = Delivery(out: Text, last: Hold, end: Ending)

  function Deliver(fmt: Format, sc: Scanner, window: nat, h: Hold, chunks: seq<Text>, keys: seq<Key>): Delivery
    decreases |chunks|
  {
    if chunks == [] then
      match Finish(fmt, sc, window, h, keys)
      case Ended(end) => Delivery([], h, end)
      case Sent(hold, out) => Delivery(out, hold, Finished)
    else
      match PushText(fmt, sc, window, h, chunks[0])
      case Ended(end) => Delivery([], h, end)
      case Sent(hold, out) =>
        var later := Deliver(fmt, sc, window, hold, chunks[1..], keys);
        later.(out := out + later.out)
  }

  /** Flushing what a line list leads to. */
  function Remaining(fmt: Format, sc: Scanner, window: nat, st: State, lines: seq<Text>, keys: seq<Key>): Outcome {
    var fed := IngestAll(fmt, sc, window, st, lines);
    if fed.Going? then FlushAll(sc, window, fed.st, keys) else fed
  }

  lemma {:induction false} IngestAllAppend(fmt: Format, sc: Scanner, window: nat, st: State, a: seq<Text>, b: seq<Text>)
    ensures IngestAll(fmt, sc, window, st, a + b) ==
            var mid := IngestAll(fmt, sc, window, st, a);
            if mid.Going? then IngestAll(fmt, sc, window, mid.st, b) else mid
    decreases |a|
  {
    hide Ingest;
    if a == [] {
      assert a + b == b;
    } else {
      assert (a + b)[1..] == a[1..] + b;
      var next := Ingest(fmt, sc, window, st, a[0]);
      if next.Going? { IngestAllAppend(fmt, sc, window, next.st, a[1..], b); }
    }
  }

  lemma {:induction false} RecordsFollow(raw: Text, more: Text)
    ensures Lines.Records(raw + more) == Lines.Complete(raw) + Lines.Records(Lines.Rest(raw) + more)
  {
    hide Lines.Records, Lines.Complete, Lines.Rest;
    Lines.CompleteAppend(raw, more);
    Lines.CompleteThenRest(raw + more);
    var rest := Lines.Rest(raw) + more;
    Lines.CompleteThenRest(rest);
    Assoc3(Lines.Complete(raw), Lines.Complete(rest), LastLine(Lines.Rest(rest)));
  }

  /** A buffer without a newline is its own last line. */
  ghost predicate NoLine(buf: Text) { Lines.Complete(buf) == [] && Lines.Rest(buf) == buf }

  lemma {:induction false} LastRecord(buf: Text)
    requires NoLine(buf)
    ensures Lines.Records(buf) == LastLine(buf)
  {
    hide Lines.Records, Lines.Complete, Lines.Rest;
    Lines.CompleteThenRest(buf);
  }

  /** The lines still to come, and those of the next push. */
  lemma {:induction false} LinesAhead(buf: Text, chunks: seq<Text>)
    requires chunks != []
    ensures NoLine(Lines.Rest(buf + chunks[0]))
    ensures Lines.Records(buf + Concat(chunks))
         == Lines.Complete(buf + chunks[0]) + Lines.Records(Lines.Rest(buf + chunks[0]) + Concat(chunks[1..]))
  {
    hide Lines.Records, Lines.Complete, Lines.Rest;
    ConcatStep(buf, chunks);
    RecordsFollow(buf + chunks[0], Concat(chunks[1..]));
    Lines.RestHasNoLine(buf + chunks[0]);
  }

  /** How a delivery ends depends on the text alone, not on how it was cut. */
  lemma {:induction false} EndIgnoresChunking(fmt: Format, sc: Scanner, window: nat, h: Hold, chunks: seq<Text>, keys: seq<Key>)
    requires NoLine(h.buf)
    ensures var d := Deliver(fmt, sc, window, h, chunks, keys);
            var o := Remaining(fmt, sc, window, h.st, Lines.Records(h.buf + Concat(chunks)), keys);
            d.end == EndOf(o) && (o.Going? ==> d.last.st == o.st)
    decreases |chunks|
  {
    hide IngestAll, FlushAll, Output, DrainTo, Lines.Records, Lines.Complete, Lines.Rest;
    if chunks == [] {
      LastRecord(h.buf);
      assert h.buf + Concat(chunks) == h.buf;
    } else {
      var raw := h.buf + chunks[0];
      LinesAhead(h.buf, chunks);
      IngestAllAppend(fmt, sc, window, h.st, Lines.Complete(raw), Lines.Records(Lines.Rest(raw) + Concat(chunks[1..])));
      var call := PushText(fmt, sc, window, h, chunks[0]);
      if call.Sent? { EndIgnoresChunking(fmt, sc, window, call.hold, chunks[1..], keys); }
    }
  }

  // ---------- What was sent ----------

  /** The lines are in up to `heard`, and everything ready in front has been sent. */
  ghost predicate HoldInv(env: Env, h: Hold, g: Ledger, heard: seq<Contribution>) {
    && Inv(env, h.st, g, heard, [])
    && ReadyTo(h.st.frames, h.front) && DrainTo(h.st.frames, h.front) == h.front
    && NoLine(h.buf)
  }

  /** From `h` on: what was sent is the frames between where the front stood and where it ends, as they
    * stand at the end; they stand for the lines they came from, and only released text was written. */
  ghost predicate Delivered(env: Env, fmt: Format, h: Hold, lines: seq<Text>, out: Text, last: Hold, g: Ledger, n: nat) {
    && h.front <= last.front && ReadyTo(last.st.frames, last.front) && DrainTo(last.st.frames, last.front) == last.front
    && SamePrefix(h.st.frames, last.st.frames, h.front)
    && out == Output(fmt, last.st.frames, h.front, last.front)
    && Ledgered(env.sc, last.st, g)
    && n <= |lines| && InPlace(fmt, env.sc, lines[..n], last.st.frames, |h.st.frames|)
  }

  lemma {:induction false} DrainedKeeps(fmt: Format, a: seq<Frame>, st: State, buf: Text, front: nat)
    requires |a| <= |st.frames| && Still(a, st.frames[..|a|]) && ReadyTo(a, front)
    ensures var call := Drained(fmt, st, buf, front);
            && SamePrefix(a, st.frames, front)
            && front <= call.hold.front && ReadyTo(st.frames, call.hold.front)
            && DrainTo(st.frames, call.hold.front) == call.hold.front
            && call.out == Output(fmt, st.frames, front, call.hold.front)
            && call.hold.st == st && call.hold.buf == buf
  {
    hide Output, Ready;
    StillKeepsReady(a, st.frames, front);
    DrainedOnce(st.frames, front);
  }

  lemma {:induction false} ParsedParts(fmt: Format, a: seq<Text>, b: seq<Text>)
    requires ParsedLines(fmt, a + b)
    ensures ParsedLines(fmt, a) && ParsedLines(fmt, b)
  {
    hide Parsed;
    forall i | 0 <= i < |a| ensures Parsed(ChunkOf(fmt, a[i])) { assert (a + b)[i] == a[i]; }
    forall i | 0 <= i < |b| ensures Parsed(ChunkOf(fmt, b[i])) { assert (a + b)[|a| + i] == b[i]; }
  }

  lemma {:induction false} PushKeeps(env: Env, fmt: Format, h: Hold, g: Ledger, heard: seq<Contribution>, text: Text)
    returns (g': Ledger)
    requires HoldInv(env, h, g, heard) && ParsedLines(fmt, Lines.Complete(h.buf + text))
    requires PushText(fmt, env.sc, env.window, h, text).Sent?
    ensures var call := PushText(fmt, env.sc, env.window, h, text); var lines := Lines.Complete(h.buf + text);
            && HoldInv(env, call.hold, g', heard + Heard(fmt, lines))
            && h.front <= call.hold.front && SamePrefix(h.st.frames, call.hold.st.frames, h.front)
            && call.out == Output(fmt, call.hold.st.frames, h.front, call.hold.front)
            && InPlace(fmt, env.sc, lines, call.hold.st.frames, |h.st.frames|)
            && Still(h.st.frames, call.hold.st.frames[..|h.st.frames|])
  {
    hide Inv, IngestAll, Output, Ready, ParsedLines, Stands, SameFrame, Lines.Complete, Lines.Rest;
    var lines := Lines.Complete(h.buf + text);
    g' := IngestAllKeeps(env, fmt, h.st, g, heard, lines);
    var st := IngestAll(fmt, env.sc, env.window, h.st, lines).st;
    DrainedKeeps(fmt, h.st.frames, st, Lines.Rest(h.buf + text), h.front);
    Lines.RestHasNoLine(h.buf + text);
  }

  lemma {:induction false} FinishKeeps(env: Env, fmt: Format, h: Hold, g: Ledger, heard: seq<Contribution>, keys: seq<Key>)
    returns (g': Ledger)
    requires HoldInv(env, h, g, heard) && ParsedLines(fmt, LastLine(h.buf))
    requires Finish(fmt, env.sc, env.window, h, keys).Sent?
    ensures var call := Finish(fmt, env.sc, env.window, h, keys);
            Delivered(env, fmt, h, LastLine(h.buf), call.out, call.hold, g', |LastLine(h.buf)|)
  {
    hide Inv, IngestAll, FlushAll, Output, Ready, ParsedLines, Stands, SameFrame, Ledgered, KeyInv, LawfulEnv;
    var lines, n := LastLine(h.buf), |h.st.frames|;
    var fedLedger := IngestAllKeeps(env, fmt, h.st, g, heard, lines);
    var fed := IngestAll(fmt, env.sc, env.window, h.st, lines).st;
    InvIsLedgered(env, fed, fedLedger, heard + Heard(fmt, lines));
    g' := FlushAllKeeps(env, fed, fedLedger, heard + Heard(fmt, lines), keys);
    var st := FlushAll(env.sc, env.window, fed, keys).st;
    StillPrefix(h.st.frames, fed.frames, st.frames);
    DrainedKeeps(fmt, h.st.frames, st, [], h.front);
    assert lines[..|lines|] == lines;
    InPlaceStill(fmt, env.sc, lines, fed.frames, st.frames, n);
  }

  lemma {:induction false} StillPrefix(a: seq<Frame>, b: seq<Frame>, c: seq<Frame>)
    requires |a| <= |b| && Still(a, b[..|a|]) && Still(b, c)
    ensures Still(a, c[..|a|])
  {
    forall i | 0 <= i < |a| ensures SameFrame(a[i], c[..|a|][i]) {
      assert SameFrame(a[i], b[..|a|][i]) && SameFrame(b[i], c[i]);
      SameFrameTwice(a[i], b[i], c[i]);
    }
  }

  lemma {:induction false} InPlaceStill(fmt: Format, sc: Scanner, lines: seq<Text>, a: seq<Frame>, b: seq<Frame>, from: nat)
    requires InPlace(fmt, sc, lines, a, from) && |a| <= |b| && Still(a, b[..|a|])
    ensures forall i | 0 <= i < |lines| :: Stands(fmt, sc, lines[i], b[from + i])
  {
    forall i | 0 <= i < |lines| ensures Stands(fmt, sc, lines[i], b[from + i]) {
      assert Stands(fmt, sc, lines[i], a[from + i]) && SameFrame(a[from + i], b[..|a|][from + i]);
      StandsStill(fmt, sc, lines[i], a[from + i], b[from + i]);
    }
  }

  /** From any point on, however the stream goes on and ends. */
  lemma {:induction false} DeliverSends(env: Env, fmt: Format, h: Hold, g: Ledger, heard: seq<Contribution>, chunks: seq<Text>, keys: seq<Key>)
    returns (g': Ledger, n: nat)
    requires HoldInv(env, h, g, heard) && ParsedLines(fmt, Lines.Records(h.buf + Concat(chunks)))
    ensures var d := Deliver(fmt, env.sc, env.window, h, chunks, keys); var lines := Lines.Records(h.buf + Concat(chunks));
            && Delivered(env, fmt, h, lines, d.out, d.last, g', n)
            && |h.st.frames| <= |d.last.st.frames| && Still(h.st.frames, d.last.st.frames[..|h.st.frames|])
            && (d.end.Finished? ==> n == |lines|)
            && (!d.end.Finished? ==> Inv(env, d.last.st, g', heard + Heard(fmt, lines[..n]), []))
    decreases |chunks|
  {
    hide Inv, HoldInv, Finish, PushText, ParsedLines, NoLine, Delivered, InPlace, Still, SamePrefix, Output,
         Lines.Records, Lines.Complete, Lines.Rest, Heard;
    var lines := Lines.Records(h.buf + Concat(chunks));
    if chunks == [] {
      g', n := LastCallSends(env, fmt, h, g, heard, keys);
      assert h.buf + Concat(chunks) == h.buf;
      assert NoLine(h.buf) by { HoldHasNoLine(env, h, g, heard); }
      LastRecord(h.buf);
    } else {
      var raw := h.buf + chunks[0];
      LinesAhead(h.buf, chunks);
      ParsedParts(fmt, Lines.Complete(raw), Lines.Records(Lines.Rest(raw) + Concat(chunks[1..])));
      var call := PushText(fmt, env.sc, env.window, h, chunks[0]);
      if call.Ended? {
        g', n := g, 0;
        NothingSent(env, fmt, h, g, heard, lines);
      } else {
        var mid := PushKeeps(env, fmt, h, g, heard, chunks[0]);
        HoldBuf(fmt, env.sc, env.window, h, chunks[0]);
        var first, rest := Lines.Complete(raw), Lines.Records(Lines.Rest(raw) + Concat(chunks[1..]));
        var k: nat;
        g', k := DeliverSends(env, fmt, call.hold, mid, heard + Heard(fmt, first), chunks[1..], keys);
        n := |first| + k;
        var later := Deliver(fmt, env.sc, env.window, call.hold, chunks[1..], keys);
        DeliveredCount(env, fmt, call.hold, rest, later.out, later.last, g', k);
        SentThen(env, fmt, h, call, first, rest, later, g', k);
        HeardThen(fmt, heard, first, rest, k);
      }
    }
  }

  lemma {:induction false} DeliveredCount(env: Env, fmt: Format, h: Hold, lines: seq<Text>, out: Text, last: Hold, g: Ledger, n: nat)
    requires Delivered(env, fmt, h, lines, out, last, g, n)
    ensures n <= |lines|
  {}

  lemma {:induction false} HoldHasNoLine(env: Env, h: Hold, g: Ledger, heard: seq<Contribution>)
    requires HoldInv(env, h, g, heard)
    ensures NoLine(h.buf)
  {}

  lemma {:induction false} HoldBuf(fmt: Format, sc: Scanner, window: nat, h: Hold, text: Text)
    requires PushText(fmt, sc, window, h, text).Sent?
    ensures PushText(fmt, sc, window, h, text).hold.buf == Lines.Rest(h.buf + text)
  {}

  lemma {:induction false} NothingSent(env: Env, fmt: Format, h: Hold, g: Ledger, heard: seq<Contribution>, lines: seq<Text>)
    requires HoldInv(env, h, g, heard)
    ensures Delivered(env, fmt, h, lines, [], h, g, 0)
    ensures Still(h.st.frames, h.st.frames[..|h.st.frames|])
    ensures Inv(env, h.st, g, heard + Heard(fmt, lines[..0]), [])
  {
    hide Inv, KeyInv, SameFrame;
    InvIsLedgered(env, h.st, g, heard);
    assert Output(fmt, h.st.frames, h.front, h.front) == [];
    assert heard + Heard(fmt, []) == heard && lines[..0] == [];
    forall i | 0 <= i < |h.st.frames| ensures SameFrame(h.st.frames[i], h.st.frames[i]) { Itself(h.st.frames[i]); }
  }

  lemma {:induction false} LastCallSends(env: Env, fmt: Format, h: Hold, g: Ledger, heard: seq<Contribution>, keys: seq<Key>)
    returns (g': Ledger, n: nat)
    requires HoldInv(env, h, g, heard) && ParsedLines(fmt, Lines.Records(h.buf + Concat([])))
    ensures var d := Deliver(fmt, env.sc, env.window, h, [], keys); var lines := LastLine(h.buf);
            && Delivered(env, fmt, h, lines, d.out, d.last, g', n)
            && |h.st.frames| <= |d.last.st.frames| && Still(h.st.frames, d.last.st.frames[..|h.st.frames|])
            && (d.end.Finished? ==> n == |lines|)
            && (!d.end.Finished? ==> Inv(env, d.last.st, g', heard + Heard(fmt, lines[..n]), []))
  {
    hide Inv, IngestAll, FlushAll, ParsedLines, Delivered, Lines.Records, SameFrame;
    assert h.buf + Concat([]) == h.buf;
    LastRecord(h.buf);
    var call := Finish(fmt, env.sc, env.window, h, keys);
    if call.Ended? {
      g', n := g, 0;
      NothingSent(env, fmt, h, g, heard, LastLine(h.buf));
    } else {
      g' := FinishKeeps(env, fmt, h, g, heard, keys);
      n := |LastLine(h.buf)|;
      FinishStill(env, fmt, h, g, heard, keys);
    }
  }

  lemma {:induction false} FinishStill(env: Env, fmt: Format, h: Hold, g: Ledger, heard: seq<Contribution>, keys: seq<Key>)
    requires HoldInv(env, h, g, heard) && ParsedLines(fmt, LastLine(h.buf))
    requires Finish(fmt, env.sc, env.window, h, keys).Sent?
    ensures var frames := Finish(fmt, env.sc, env.window, h, keys).hold.st.frames;
            |h.st.frames| <= |frames| && Still(h.st.frames, frames[..|h.st.frames|])
  {
    hide Inv, IngestAll, FlushAll, ParsedLines, Ledgered, KeyInv, LawfulEnv, SameFrame;
    var fedLedger := IngestAllKeeps(env, fmt, h.st, g, heard, LastLine(h.buf));
    var fed := IngestAll(fmt, env.sc, env.window, h.st, LastLine(h.buf)).st;
    InvIsLedgered(env, fed, fedLedger, heard + Heard(fmt, LastLine(h.buf)));
    var g' := FlushAllKeeps(env, fed, fedLedger, heard + Heard(fmt, LastLine(h.buf)), keys);
    StillPrefix(h.st.frames, fed.frames, FlushAll(env.sc, env.window, fed, keys).st.frames);
  }

  lemma {:induction false} HeardAppend(fmt: Format, a: seq<Text>, b: seq<Text>)
    ensures Heard(fmt, a + b) == Heard(fmt, a) + Heard(fmt, b)
  {
    if a == [] {
      assert a + b == b;
    } else {
      assert (a + b)[1..] == a[1..] + b;
      HeardAppend(fmt, a[1..], b);
      Assoc3(DeltaContents(ChunkOf(fmt, a[0])), Heard(fmt, a[1..]), Heard(fmt, b));
    }
  }

  lemma {:induction false} InPlaceJoin(fmt: Format, sc: Scanner, first: seq<Text>, rest: seq<Text>, b: seq<Frame>, c: seq<Frame>, from: nat)
    requires InPlace(fmt, sc, first, b, from) && |b| <= |c| && Still(b, c[..|b|])
    requires InPlace(fmt, sc, rest, c, |b|)
    ensures InPlace(fmt, sc, first + rest, c, from)
  {
    hide Stands, SameFrame;
    InPlaceStill(fmt, sc, first, b, c, from);
    var lines := first + rest;
    forall i | 0 <= i < |lines| ensures Stands(fmt, sc, lines[i], c[from + i]) {
      if i >= |first| { assert Stands(fmt, sc, rest[i - |first|], c[|b| + (i - |first|)]); }
    }
  }

  /** One call in front of the rest of the delivery. */
  lemma {:induction false} SentThen(env: Env, fmt: Format, h: Hold, call: Call, first: seq<Text>, rest: seq<Text>,
                                    later: Delivery, g: Ledger, k: nat)
    requires call.Sent? && h.front <= call.hold.front && SamePrefix(h.st.frames, call.hold.st.frames, h.front)
    requires call.out == Output(fmt, call.hold.st.frames, h.front, call.hold.front)
    requires InPlace(fmt, env.sc, first, call.hold.st.frames, |h.st.frames|)
    requires Still(h.st.frames, call.hold.st.frames[..|h.st.frames|])
    requires Delivered(env, fmt, call.hold, rest, later.out, later.last, g, k)
    requires |call.hold.st.frames| <= |later.last.st.frames|
    requires Still(call.hold.st.frames, later.last.st.frames[..|call.hold.st.frames|])
    ensures Delivered(env, fmt, h, first + rest, call.out + later.out, later.last, g, |first| + k)
    ensures |h.st.frames| <= |later.last.st.frames| && Still(h.st.frames, later.last.st.frames[..|h.st.frames|])
  {
    hide Output, ReadyTo, DrainTo, Ledgered, Still, InPlace;
    var a, b, c := h.st.frames, call.hold.st.frames, later.last.st.frames;
    PrefixTwice(a, b, c, h.front, call.hold.front);
    OutputSame(fmt, b, c, h.front, call.hold.front);
    OutputJoins(fmt, c, h.front, call.hold.front, later.last.front);
    InPlaceLength(fmt, env.sc, first, b, |a|);
    InPlaceJoin(fmt, env.sc, first, rest[..k], b, c, |a|);
    assert (first + rest)[..|first| + k] == first + rest[..k];
    StillThrough(a, b, c);
  }

  lemma {:induction false} InPlaceLength(fmt: Format, sc: Scanner, lines: seq<Text>, frames: seq<Frame>, from: nat)
    requires InPlace(fmt, sc, lines, frames, from)
    ensures |frames| == from + |lines|
  {}

  lemma {:induction false} HeardThen(fmt: Format, heard: seq<Contribution>, first: seq<Text>, rest: seq<Text>, k: nat)
    requires k <= |rest|
    ensures heard + Heard(fmt, (first + rest)[..|first| + k]) == heard + Heard(fmt, first) + Heard(fmt, rest[..k])
  {
    hide Heard;
    assert (first + rest)[..|first| + k] == first + rest[..k];
    HeardAppend(fmt, first, rest[..k]);
    Assoc3(heard, Heard(fmt, first), Heard(fmt, rest[..k]));
  }

  lemma {:induction false} StillThrough(a: seq<Frame>, b: seq<Frame>, c: seq<Frame>)
    requires |a| <= |b| <= |c| && Still(a, b[..|a|]) && Still(b, c[..|b|])
    ensures Still(a, c[..|a|])
  {
    forall i | 0 <= i < |a| ensures SameFrame(a[i], c[..|a|][i]) {
      assert SameFrame(a[i], b[..|a|][i]) && SameFrame(b[i], c[..|b|][i]);
      SameFrameTwice(a[i], b[i], c[i]);
    }
  }

  lemma {:induction false} FreshInv(env: Env)
    ensures HoldInv(env, Fresh, Blank, [])
  {
    StartInv(env);
  }

  // ---------- Main results ----------

  lemma {:induction false} EmptyHasNoLine()
    ensures NoLine([])
  {}

  /** For every completion, every scanner and every way of cutting the bytes: how the stream ends depends
    * on its text alone; the client has received the frames up to the first that still waits, in arrival
    * order, each once and as it finally stood; a frame sent stands for its line, and holds released text
    * only, if and only if a write reaches every field the line names. */
  lemma {:induction false} StreamDelivers(env: Env, fmt: Format, chunks: seq<Text>, keys: seq<Key>)
    requires ParsedLines(fmt, Lines.Records(Concat(chunks)))
    ensures var lines := Lines.Records(Concat(chunks));
            var d := Deliver(fmt, env.sc, env.window, Fresh, chunks, keys);
            var frames := d.last.st.frames;
            && d.end == EndOf(Whole(fmt, env.sc, env.window, lines, keys))
            && d.out == Output(fmt, frames, 0, DrainTo(frames, 0)) && d.last.front == DrainTo(frames, 0)
            && |frames| <= |lines| && (d.end.Finished? ==> |frames| == |lines|)
            && forall i | 0 <= i < d.last.front ::
                 Stands(fmt, env.sc, lines[i], frames[i]) && (AllWritten(frames[i]) <==> AllReachable(ChunkOf(fmt, lines[i])))
  {
    hide ParsedLines, Output, Ready, Lines.Records, Lines.Complete, Lines.Rest, Ledgered, Stands, AllWritten, AllReachable,
         Deliver, SameFrame, HoldInv, IngestAll, FlushAll, Inv;
    var lines := Lines.Records(Concat(chunks));
    assert [] + Concat(chunks) == Concat(chunks);
    EmptyHasNoLine();
    EndIgnoresChunking(fmt, env.sc, env.window, Fresh, chunks, keys);
    FreshInv(env);
    var g, n := DeliverSends(env, fmt, Fresh, Blank, [], chunks, keys);
    var last := Deliver(fmt, env.sc, env.window, Fresh, chunks, keys).last;
    var frames := last.st.frames;
    FrontIsDrainTo(frames, 0, last.front);
    ParsedTake(fmt, lines, n);
    forall i | 0 <= i < last.front
      ensures Stands(fmt, env.sc, lines[i], frames[i]) && (AllWritten(frames[i]) <==> AllReachable(ChunkOf(fmt, lines[i])))
    {
      LedgerWrittenIff(env.sc, fmt, last.st, g, lines[..n], i);
      assert Ready(frames[i]) && Stands(fmt, env.sc, lines[..n][i], frames[0 + i]);
    }
  }

  lemma {:induction false} ParsedTake(fmt: Format, lines: seq<Text>, n: nat)
    requires ParsedLines(fmt, lines) && n <= |lines|
    ensures ParsedLines(fmt, lines[..n])
  {
    assert lines == lines[..n] + lines[n..];
    ParsedParts(fmt, lines[..n], lines[n..]);
  }

  /** A stream that finishes sends every line, if and only if no field is mute. */
  lemma {:induction false} EveryLineIsSentIff(env: Env, fmt: Format, chunks: seq<Text>, keys: seq<Key>)
    requires LawfulEnv(env) && ParsedLines(fmt, Lines.Records(Concat(chunks)))
    requires ListsRedactors(fmt, env.sc, env.window, Lines.Records(Concat(chunks)), keys)
    requires Deliver(fmt, env.sc, env.window, Fresh, chunks, keys).end.Finished?
    ensures var lines := Lines.Records(Concat(chunks));
            Deliver(fmt, env.sc, env.window, Fresh, chunks, keys).last.front == |lines| <==> NoneMute(env.window, Heard(fmt, lines))
  {
    hide ParsedLines, Output, Ready, Lines.Records, Lines.Complete, Lines.Rest, Stands, AllWritten, AllReachable, Deliver,
         IngestAll, FlushAll, LawfulEnv, ListsRedactors, NoneMute;
    var lines := Lines.Records(Concat(chunks));
    assert [] + Concat(chunks) == Concat(chunks);
    EmptyHasNoLine();
    EndIgnoresChunking(fmt, env.sc, env.window, Fresh, chunks, keys);
    StreamDelivers(env, fmt, chunks, keys);
    var frames := Whole(fmt, env.sc, env.window, lines, keys).st.frames;
    EveryLineLeavesIff(env, fmt, lines, keys);
    assert DrainTo(frames, 0) == |frames| <==> AllReady(frames);
  }

  // ---------- What the client reads ----------

  ghost predicate SameTexts(a: seq<Slot>, b: seq<Slot>) {
    |a| == |b| && forall j | 0 <= j < |a| :: a[j].key == b[j].key && a[j].value.text == b[j].value.text
  }

  /** A chunk written back is read as a chunk with the same fields and texts. */
  ghost predicate ReadsBackAt(fmt: Format, line: Text, chunk: Chunk) {
    fmt.classify(line).Data? ==>
      var back := fmt.classify(fmt.render(line, chunk));
      back.Data? && SameTexts(Slots(back.chunk), Slots(chunk))
  }

  ghost predicate ReadsBack(fmt: Format) { forall line: Text, chunk: Chunk :: ReadsBackAt(fmt, line, chunk) }

  /** What is sent for a line: the line itself; what the scanner made of it; or, for a chunk, one that reads
    * with the texts the frame holds. */
  ghost predicate SentFor(fmt: Format, sc: Scanner, line: Text, f: Frame, sent: Text) {
    match fmt.classify(line)
    case Passthrough => sent == line
    case Unparseable => sc.scan(line).Some? && !sc.scan(line).value.Blocked? && sent == TextOf(sc.scan(line).value, line)
    case Data(_) => fmt.classify(sent).Data? && SameTexts(Slots(fmt.classify(sent).chunk), Slots(f.chunk))
  }

  lemma {:induction false} RenderedFor(fmt: Format, sc: Scanner, line: Text, f: Frame)
    requires ReadsBack(fmt) && Stands(fmt, sc, line, f)
    ensures SentFor(fmt, sc, line, f, Rendered(fmt, f))
  {
    assert ReadsBackAt(fmt, line, f.chunk);
  }

  function SentPieces(fmt: Format, frames: seq<Frame>, from: nat, to: nat): seq<Text>
    requires from <= to <= |frames|
  {
    seq(to - from, i requires 0 <= i < to - from => Rendered(fmt, frames[from + i]))
  }

  lemma {:induction false} OutputIsSent(fmt: Format, frames: seq<Frame>, from: nat, to: nat)
    requires from <= to <= |frames|
    ensures Output(fmt, frames, from, to) == Concat(SentPieces(fmt, frames, from, to))
    decreases if from <= to then to - from else 0
  {
    hide Rendered;
    if from < to {
      OutputIsSent(fmt, frames, from + 1, to);
      assert SentPieces(fmt, frames, from, to) == [Rendered(fmt, frames[from])] + SentPieces(fmt, frames, from + 1, to);
      assert SentPieces(fmt, frames, from, to)[1..] == SentPieces(fmt, frames, from + 1, to);
    }
  }

  /** Line by line: what the client has received is, for each line up to the first that waits, that line, its
    * scanned form, or a chunk that reads as its frame stands: with released text where a write reaches, and
    * elsewhere the text that came. */
  lemma {:induction false} ClientReads(env: Env, fmt: Format, chunks: seq<Text>, keys: seq<Key>) returns (sent: seq<Text>)
    requires ReadsBack(fmt) && ParsedLines(fmt, Lines.Records(Concat(chunks)))
    ensures var lines := Lines.Records(Concat(chunks));
            var d := Deliver(fmt, env.sc, env.window, Fresh, chunks, keys);
            var frames := d.last.st.frames;
            && d.out == Concat(sent) && |sent| == DrainTo(frames, 0) <= |lines| && |sent| <= |frames|
            && forall i | 0 <= i < |sent| ::
                 && SentFor(fmt, env.sc, lines[i], frames[i], sent[i])
                 && (AllReachable(ChunkOf(fmt, lines[i])) <==> AllWritten(frames[i]))
  {
    hide ParsedLines, Ready, Lines.Records, Lines.Complete, Lines.Rest, Stands, AllWritten, AllReachable, Deliver, Rendered, SentFor, ReadsBack;
    StreamDelivers(env, fmt, chunks, keys);
    var frames := Deliver(fmt, env.sc, env.window, Fresh, chunks, keys).last.st.frames;
    var lines, front := Lines.Records(Concat(chunks)), DrainTo(frames, 0);
    OutputIsSent(fmt, frames, 0, front);
    sent := SentPieces(fmt, frames, 0, front);
    forall i | 0 <= i < front ensures SentFor(fmt, env.sc, lines[i], frames[i], sent[i]) {
      RenderedFor(fmt, env.sc, lines[i], frames[i]);
    }
  }

  /** The mute case, whatever the scanner: a body of one line whose only field is empty text is accepted,
    * flushed, and never sent. */
  lemma {:induction false} MuteLineNeverLeaves(fmt: Format, sc: Scanner, window: nat, line: Text, index: nat)
    requires fmt.classify(line) == Data([Choice(index, Some(Value([], false)), [])])
    ensures var end := Whole(fmt, sc, window, [line], [Key(index, Content)]);
            end.Going? && |end.st.frames| == 1 && DrainTo(end.st.frames, 0) == 0
  {
    var chunk, key := [Choice(index, Some(Value([], false)), [])], Key(index, Content);
    assert chunk[1..] == [] && Slots(chunk) == [Slot(key, Value([], false), true)] + SlotsFrom([], {} + {index});
    var cs := DeltaContents(chunk);
    assert cs == [Contribution(key, [])] && cs[1..] == [];
    var added := AddFrame(Start, DataFrame(line, chunk));
    OneLine(fmt, sc, window, Start, line);
    var fed := Contribute(sc, window, added, cs[0]);
    assert fed.Going? && fed.st.frames[0].waiting == 1;
    assert ContributeAll(sc, window, fed.st, cs[1..]) == fed;
    assert Ingest(fmt, sc, window, Start, line) == fed;
    assert fed.st.fields[key := fed.st.fields[key]] == fed.st.fields;
    assert FlushKey(sc, window, fed.st, key) == fed;
    assert [key][1..] == [];
    assert FlushAll(sc, window, fed.st, [key]) == fed;
  }

  // ---------- The object ----------

  datatype Emit = Nothing | Release(text: Text) | BlockedBy(entities: set<Entity>)

  datatype Progress = Continue | Halt(entities: set<Entity>) | Fail

  /** `e` and, while it continues, the new state are what `o` says. */
  predicate Agrees(o: Outcome, e: Progress, st: State) {
    match o
    case Going(next) => e == Continue && st == next
    case Stopped(entities) => e == Halt(entities)
    case Failed => e == Fail
  }

  predicate Distinct(keys: seq<Key>) { forall i, j | 0 <= i < j < |keys| :: keys[i] != keys[j] }

  class Redactor {
    const fmt: Format
    const sc: Scanner
    const window: nat
    var lineBuf: Text
    var frames: seq<Frame>
    var front: nat
    var fields: map<Key, F.Field>
    var unparsed: nat
    var blocked: bool

    function Model(): State
      reads this
    {
      State(frames, fields, unparsed)
    }

    function Held(): Hold
      reads this
    {
      Hold(lineBuf, Model(), front)
    }

    constructor (fmt: Format, sc: Scanner, window: nat)
      ensures this.fmt == fmt && this.sc == sc && this.window == window
      ensures Held() == Fresh && !blocked
    {
      this.fmt, this.sc, this.window := fmt, sc, window;
      lineBuf, frames, front, fields, unparsed, blocked := [], [], 0, map[], 0, false;
    }

    method ApplyRelease(key: Key, text: Text, ids: seq<nat>)
      modifies this`frames
      ensures frames == Apply(old(frames), key, ids, Batch(text, |ids|))
    {
      ghost var texts := Batch(text, |ids|);
      assert ids[0..] == ids && texts[0..] == texts;
      for i := 0 to |ids|
        invariant Apply(frames, key, ids[i..], texts[i..]) == Apply(old(frames), key, ids, texts)
      {
        var replacement := if i == 0 then text else [];
        assert ids[i..][1..] == ids[i + 1..] && texts[i..][1..] == texts[i + 1..];
        frames := SettleFrame(frames, ids[i], key, replacement);
      }
    }

    method Take(key: Key, step: F.Stepped) returns (e: Progress)
      modifies this`frames, this`fields
      ensures Agrees(Absorb(old(Model()), key, step), e, Model())
    {
      fields := fields[key := step.field];
      match step.push {
        case None => e := Fail;
        case Some(BlockedBy(entities)) => e := Halt(entities);
        case Some(Nothing) => e := Continue;
        case Some(Release(text, ids)) =>
          ApplyRelease(key, text, ids);
          e := Continue;
      }
    }

    method IngestLine(line: Text) returns (e: Progress)
      modifies this`frames, this`fields, this`unparsed
      ensures Agrees(Ingest(fmt, sc, window, old(Model()), line), e, Model())
    {
      match fmt.classify(line) {
        case Passthrough =>
          frames := frames + [RawFrame(line)];
          e := Continue;
        case Unparseable =>
          var verdict := sc.scan(line);
          if verdict.None? { return Fail; }
          if verdict.value.Blocked? { return Halt(verdict.value.entities); }
          unparsed := unparsed + CountOf(verdict.value);
          frames := frames + [RawFrame(TextOf(verdict.value, line))];
          e := Continue;
        case Data(chunk) =>
          var cs := DeltaContents(chunk);
          frames := frames + [DataFrame(line, chunk)];
          ghost var goal := ContributeAll(sc, window, Model(), cs);
          assert cs[0..] == cs;
          for i := 0 to |cs|
            invariant frames != [] && ContributeAll(sc, window, Model(), cs[i..]) == goal
          {
            var c := cs[i];
            assert cs[i..][1..] == cs[i + 1..];
            var step := F.Advance(sc, window, F.Pushed(FieldAt(Model(), c.key), |frames| - 1, c.text), false);
            e := Take(c.key, step);
            if e != Continue { return; }
          }
          e := Continue;
      }
    }

    method DrainReady() returns (out: Text)
      modifies this`front
      ensures front == DrainTo(frames, old(front))
      ensures out == Output(fmt, frames, old(front), front)
    {
      out := [];
      while front < |frames| && Ready(frames[front])
        invariant old(front) <= front && DrainTo(frames, front) == DrainTo(frames, old(front))
        invariant out == Output(fmt, frames, old(front), front)
        decreases |frames| - front
      {
        OutputSnoc(fmt, frames, old(front), front);
        out := out + Rendered(fmt, frames[front]);
        front := front + 1;
      }
    }

    method Blocking(entities: set<Entity>) returns (emit: Option<Emit>)
      modifies this
      ensures blocked && frames == [] && fields == map[] && lineBuf == [] && front == 0
      ensures emit == Some(BlockedBy(entities))
    {
      blocked, frames, fields, lineBuf, front := true, [], map[], [], 0;
      emit := Some(BlockedBy(entities));
    }

    /** Once blocked, nothing more is sent. A call that completes sends what `PushText` says. */
    method Push(text: Text) returns (emit: Option<Emit>)
      modifies this
      ensures old(blocked) ==> emit == Some(Nothing) && blocked && Held() == old(Held())
      ensures !old(blocked) ==>
        match IngestAll(fmt, sc, window, old(Model()), Lines.Complete(old(lineBuf) + text))
        case Going(_) =>
          var sent := PushText(fmt, sc, window, old(Held()), text);
          !blocked && sent.Sent? && Held() == sent.hold && emit == Some(Emitted(sent.out))
        case Stopped(entities) => Closed(emit, entities)
        case Failed => emit == None
    {
      if blocked { return Some(Nothing); }
      lineBuf := lineBuf + text;
      ghost var raw := lineBuf;
      ghost var goal := IngestAll(fmt, sc, window, Model(), Lines.Complete(raw));
      while Lines.Newline in lineBuf
        invariant !blocked && front == old(front)
        invariant Lines.Rest(lineBuf) == Lines.Rest(raw)
        invariant IngestAll(fmt, sc, window, Model(), Lines.Complete(lineBuf)) == goal
        decreases |lineBuf|
      {
        FirstCompleteLine(lineBuf);
        var end := Lines.LineEnd(lineBuf, 0);
        var line := lineBuf[..end];
        lineBuf := lineBuf[end..];
        var e := IngestLine(line);
        if e.Halt? {
          emit := Blocking(e.entities);
          return;
        }
        if e.Fail? { return None; }
      }
      NoCompleteLine(lineBuf);
      var out := DrainReady();
      emit := Some(Emitted(out));
    }

    /** `order` is the order in which the redactors were flushed: any order of the keys there are, up
      * to one that blocks or fails. */
    method Flush() returns (emit: Option<Emit>, ghost order: seq<Key>)
      modifies this
      ensures Distinct(order)
      ensures old(blocked) ==> emit == Some(Nothing) && blocked && Held() == old(Held())
      ensures !old(blocked) ==>
        match IngestAll(fmt, sc, window, old(Model()), LastLine(old(lineBuf)))
        case Stopped(entities) => Closed(emit, entities)
        case Failed => emit == None
        case Going(fed) =>
          (match FlushAll(sc, window, fed, order)
           case Stopped(entities) => Closed(emit, entities)
           case Failed => emit == None
           case Going(_) =>
             var sent := Finish(fmt, sc, window, old(Held()), order);
             && sent.Sent?
             && (forall key :: key in order <==> key in fed.fields)
             && !blocked && Held() == sent.hold && emit == Some(Emitted(sent.out)))
    {
      hide FlushKey, Ingest, Output, DrainTo;
      order := [];
      if blocked { return Some(Nothing), []; }
      if lineBuf != [] {
        var line := lineBuf;
        lineBuf := [];
        OneLine(fmt, sc, window, Model(), line);
        var e := IngestLine(line);
        if e.Halt? {
          emit := Blocking(e.entities);
          return;
        }
        if e.Fail? { return None, []; }
      }
      ghost var start := Model();
      var left := fields.Keys;
      while left != {}
        invariant !blocked && front == old(front) && lineBuf == [] && Distinct(order)
        invariant forall key :: key in order <==> key in start.fields && key !in left
        invariant forall key :: key in left ==> key in start.fields
        invariant FlushAll(sc, window, start, order) == Going(Model())
        decreases |left|
      {
        var key :| key in left;
        FlushAllSnoc(sc, window, start, order, key);
        var e := FlushOne(key);
        left := left - {key};
        order := order + [key];
        if e.Halt? {
          emit := Blocking(e.entities);
          return;
        }
        if e.Fail? { return None, order; }
      }
      var out := DrainReady();
      emit := Some(Emitted(out));
    }

    /** The block has been announced and everything held is gone. */
    predicate Closed(emit: Option<Emit>, entities: set<Entity>)
      reads this
    {
      emit == Some(BlockedBy(entities)) && blocked && frames == [] && fields == map[] && lineBuf == []
    }

    method FlushOne(key: Key) returns (e: Progress)
      modifies this`frames, this`fields
      ensures Agrees(FlushKey(sc, window, old(Model()), key), e, Model())
    {
      e := Continue;
      ghost var goal := FlushKey(sc, window, Model(), key);
      while true
        invariant e == Continue && FlushKey(sc, window, Model(), key) == goal
        decreases |FieldAt(Model(), key).pending|
      {
        var step := F.Advance(sc, window, FieldAt(Model(), key), true);
        e := Take(key, step);
        if e != Continue || step.push.value.Nothing? { return; }
      }
    }
  }

  function Emitted(out: Text): Emit { if out == [] then Nothing else Release(out) }

  lemma {:induction false} OutputSnoc(fmt: Format, frames: seq<Frame>, from: nat, to: nat)
    requires from <= to < |frames|
    ensures Output(fmt, frames, from, to + 1) == Output(fmt, frames, from, to) + Rendered(fmt, frames[to])
  {
    OutputJoins(fmt, frames, from, to, to + 1);
    assert Output(fmt, frames, to + 1, to + 1) == [];
  }

  lemma {:induction false} FirstCompleteLine(raw: Text)
    requires Lines.Newline in raw
    ensures var end := Lines.LineEnd(raw, 0);
            && 0 < end <= |raw|
            && Lines.Complete(raw) == [raw[..end]] + Lines.Complete(raw[end..])
            && Lines.Rest(raw) == Lines.Rest(raw[end..])
  {}

  lemma {:induction false} NoCompleteLine(raw: Text)
    requires Lines.Newline !in raw
    ensures Lines.Complete(raw) == [] && Lines.Rest(raw) == raw
  {}

  lemma {:induction false} OneLine(fmt: Format, sc: Scanner, window: nat, st: State, line: Text)
    ensures IngestAll(fmt, sc, window, st, [line]) == Ingest(fmt, sc, window, st, line)
  {
    assert [line][1..] == [];
  }

  lemma {:induction false} FlushAllSnoc(sc: Scanner, window: nat, st: State, keys: seq<Key>, key: Key)
    requires FlushAll(sc, window, st, keys).Going?
    ensures FlushAll(sc, window, st, keys + [key]) == FlushKey(sc, window, FlushAll(sc, window, st, keys).st, key)
    decreases |keys|
  {
    hide FlushKey;
    if keys == [] {
      assert keys + [key] == [key] && [key][1..] == [];
    } else {
      assert (keys + [key])[1..] == keys[1..] + [key];
      FlushAllSnoc(sc, window, FlushKey(sc, window, st, keys[0]).st, keys[1..], key);
    }
  }
}
