/** The gateway's streaming loop over the scanner it is given: the redactor of SSE completions. Exactly
  * when a client is told that its stream was blocked (app/redact-gateway/src/proxy.rs,
  * crates/governance-redact/src/sse/mod.rs). */
module GatewaySse {
  import opened Common
  import opened RedactEngine
  import SseChunk
  import opened SseFrames
  import opened SseDelivery
  import G = GatewayStream
  import H = SseHoldBack
  import Lines
  import Utf8

  // ---------- The redactor as a scanner ----------

  /** Once it has blocked, the redactor answers "nothing" to every call. */
  datatype Machine = Live(hold: Hold) | Latched

  /** `order` is the order in which redactors are flushed; `mend` is what a call that fails leaves behind. */
  datatype Parts = Parts(fmt: Format, sc: Scanner, window: nat, order: State -> seq<SseChunk.Key>, mend: (Hold, Text) -> Machine)

  function Sending(out: Text): G.Emit { if out == [] then G.Nothing else G.Release(out) }

  /** What a call makes of the redactor, and its answer. */
  function Answered(p: Parts, h: Hold, text: Text, call: Call): (Machine, Option<G.Emit>) {
    match call
    case Sent(hold, out) => (Live(hold), Some(Sending(out)))
    case Ended(Halted(entities)) => (Latched, Some(G.BlockedBy(entities)))
    case Ended(_) => (p.mend(h, text), None)
  }

  function Push(p: Parts, m: Machine, text: Text): (Machine, Option<G.Emit>) {
    match m
    case Latched => (Latched, Some(G.Nothing))
    case Live(h) => Answered(p, h, text, PushText(p.fmt, p.sc, p.window, h, text))
  }

  function Flush(p: Parts, m: Machine): (Machine, Option<G.Emit>) {
    match m
    case Latched => (Latched, Some(G.Nothing))
    case Live(h) =>
      var fed := IngestAll(p.fmt, p.sc, p.window, h.st, LastLine(h.buf));
      Answered(p, h, [], Finish(p.fmt, p.sc, p.window, h, if fed.Going? then p.order(fed.st) else []))
  }

  function ScannerFor(p: Parts): G.Scanner<Machine> {
    G.Scanner(Live(Fresh), (m, text) => Push(p, m, text), m => Flush(p, m))
  }

  // ---------- What the text leads to ----------

  /** Taking in the complete lines of a text. */
  function Fed(p: Parts, text: Text): Outcome { IngestAll(p.fmt, p.sc, p.window, Start, Lines.Complete(text)) }

  /** Taking in a text that ends there, and flushing. */
  function Concluding(p: Parts, text: Text): Outcome {
    var fed := IngestAll(p.fmt, p.sc, p.window, Start, Lines.Records(text));
    if fed.Going? then FlushAll(p.sc, p.window, fed.st, p.order(fed.st)) else fed
  }

  /** The redactor stands where the text it was given leads. */
  ghost predicate Follows(p: Parts, m: Machine, text: Text) {
    match m
    case Latched => Fed(p, text).Stopped?
    case Live(h) => Fed(p, text) == Going(h.st) && h.buf == Lines.Rest(text)
  }

  lemma {:induction false} FedMore(p: Parts, a: Text, b: Text)
    ensures Fed(p, a + b) == if Fed(p, a).Going? then IngestAll(p.fmt, p.sc, p.window, Fed(p, a).st, Lines.Complete(Lines.Rest(a) + b)) else Fed(p, a)
  {
    hide IngestAll, Lines.Complete, Lines.Rest;
    Lines.CompleteAppend(a, b);
    IngestAllAppend(p.fmt, p.sc, p.window, Start, Lines.Complete(a), Lines.Complete(Lines.Rest(a) + b));
  }

  /** A push, told by the whole text so far. */
  lemma {:induction false} PushFollows(p: Parts, m: Machine, text: Text, more: Text)
    requires Follows(p, m, text)
    ensures var (m', r) := Push(p, m, more); var now := Fed(p, text + more);
            && (!now.Failed? ==> Follows(p, m', text + more))
            && (now.Going? ==> r.Some? && !r.value.BlockedBy?)
            && (!now.Going? && m.Live? ==> r == if now.Stopped? then Some(G.BlockedBy(now.entities)) else None)
            && (m.Latched? ==> now.Stopped? && m' == Latched && r == Some(G.Nothing))
            && (m'.Live? && !now.Failed? ==> now.Going?)
  {
    hide IngestAll, Output, DrainTo, Lines.Complete, Lines.Rest;
    FedMore(p, text, more);
    Lines.CompleteAppend(text, more);
  }

  /** The flush, told by the whole text. */
  lemma {:induction false} FlushFollows(p: Parts, m: Machine, text: Text)
    requires Follows(p, m, text)
    ensures var r := Flush(p, m).1; var end := Concluding(p, text);
            && (m.Live? ==>
                  match end
                  case Going(_) => r.Some? && !r.value.BlockedBy?
                  case Stopped(entities) => r == Some(G.BlockedBy(entities))
                  case Failed => r == None)
            && (m.Latched? ==> r == Some(G.Nothing))
  {
    hide IngestAll, FlushAll, Output, DrainTo, Lines.Complete, Lines.Rest, Lines.Records;
    if m.Live? {
      Lines.CompleteThenRest(text);
      IngestAllAppend(p.fmt, p.sc, p.window, Start, Lines.Complete(text), LastLine(m.hold.buf));
    }
  }

  // ---------- What the events lead to ----------

  /** The text decoded from the first `n` events. */
  function Came(events: seq<G.Event>, n: nat): Text
    requires n <= |events|
  {
    var body := G.Body(events[..n]);
    body[..Utf8.Scan(body).validUpTo]
  }

  /** The first `n` events end on a character boundary. */
  predicate OnBoundary(events: seq<G.Event>, n: nat)
    requires n <= |events|
  {
    Utf8.Scan(G.Body(events[..n])).status.Clean?
  }

  /** The first `n` events complete a line that the redactor does not take, and no fewer do. */
  ghost predicate EndsAt(p: Parts, events: seq<G.Event>, n: nat) {
    n <= |events| && !Fed(p, Came(events, n)).Going? && forall j: nat :: j < n ==> Fed(p, Came(events, j)).Going?
  }

  ghost predicate Hopeful(cfg: G.Config, events: seq<G.Event>, n: nat)
    requires n <= |events|
  {
    !G.Hopeless(cfg, events[..n])
  }

  /** No engine failure falls on a chunk that ends inside a character, where it is thrown away. */
  ghost predicate NoFailureDropped(p: Parts, cfg: G.Config, events: seq<G.Event>) {
    forall n: nat :: EndsAt(p, events, n) && Hopeful(cfg, events, n) && Fed(p, Came(events, n)).Failed? ==> OnBoundary(events, n)
  }

  lemma {:induction false} CameGrows(events: seq<G.Event>, n: nat, m: nat)
    requires n <= m <= |events|
    ensures Came(events, n) <= Came(events, m)
  {
    hide Utf8.Scan, G.Body;
    var before, after := G.Body(events[..n]), G.Body(events[n..m]);
    assert events[..m] == events[..n] + events[n..m];
    G.BodyAppend(events[..n], events[n..m]);
    Utf8.ScanAppend(before, after);
  }

  lemma {:induction false} FedStays(p: Parts, events: seq<G.Event>, n: nat, m: nat)
    requires n <= m <= |events| && !Fed(p, Came(events, n)).Going?
    ensures Fed(p, Came(events, m)) == Fed(p, Came(events, n))
  {
    hide Came, Fed;
    CameGrows(events, n, m);
    var a, b := Came(events, n), Came(events, m);
    assert b == a + b[|a|..];
    FedMore(p, a, b[|a|..]);
  }

  lemma {:induction false} BooksAreTheText(cfg: G.Config, calls: seq<G.Call>, taken: seq<Utf8.Bytes>, carry: Utf8.Bytes, total: nat,
                                           events: seq<G.Event>, n: nat)
    requires n <= |events| && G.Books(cfg, calls, taken, carry, total, events[..n])
    ensures G.Texts(calls) == Came(events, n) && Hopeful(cfg, events, n) && (OnBoundary(events, n) <==> carry == [])
  {
    hide Utf8.Scan, G.Texts, Utf8.IsCarry;
    G.BodyOfTaken(taken, events[..n]);
  }

  // ---------- The run ----------

  /** Still running after `n` events: whatever has blocked was thrown away. */
  ghost predicate Running(p: Parts, cfg: G.Config, st: G.State<Machine>, events: seq<G.Event>, n: nat) {
    && n <= |events| && G.Inv(cfg, ScannerFor(p), st, events[..n]) && Follows(p, st.scanner, Came(events, n))
    && (st.scanner.Latched? ==> SomeDropped(p, events, n))
  }

  ghost predicate SomeDropped(p: Parts, events: seq<G.Event>, n: nat) { exists k: nat :: DroppedAt(p, events, n, k) }

  /** A block among the first `n` events, on a chunk that ends inside a character. */
  ghost predicate DroppedAt(p: Parts, events: seq<G.Event>, n: nat, k: nat) {
    k <= n && EndsAt(p, events, k) && Fed(p, Came(events, k)).Stopped? && !OnBoundary(events, k)
  }

  /** The last thing sent. */
  ghost predicate Says(st: G.State<Machine>, f: G.Frame) { st.sent != [] && st.sent[|st.sent| - 1] == f }

  /** Stopped by event `n - 1`: by the first line not taken, on a boundary, or by the upstream itself. */
  ghost predicate StoppedAt(p: Parts, cfg: G.Config, st: G.State<Machine>, events: seq<G.Event>, n: nat) {
    && n <= |events| && st.stopped && st.sent != []
    && (|| (EndsAt(p, events, n) && Hopeful(cfg, events, n) && OnBoundary(events, n)
            && (if Fed(p, Came(events, n)).Stopped? then Says(st, G.BlockedEvent(Fed(p, Came(events, n)).entities)) else ErrorLast(st)))
        || (!Hopeful(cfg, events, n) && ErrorLast(st)
            && forall k: nat :: k < n && EndsAt(p, events, k) ==> DroppedAt(p, events, n, k)))
  }

  ghost predicate ErrorLast(st: G.State<Machine>) { st.sent != [] && st.sent[|st.sent| - 1].ErrorEvent? }

  lemma {:induction false} OneEnd(p: Parts, events: seq<G.Event>, a: nat, b: nat)
    requires EndsAt(p, events, a) && EndsAt(p, events, b)
    ensures a == b
  {
    hide Fed, Came;
  }

  /** While the run goes on, the only line not taken so far was thrown away. */
  lemma {:induction false} EndsWereDropped(p: Parts, cfg: G.Config, st: G.State<Machine>, events: seq<G.Event>, n: nat)
    requires Running(p, cfg, st, events, n)
    ensures forall k: nat :: k <= n && EndsAt(p, events, k) ==> DroppedAt(p, events, n, k) && st.scanner.Latched?
  {
    hide Fed, Came, OnBoundary, G.Inv;
    forall k: nat | k <= n && EndsAt(p, events, k) ensures DroppedAt(p, events, n, k) && st.scanner.Latched? {
      FedStays(p, events, k, n);
      var j: nat :| DroppedAt(p, events, n, j);
      OneEnd(p, events, j, k);
    }
  }

  /** The first line not taken is completed now. */
  lemma {:induction false} EndsNow(p: Parts, events: seq<G.Event>, n: nat)
    requires n < |events| && Fed(p, Came(events, n)).Going? && !Fed(p, Came(events, n + 1)).Going?
    ensures EndsAt(p, events, n + 1)
  {
    hide Fed, Came;
    forall j: nat | j < n + 1 ensures Fed(p, Came(events, j)).Going? {
      if !Fed(p, Came(events, j)).Going? { FedStays(p, events, j, n); }
    }
  }

  lemma {:induction false} FirstMore(events: seq<G.Event>, n: nat)
    requires n < |events|
    ensures events[..n + 1] == events[..n] + [events[n]]
  {}

  /** A chunk that is decoded: what was there, what the redactor is given, and what came. */
  lemma {:induction false} ChunkComes(cfg: G.Config, calls: seq<G.Call>, taken: seq<Utf8.Bytes>, carry: Utf8.Bytes, total: nat,
                                      events: seq<G.Event>, n: nat)
    requires n < |events| && events[n].Chunk? && G.Books(cfg, calls, taken, carry, total, events[..n])
    requires total + |events[n].bytes| <= cfg.maxBodyBytes && Utf8.DecodeStep(carry, events[n].bytes).0.Some?
    ensures var decoded := Utf8.DecodeStep(carry, events[n].bytes).0.value;
            && Came(events, n + 1) == Came(events, n) + decoded.0
            && Hopeful(cfg, events, n + 1) && (OnBoundary(events, n + 1) <==> !decoded.1)
  {
    hide Utf8.DecodeStep, G.Books, G.Texts, Came, OnBoundary, Hopeful;
    var chunk := events[n].bytes;
    var (decoded, carry') := Utf8.DecodeStep(carry, chunk);
    FirstMore(events, n);
    var c := G.Call(decoded.value.0, None, true);
    G.TextsSnoc(calls, c);
    G.BooksStep(cfg, calls, taken, carry, total, events[..n], chunk, calls + [c]);
    BooksAreTheText(cfg, calls, taken, carry, total, events, n);
    BooksAreTheText(cfg, calls + [c], taken + [chunk], carry', total + |chunk|, events, n + 1);
    CarryIsIt(cfg, calls, taken, carry, total, events[..n], chunk);
  }

  lemma {:induction false} CarryIsIt(cfg: G.Config, calls: seq<G.Call>, taken: seq<Utf8.Bytes>, carry: Utf8.Bytes, total: nat,
                                     seen: seq<G.Event>, chunk: Utf8.Bytes)
    requires G.Books(cfg, calls, taken, carry, total, seen) && Utf8.DecodeStep(carry, chunk).0.Some?
    ensures var (decoded, carry') := Utf8.DecodeStep(carry, chunk); decoded.value.1 <==> carry' != []
  {
    hide Utf8.DecodeStep;
    Utf8.DecodeStepSplits(carry, chunk);
  }

  lemma {:induction false} InvHasBooks(p: Parts, cfg: G.Config, st: G.State<Machine>, seen: seq<G.Event>)
    requires G.Inv(cfg, ScannerFor(p), st, seen)
    ensures !st.passthrough && G.Books(cfg, st.calls, st.taken, st.carry, st.total, seen)
  {}

  /** A decoded chunk moves the run on, or the first line not taken stops it. */
  lemma {:induction false} ChunkStep(p: Parts, cfg: G.Config, st: G.State<Machine>, events: seq<G.Event>, n: nat)
    requires cfg.failClosed && NoFailureDropped(p, cfg, events)
    requires Running(p, cfg, st, events, n) && !st.stopped && n < |events| && events[n].Chunk?
    requires st.total + |events[n].bytes| <= cfg.maxBodyBytes && Utf8.DecodeStep(st.carry, events[n].bytes).0.Some?
    ensures var st' := G.OnEvent(cfg, ScannerFor(p), st, events[n]);
            if st'.stopped then StoppedAt(p, cfg, st', events, n + 1)
            else Follows(p, st'.scanner, Came(events, n + 1)) && (st'.scanner.Latched? ==> SomeDropped(p, events, n + 1))
  {
    hide Utf8.DecodeStep, G.Inv, G.Books, Came, Fed, OnBoundary, Hopeful, Push;
    InvHasBooks(p, cfg, st, events[..n]);
    ChunkComes(cfg, st.calls, st.taken, st.carry, st.total, events, n);
    var text, before, after := Utf8.DecodeStep(st.carry, events[n].bytes).0.value.0, Came(events, n), Came(events, n + 1);
    PushFollows(p, st.scanner, before, text);
    if text == [] { assert before + text == before && after == before; }
    if st.scanner.Latched? {
      var k: nat :| DroppedAt(p, events, n, k);
      assert DroppedAt(p, events, n + 1, k);
    } else if !Fed(p, after).Going? {
      EndsNow(p, events, n);
      LineStops(p, cfg, st, events, n);
    } else {
      LineGoes(p, cfg, st, events, n);
    }
  }

  lemma {:induction false} LineGoes(p: Parts, cfg: G.Config, st: G.State<Machine>, events: seq<G.Event>, n: nat)
    requires !st.passthrough && !st.stopped && n < |events| && events[n].Chunk?
    requires st.total + |events[n].bytes| <= cfg.maxBodyBytes && Utf8.DecodeStep(st.carry, events[n].bytes).0.Some?
    requires Fed(p, Came(events, n + 1)).Going?
    requires var text := Utf8.DecodeStep(st.carry, events[n].bytes).0.value.0; var (m, r) := Push(p, st.scanner, text);
             && (text == [] ==> Follows(p, st.scanner, Came(events, n + 1)))
             && Follows(p, m, Came(events, n + 1)) && r.Some? && !r.value.BlockedBy?
    ensures var st' := G.OnEvent(cfg, ScannerFor(p), st, events[n]);
            !st'.stopped && st'.scanner.Live? && Follows(p, st'.scanner, Came(events, n + 1))
  {
    hide Utf8.DecodeStep, Came, Fed, Push;
    var st' := G.OnEvent(cfg, ScannerFor(p), st, events[n]);
    var ((text, partial), carry) := (Utf8.DecodeStep(st.carry, events[n].bytes).0.value, Utf8.DecodeStep(st.carry, events[n].bytes).1);
    var (m, r) := Push(p, st.scanner, text);
    assert ScannerFor(p).push(st.scanner, text) == (m, r);
    assert !st'.stopped;
    assert st'.scanner == if partial && text == [] then st.scanner else m;
    assert Follows(p, st'.scanner, Came(events, n + 1));
    assert st'.scanner.Live?;
  }

  /** The chunk that completes the first line not taken: acted on, it stops the run; else it is dropped. */
  lemma {:induction false} LineStops(p: Parts, cfg: G.Config, st: G.State<Machine>, events: seq<G.Event>, n: nat)
    requires cfg.failClosed && NoFailureDropped(p, cfg, events) && !st.passthrough && !st.stopped
    requires n < |events| && events[n].Chunk? && EndsAt(p, events, n + 1) && Hopeful(cfg, events, n + 1)
    requires st.total + |events[n].bytes| <= cfg.maxBodyBytes && Utf8.DecodeStep(st.carry, events[n].bytes).0.Some?
    requires var (text, partial) := Utf8.DecodeStep(st.carry, events[n].bytes).0.value; var now := Fed(p, Came(events, n + 1));
             && text != [] && (OnBoundary(events, n + 1) <==> !partial)
             && (!now.Failed? ==> Follows(p, Push(p, st.scanner, text).0, Came(events, n + 1)))
             && Push(p, st.scanner, text).1 == if now.Stopped? then Some(G.BlockedBy(now.entities)) else None
    ensures var st' := G.OnEvent(cfg, ScannerFor(p), st, events[n]);
            if st'.stopped then StoppedAt(p, cfg, st', events, n + 1)
            else Follows(p, st'.scanner, Came(events, n + 1)) && SomeDropped(p, events, n + 1)
  {
    hide Utf8.DecodeStep, Came, Fed, OnBoundary, Hopeful, Push, Follows;
    if !OnBoundary(events, n + 1) { assert DroppedAt(p, events, n + 1, n + 1); }
  }

  lemma {:induction false} EventStep(p: Parts, cfg: G.Config, st: G.State<Machine>, events: seq<G.Event>, n: nat)
    requires cfg.failClosed && NoFailureDropped(p, cfg, events)
    requires Running(p, cfg, st, events, n) && !st.stopped && n < |events|
    ensures var st' := G.OnEvent(cfg, ScannerFor(p), st, events[n]);
            if st'.stopped then StoppedAt(p, cfg, st', events, n + 1) else Running(p, cfg, st', events, n + 1)
  {
    hide Utf8.DecodeStep, G.Inv, G.Ended, G.Books, Came, Fed, Follows, OnBoundary, Push, EndsAt, SomeDropped;
    var sc, e := ScannerFor(p), events[n];
    FirstMore(events, n);
    InvHasBooks(p, cfg, st, events[..n]);
    EndsWereDropped(p, cfg, st, events, n);
    forall k: nat | k < n + 1 && EndsAt(p, events, k) ensures DroppedAt(p, events, n + 1, k) {
      assert DroppedAt(p, events, n, k);
    }
    if e.ReadError? {
      ReadErrorIsHopeless(cfg, events, n);
    } else {
      G.ChunkKeepsInv(cfg, sc, st, events[..n], e.bytes);
      if st.total + |e.bytes| <= cfg.maxBodyBytes && Utf8.DecodeStep(st.carry, e.bytes).0.Some? {
        ChunkStep(p, cfg, st, events, n);
      } else {
        G.RefusedChunk(cfg, st.calls, st.taken, st.carry, st.total, events[..n], e.bytes);
      }
    }
  }

  lemma {:induction false} ReadErrorIsHopeless(cfg: G.Config, events: seq<G.Event>, n: nat)
    requires n < |events| && events[n].ReadError?
    ensures !Hopeful(cfg, events, n + 1)
  {
    assert events[..n + 1][n].ReadError?;
  }

  /** Where the loop ends: at the end of the events, or stopped by one of them. */
  lemma {:induction false} LoopEnds(p: Parts, cfg: G.Config, st: G.State<Machine>, events: seq<G.Event>, n: nat) returns (m: nat)
    requires cfg.failClosed && NoFailureDropped(p, cfg, events) && n <= |events|
    requires if st.stopped then StoppedAt(p, cfg, st, events, n) else Running(p, cfg, st, events, n)
    ensures var end := G.Loop(cfg, ScannerFor(p), st, events[n..]);
            if end.stopped then StoppedAt(p, cfg, end, events, m) else Running(p, cfg, end, events, |events|)
    decreases |events| - n
  {
    hide G.OnEvent, Running, StoppedAt, NoFailureDropped;
    m := n;
    if n < |events| && !st.stopped {
      EventStep(p, cfg, st, events, n);
      assert events[n..][1..] == events[n + 1..];
      m := LoopEnds(p, cfg, G.OnEvent(cfg, ScannerFor(p), st, events[n]), events, n + 1);
    }
  }

  // ---------- Main results ----------

  /** The first line not taken is completed by a chunk the loop reaches, which ends on a boundary. */
  ghost predicate BlocksOnBoundary(p: Parts, cfg: G.Config, events: seq<G.Event>, n: nat, entities: set<Entity>) {
    && EndsAt(p, events, n) && Hopeful(cfg, events, n) && OnBoundary(events, n)
    && Fed(p, Came(events, n)) == Stopped(entities)
  }

  /** Every line is taken and the upstream arrives whole, and then the rest or the flush blocks. */
  ghost predicate BlocksAtTheEnd(p: Parts, cfg: G.Config, events: seq<G.Event>, entities: set<Entity>) {
    && G.Whole(cfg, events) && Fed(p, G.Body(events)).Going? && Concluding(p, G.Body(events)) == Stopped(entities)
  }

  ghost predicate SomeBlockOnBoundary(p: Parts, cfg: G.Config, events: seq<G.Event>, entities: set<Entity>) {
    exists n: nat :: BlocksOnBoundary(p, cfg, events, n, entities)
  }

  /** The last thing the client receives is that the stream was blocked, and for what. */
  ghost predicate BlockAnnounced(p: Parts, cfg: G.Config, events: seq<G.Event>, entities: set<Entity>) {
    Says(G.Run(cfg, ScannerFor(p), events), G.BlockedEvent(entities))
  }

  lemma {:induction false} CameWhole(cfg: G.Config, events: seq<G.Event>)
    requires G.Whole(cfg, events)
    ensures Came(events, |events|) == G.Body(events)
  {
    hide Utf8.Scan;
    assert events[..|events|] == events;
    Utf8.ScanPieces(G.Body(events));
    Utf8.WellFormedScan(G.Body(events));
    var body := G.Body(events);
    assert body[..|body|] == body;
  }

  /** A run that an event stopped. */
  lemma {:induction false} StoppedSaysSo(p: Parts, cfg: G.Config, st: G.State<Machine>, events: seq<G.Event>, m: nat, entities: set<Entity>)
    requires StoppedAt(p, cfg, st, events, m)
    ensures Says(st, G.BlockedEvent(entities)) <==> SomeBlockOnBoundary(p, cfg, events, entities) || BlocksAtTheEnd(p, cfg, events, entities)
  {
    hide Came, Fed, OnBoundary, Concluding, G.Hopeless, G.Whole;
    assert events == events[..m] + events[m..];
    if EndsAt(p, events, m) && Hopeful(cfg, events, m) && OnBoundary(events, m) {
      forall n: nat | EndsAt(p, events, n) ensures n == m { OneEnd(p, events, n, m); }
      if Fed(p, Came(events, m)) == Stopped(entities) { assert BlocksOnBoundary(p, cfg, events, m, entities); }
      if G.Whole(cfg, events) {
        CameWhole(cfg, events);
        FedStays(p, events, m, |events|);
      }
    } else {
      G.HopelessStays(cfg, events[..m], events[m..]);
      forall n: nat | EndsAt(p, events, n) && Hopeful(cfg, events, n) ensures !OnBoundary(events, n) {
        if m <= n {
          assert events[..n] == events[..m] + events[m..n];
          G.HopelessStays(cfg, events[..m], events[m..n]);
        } else {
          assert DroppedAt(p, events, m, n);
        }
      }
    }
  }

  /** A run that reaches the end of the body. */
  lemma {:induction false} FinishSaysSo(p: Parts, cfg: G.Config, st: G.State<Machine>, events: seq<G.Event>, entities: set<Entity>)
    requires cfg.failClosed && Running(p, cfg, st, events, |events|) && !st.stopped
    ensures Says(G.Finish(cfg, ScannerFor(p), st), G.BlockedEvent(entities)) <==>
            SomeBlockOnBoundary(p, cfg, events, entities) || BlocksAtTheEnd(p, cfg, events, entities)
  {
    hide Came, Fed, OnBoundary, Concluding, Flush, G.Inv, G.Books, G.Whole;
    assert events[..|events|] == events;
    InvHasBooks(p, cfg, st, events);
    EndsWereDropped(p, cfg, st, events, |events|);
    assert forall n: nat | EndsAt(p, events, n) :: !OnBoundary(events, n) by {
      forall n: nat | EndsAt(p, events, n) ensures !OnBoundary(events, n) { assert DroppedAt(p, events, |events|, n); }
    }
    G.WholeIffNothingCarried(cfg, st.calls, st.taken, st.carry, st.total, events);
    SentNoBlock(p, cfg, st, events, entities);
    if st.carry == [] {
      CameWhole(cfg, events);
      FlushFollows(p, st.scanner, G.Body(events));
      assert ScannerFor(p).flush(st.scanner) == Flush(p, st.scanner);
    }
  }

  lemma {:induction false} SentNoBlock(p: Parts, cfg: G.Config, st: G.State<Machine>, seen: seq<G.Event>, entities: set<Entity>)
    requires G.Inv(cfg, ScannerFor(p), st, seen)
    ensures !Says(st, G.BlockedEvent(entities))
  {
    G.ReleasesAnnounceNothing(st);
  }

  lemma {:induction false} StartRuns(p: Parts, cfg: G.Config, events: seq<G.Event>)
    ensures Running(p, cfg, G.Start(ScannerFor(p)), events, 0)
  {
    G.StartInv(cfg, ScannerFor(p));
    assert events[..0] == [];
  }

  /** For every upstream and every way of cutting it: a client of a fail-closed gateway is told that its
    * stream was blocked, and for what, if and only if the chunk that completes the first line the redactor
    * does not take is reached and ends on a character boundary, or every line is taken, the upstream
    * arrives whole, and the rest of it or the flush blocks. */
  lemma {:induction false} BlockIsAnnouncedIff(p: Parts, cfg: G.Config, events: seq<G.Event>, entities: set<Entity>)
    requires cfg.failClosed && NoFailureDropped(p, cfg, events)
    ensures BlockAnnounced(p, cfg, events, entities) <==>
            SomeBlockOnBoundary(p, cfg, events, entities) || BlocksAtTheEnd(p, cfg, events, entities)
  {
    hide Running, StoppedAt, SomeBlockOnBoundary, BlocksAtTheEnd, NoFailureDropped, G.Loop;
    StartRuns(p, cfg, events);
    var start := G.Start(ScannerFor(p));
    assert events[0..] == events;
    var m := LoopEnds(p, cfg, start, events, 0);
    var st := G.Loop(cfg, ScannerFor(p), start, events);
    if st.stopped { StoppedSaysSo(p, cfg, st, events, m, entities); } else { FinishSaysSo(p, cfg, st, events, entities); }
  }

  /** The failing case: a line that blocks, and half a character behind it. The upstream arrives whole; the
    * client receives nothing, and nothing tells it why. */
  lemma {:induction false} BlockIsDropped(p: Parts, cfg: G.Config, entities: set<Entity>)
    requires cfg.failClosed && cfg.maxBodyBytes >= 4
    requires p.fmt.classify([0x78, 0x0A]) == Unparseable && p.sc.scan([0x78, 0x0A]) == Some(Blocked(entities))
    ensures var events := [G.Chunk([0x78, 0x0A, 0xC3]), G.Chunk([0xA9])];
            G.Whole(cfg, events) && G.Run(cfg, ScannerFor(p), events).sent == []
  {
    hide Push, Flush, G.Whole, Fed;
    var a: Utf8.Bytes, b: Utf8.Bytes, line: Utf8.Bytes, c: Utf8.Bytes := [0x78, 0x0A, 0xC3], [0xA9], [0x78, 0x0A], [0xC3, 0xA9];
    var sc, events := ScannerFor(p), [G.Chunk(a), G.Chunk(b)];
    HalfAfterLine();
    LineBlocks(p, entities);
    LatchedIsSilent(p, c);
    var st := G.OnEvent(cfg, sc, G.Start(sc), events[0]);
    assert [] + a == a;
    assert st.scanner == Latched && st.carry == [0xC3] && st.sent == [] && !st.stopped;
    var st' := G.OnEvent(cfg, sc, st, events[1]);
    assert st'.scanner == Latched && st'.carry == [] && st'.sent == [] && !st'.stopped;
    assert events[1..] == [events[1]] && [events[1]][1..] == [];
    assert G.Loop(cfg, sc, st', []) == st';
    assert G.Loop(cfg, sc, st, [events[1]]) == st';
    assert G.Loop(cfg, sc, G.Start(sc), events) == st';
    WholeBody(cfg, events, a, b);
  }

  lemma {:induction false} HalfAfterLine()
    ensures Utf8.DecodeStep([], [0x78, 0x0A, 0xC3]) == (Some(([0x78, 0x0A], true)), [0xC3])
    ensures Utf8.DecodeStep([0xC3], [0xA9]) == (Some(([0xC3, 0xA9], false)), [])
    ensures Utf8.WellFormed([0x78, 0x0A, 0xC3, 0xA9])
  {
    var a: Utf8.Bytes, c: Utf8.Bytes, all: Utf8.Bytes := [0x78, 0x0A, 0xC3], [0xC3, 0xA9], [0x78, 0x0A, 0xC3, 0xA9];
    assert a[1..] == [0x0A, 0xC3] && a[1..][1..] == [0xC3] && Utf8.First([0xC3]) == Utf8.Incomplete;
    assert Utf8.First(a) == Utf8.Complete(1) && Utf8.First(a[1..]) == Utf8.Complete(1);
    assert Utf8.Scan([0xC3]) == Utf8.Scanned(0, Utf8.Truncated);
    assert Utf8.Scan(a[1..]) == Utf8.Scanned(1, Utf8.Truncated);
    assert Utf8.Scan(a) == Utf8.Scanned(2, Utf8.Truncated);
    assert [] + a == a && a[..2] == [0x78, 0x0A] && a[2..] == [0xC3];
    assert c[2..] == [] && Utf8.First(c) == Utf8.Complete(2);
    assert Utf8.Scan(c) == Utf8.Scanned(2, Utf8.Clean);
    assert [0xC3] + [0xA9] == c;
    assert a + [0xA9] == all;
    Utf8.ScanAppend(a, [0xA9]);
    Utf8.WellFormedScan(all);
  }

  lemma {:induction false} LineBlocks(p: Parts, entities: set<Entity>)
    requires p.fmt.classify([0x78, 0x0A]) == Unparseable && p.sc.scan([0x78, 0x0A]) == Some(Blocked(entities))
    ensures Push(p, Live(Fresh), [0x78, 0x0A]) == (Latched, Some(G.BlockedBy(entities)))
  {
    var line: Text := [0x78, 0x0A];
    assert [] + line == line;
    Lines.OneLineEnd(line, 0, 2);
    assert line[..2] == line && line[2..] == [];
    assert Lines.Complete(line) == [line] + Lines.Complete([]);
    assert Lines.Complete(line) == [line];
    assert [line][1..] == [];
    assert Ingest(p.fmt, p.sc, p.window, Start, line) == Stopped(entities);
  }

  lemma {:induction false} LatchedIsSilent(p: Parts, text: Text)
    ensures Push(p, Latched, text) == (Latched, Some(G.Nothing)) && Flush(p, Latched) == (Latched, Some(G.Nothing))
  {}

  lemma {:induction false} WholeBody(cfg: G.Config, events: seq<G.Event>, a: Utf8.Bytes, b: Utf8.Bytes)
    requires events == [G.Chunk(a), G.Chunk(b)] && |a + b| <= cfg.maxBodyBytes && Utf8.WellFormed(a + b)
    ensures G.Whole(cfg, events)
  {
    assert events[1..] == [G.Chunk(b)] && [G.Chunk(b)][1..] == [];
    assert G.Body([G.Chunk(b)]) == b + [] == b;
    assert G.Body(events) == a + b;
  }

  // ---------- What a client of the gateway receives ----------

  /** The texts handed to the redactor, one for each chunk that has any to hand over. */
  function Handed(carry: Utf8.Bytes, events: seq<G.Event>): seq<Text>
    decreases |events|
  {
    if events == [] || events[0].ReadError? then []
    else
      var (decoded, rest) := Utf8.DecodeStep(carry, events[0].bytes);
      match decoded
      case None => []
      case Some((text, partial)) => (if partial && text == [] then [] else [text]) + Handed(rest, events[1..])
  }

  /** Every chunk is taken and decoded, none ends inside a character after complete text, nothing is left. */
  predicate Smooth(cfg: G.Config, carry: Utf8.Bytes, total: nat, events: seq<G.Event>)
    decreases |events|
  {
    if events == [] then carry == []
    else
      && events[0].Chunk? && total + |events[0].bytes| <= cfg.maxBodyBytes
      && var (decoded, rest) := Utf8.DecodeStep(carry, events[0].bytes);
         && decoded.Some? && (decoded.value.1 ==> decoded.value.0 == [])
         && Smooth(cfg, rest, total + |events[0].bytes|, events[1..])
  }

  lemma {:induction false} WholeIsSmooth(cfg: G.Config, calls: seq<G.Call>, taken: seq<Utf8.Bytes>, carry: Utf8.Bytes, total: nat,
                                         seen: seq<G.Event>, rest: seq<G.Event>)
    requires G.Books(cfg, calls, taken, carry, total, seen) && G.Whole(cfg, seen + rest) && !G.SomeEndsMid(cfg, carry, total, rest)
    ensures Smooth(cfg, carry, total, rest)
    decreases |rest|
  {
    hide Utf8.DecodeStep, G.Books, G.Whole, G.Texts;
    if rest == [] {
      assert seen + rest == seen;
      G.WholeIffNothingCarried(cfg, calls, taken, carry, total, seen);
    } else {
      var e, later := rest[0], rest[1..];
      assert seen + rest == (seen + [e]) + later;
      WholeHasChunks(cfg, seen, rest);
      if total + |e.bytes| > cfg.maxBodyBytes || Utf8.DecodeStep(carry, e.bytes).0.None? {
        G.RefusedChunk(cfg, calls, taken, carry, total, seen, e.bytes);
        G.HopelessStays(cfg, seen + [e], later);
      } else {
        var (decoded, carry') := Utf8.DecodeStep(carry, e.bytes);
        var c := G.Call(decoded.value.0, None, true);
        G.TextsSnoc(calls, c);
        G.BooksStep(cfg, calls, taken, carry, total, seen, e.bytes, calls + [c]);
        WholeIsSmooth(cfg, calls + [c], taken + [e.bytes], carry', total + |e.bytes|, seen + [e], later);
      }
    }
  }

  lemma {:induction false} WholeHasChunks(cfg: G.Config, seen: seq<G.Event>, rest: seq<G.Event>)
    requires G.Whole(cfg, seen + rest) && rest != []
    ensures rest[0].Chunk?
  {
    assert (seen + rest)[|seen|] == rest[0];
  }

  lemma {:induction false} HandedIsBody(cfg: G.Config, carry: Utf8.Bytes, total: nat, events: seq<G.Event>)
    requires Utf8.IsCarry(carry) && Smooth(cfg, carry, total, events)
    ensures Concat(Handed(carry, events)) == carry + G.Body(events)
    decreases |events|
  {
    hide Utf8.DecodeStep, Utf8.IsCarry;
    if events != [] {
      var chunk := events[0].bytes;
      Utf8.DecodeStepSplits(carry, chunk);
      var (decoded, rest) := Utf8.DecodeStep(carry, chunk);
      HandedIsBody(cfg, rest, total + |chunk|, events[1..]);
      var text, later := decoded.value.0, Handed(rest, events[1..]);
      assert ([text] + later)[1..] == later && [] + later == later;
      Assoc3(text, rest, G.Body(events[1..]));
      Assoc3(carry, chunk, G.Body(events[1..]));
    }
  }

  /** The text of the frames a client receives. */
  function Received(frames: seq<G.Frame>): Text {
    if frames == [] then [] else (if frames[0].Data? then frames[0].text else []) + Received(frames[1..])
  }

  lemma {:induction false} ReceivedSnoc(frames: seq<G.Frame>, f: G.Frame)
    ensures Received(frames + [f]) == Received(frames) + (if f.Data? then f.text else [])
  {
    if frames == [] {
      assert frames + [f] == [f] && [f][1..] == [];
    } else {
      assert (frames + [f])[1..] == frames[1..] + [f];
      ReceivedSnoc(frames[1..], f);
    }
  }

  predicate OnlyData(frames: seq<G.Frame>) { forall i | 0 <= i < |frames| :: frames[i].Data? }

  /** The keys that are flushed at the end of the texts. */
  function FlushedKeys(p: Parts, h: Hold, texts: seq<Text>): seq<SseChunk.Key>
    decreases |texts|
  {
    if texts == [] then
      var fed := IngestAll(p.fmt, p.sc, p.window, h.st, LastLine(h.buf));
      if fed.Going? then p.order(fed.st) else []
    else
      match PushText(p.fmt, p.sc, p.window, h, texts[0])
      case Sent(hold, _) => FlushedKeys(p, hold, texts[1..])
      case Ended(_) => []
  }

  /** Push by push the loop sends what the deliveries of `SseDelivery` send. */
  lemma {:induction false} LoopDelivers(p: Parts, cfg: G.Config, st: G.State<Machine>, h: Hold, events: seq<G.Event>)
    requires st.scanner == Live(h) && !st.stopped && !st.passthrough && OnlyData(st.sent)
    requires Smooth(cfg, st.carry, st.total, events)
    requires var texts := Handed(st.carry, events);
             Deliver(p.fmt, p.sc, p.window, h, texts, FlushedKeys(p, h, texts)).end.Finished?
    ensures var texts, end := Handed(st.carry, events), G.Finish(cfg, ScannerFor(p), G.Loop(cfg, ScannerFor(p), st, events));
            && OnlyData(end.sent)
            && Received(end.sent) == Received(st.sent) + Deliver(p.fmt, p.sc, p.window, h, texts, FlushedKeys(p, h, texts)).out
    decreases |events|
  {
    hide Utf8.DecodeStep, PushText, Finish;
    var sc, texts := ScannerFor(p), Handed(st.carry, events);
    if events == [] {
      var call := Finish(p.fmt, p.sc, p.window, h, FlushedKeys(p, h, []));
      assert texts == [] && call.Sent?;
      FlushDelivers(p, cfg, st, h, call.hold, call.out);
    } else {
      var (decoded, carry) := Utf8.DecodeStep(st.carry, events[0].bytes);
      var (text, partial) := decoded.value;
      var ready := st.(total := st.total + |events[0].bytes|, carry := carry, taken := st.taken + [events[0].bytes]);
      var next := G.OnEvent(cfg, sc, st, events[0]);
      if partial {
        assert [] + Handed(carry, events[1..]) == Handed(carry, events[1..]);
        assert next == ready;
        LoopDelivers(p, cfg, next, h, events[1..]);
      } else {
        assert texts[0] == text && texts[1..] == Handed(carry, events[1..]);
        var call := PushText(p.fmt, p.sc, p.window, h, text);
        assert call.Sent?;
        TextDelivers(p, cfg, ready, h, text, call.hold, call.out);
        assert next == G.OnText(cfg, sc, ready, text);
        LoopDelivers(p, cfg, next, call.hold, events[1..]);
        Assoc3(Received(st.sent), call.out, Deliver(p.fmt, p.sc, p.window, call.hold, texts[1..], FlushedKeys(p, call.hold, texts[1..])).out);
      }
    }
  }

  lemma {:induction false} TextDelivers(p: Parts, cfg: G.Config, st: G.State<Machine>, h: Hold, text: Text, hold: Hold, out: Text)
    requires st.scanner == Live(h) && !st.stopped && !st.passthrough && OnlyData(st.sent)
    requires PushText(p.fmt, p.sc, p.window, h, text) == Sent(hold, out)
    ensures var next := G.OnText(cfg, ScannerFor(p), st, text);
            && next.scanner == Live(hold) && !next.stopped && !next.passthrough && OnlyData(next.sent)
            && next.carry == st.carry && next.total == st.total && Received(next.sent) == Received(st.sent) + out
  {
    hide PushText, Received;
    ReceivedSnoc(st.sent, G.Data(out));
    assert Received(st.sent) + [] == Received(st.sent);
    assert ScannerFor(p).push(st.scanner, text) == (Live(hold), Some(Sending(out)));
  }

  lemma {:induction false} FlushDelivers(p: Parts, cfg: G.Config, st: G.State<Machine>, h: Hold, hold: Hold, out: Text)
    requires st.scanner == Live(h) && !st.stopped && st.carry == [] && OnlyData(st.sent)
    requires Finish(p.fmt, p.sc, p.window, h, FlushedKeys(p, h, [])) == Sent(hold, out)
    ensures var end := G.Finish(cfg, ScannerFor(p), st);
            OnlyData(end.sent) && Received(end.sent) == Received(st.sent) + out
  {
    hide Finish, Received, IngestAll;
    ReceivedSnoc(st.sent, G.Data(out));
    assert Received(st.sent) + [] == Received(st.sent);
    assert ScannerFor(p).flush(st.scanner) == (Live(hold), Some(Sending(out)));
  }

  /** The keys flushed are those the whole text leads to. */
  lemma {:induction false} KeysOfTheText(p: Parts, h: Hold, texts: seq<Text>)
    requires NoLine(h.buf)
    ensures var fed := IngestAll(p.fmt, p.sc, p.window, h.st, Lines.Records(h.buf + Concat(texts)));
            FlushedKeys(p, h, texts) == if fed.Going? then p.order(fed.st) else []
    decreases |texts|
  {
    hide IngestAll, Output, DrainTo, Lines.Records, Lines.Complete, Lines.Rest;
    if texts == [] {
      LastRecord(h.buf);
      assert h.buf + Concat(texts) == h.buf;
    } else {
      var raw := h.buf + texts[0];
      LinesAhead(h.buf, texts);
      IngestAllAppend(p.fmt, p.sc, p.window, h.st, Lines.Complete(raw), Lines.Records(Lines.Rest(raw) + Concat(texts[1..])));
      var call := PushText(p.fmt, p.sc, p.window, h, texts[0]);
      if call.Sent? { KeysOfTheText(p, call.hold, texts[1..]); }
    }
  }

  /** End to end: of an upstream that arrives whole, none of whose chunks ends inside a character after
    * complete text, and which nothing blocks, the client receives the redacted lines up to the first that
    * waits, and nothing else. */
  lemma {:induction false} GatewayDelivers(p: Parts, cfg: G.Config, events: seq<G.Event>, env: H.Env)
    requires env.sc == p.sc && env.window == p.window && H.ParsedLines(p.fmt, Lines.Records(G.Body(events)))
    requires G.Whole(cfg, events) && !G.SomeEndsMid(cfg, [], 0, events) && Concluding(p, G.Body(events)).Going?
    ensures var sent, frames := G.Run(cfg, ScannerFor(p), events).sent, Concluding(p, G.Body(events)).st.frames;
            OnlyData(sent) && Received(sent) == Output(p.fmt, frames, 0, DrainTo(frames, 0))
  {
    hide Smooth, Deliver, IngestAll, FlushAll, Output, DrainTo, G.Whole, G.SomeEndsMid, Lines.Records, G.Loop, G.Finish, H.ParsedLines;
    EmptyBooks(cfg);
    assert [] + events == events;
    WholeIsSmooth(cfg, [], [], [], 0, [], events);
    HandedIsBody(cfg, [], 0, events);
    var texts := Handed([], events);
    assert [] + G.Body(events) == G.Body(events);
    EmptyHasNoLine();
    KeysOfTheText(p, Fresh, texts);
    var keys := FlushedKeys(p, Fresh, texts);
    EndIgnoresChunking(p.fmt, p.sc, p.window, Fresh, texts, keys);
    StreamDelivers(env, p.fmt, texts, keys);
    LoopDelivers(p, cfg, G.Start(ScannerFor(p)), Fresh, events);
    assert Received([]) == [];
  }

  lemma {:induction false} EmptyBooks(cfg: G.Config)
    ensures G.Books(cfg, [], [], [], 0, []) && Utf8.IsCarry([])
  {
    assert Concat<Utf8.Byte>([]) == [];
  }
}
