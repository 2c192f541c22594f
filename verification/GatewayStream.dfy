/** The gateway's streaming loop: upstream chunks are decoded, given to an incremental scanner, and what
  * the scanner releases is sent to the client. The scanner is abstract: any state, any answers. */
module GatewayStream {
  import opened Common
  import opened Utf8

  datatype Emit = Nothing | Release(text: Bytes) | BlockedBy(entities: set<string>)

  /** `None` is a scanner failure. */
  datatype Scanner<!S> = Scanner(init: S, push: (S, Bytes) -> (S, Option<Emit>), flush: S -> (S, Option<Emit>))

  /** What `upstream.chunk()` yields before the end of the body. */
  datatype Event = Chunk(bytes: Bytes) | ReadError

  datatype Frame = Data(text: Bytes) | Raw(bytes: Bytes) | ErrorEvent(why: string) | BlockedEvent(entities: set<string>)

  predicate Terminal(f: Frame) { f.ErrorEvent? || f.BlockedEvent? }

  datatype Config = Config(maxBodyBytes: nat, failClosed: bool)

  /** One call to the scanner. `acted` is false for a result the loop throws away. */
  datatype Call = Call(text: Bytes, result: Option<Emit>, acted: bool)

  /** `calls` and `taken` are history: the calls made, and the chunks that got as far as the scanner. */
  datatype State<S> = State(scanner: S, carry: Bytes, total: nat, passthrough: bool, sent: seq<Frame>, stopped: bool,
                            calls: seq<Call>, taken: seq<Bytes>)

  function Start<S>(sc: Scanner<S>): State<S> { State(sc.init, [], 0, false, [], false, [], []) }

  function Stop<S>(cfg: Config, st: State<S>, frame: Frame): State<S> {
    st.(sent := if cfg.failClosed then st.sent + [frame] else st.sent, stopped := true)
  }

  /** A chunk that ends mid-codepoint: its complete part is pushed and the answer is discarded. */
  function OnPartial<S>(sc: Scanner<S>, st: State<S>, text: Bytes): State<S> {
    if text == [] then st
    else var (s, r) := sc.push(st.scanner, text); st.(scanner := s, calls := st.calls + [Call(text, r, false)])
  }

  function OnText<S>(cfg: Config, sc: Scanner<S>, st: State<S>, text: Bytes): State<S> {
    var (s, r) := sc.push(st.scanner, text);
    var pushed := st.(scanner := s, calls := st.calls + [Call(text, r, true)]);
    match r
    case None => Stop(cfg, pushed, ErrorEvent("scan error"))
    case Some(Nothing) => pushed
    case Some(Release(out)) => pushed.(sent := st.sent + [Data(out)])
    case Some(BlockedBy(entities)) =>
      if cfg.failClosed then Stop(cfg, pushed, BlockedEvent(entities)) else pushed.(passthrough := true)
  }

  function OnEvent<S>(cfg: Config, sc: Scanner<S>, st: State<S>, e: Event): State<S> {
    if e.ReadError? then Stop(cfg, st, ErrorEvent("upstream read error"))
    else if st.passthrough then st.(sent := st.sent + [Raw(e.bytes)])
    else
      var counted := st.(total := st.total + |e.bytes|);
      if counted.total > cfg.maxBodyBytes then Stop(cfg, counted, ErrorEvent("upstream response too long"))
      else
        var (decoded, carry) := DecodeStep(st.carry, e.bytes);
        var next := counted.(carry := carry);
        if decoded.None? then Stop(cfg, next, ErrorEvent("upstream chunk is corrupt UTF-8"))
        else
          var taken := next.(taken := st.taken + [e.bytes]);
          if decoded.value.1 then OnPartial(sc, taken, decoded.value.0) else OnText(cfg, sc, taken, decoded.value.0)
  }

  function Loop<S>(cfg: Config, sc: Scanner<S>, st: State<S>, events: seq<Event>): State<S>
    decreases |events|
  {
    if events == [] || st.stopped then st else Loop(cfg, sc, OnEvent(cfg, sc, st, events[0]), events[1..])
  }

  /** The end of the body: a leftover partial character is an error, anything else is flushed. */
  function Finish<S>(cfg: Config, sc: Scanner<S>, st: State<S>): State<S> {
    if st.stopped then st
    else if st.carry != [] then Stop(cfg, st, ErrorEvent("upstream response ended mid codepoint"))
    else
      var (s, r) := sc.flush(st.scanner);
      var flushed := st.(scanner := s, stopped := true, calls := st.calls + [Call([], r, true)]);
      match r
      case None => flushed.(sent := st.sent + [ErrorEvent("flush error")])
      case Some(Nothing) => flushed
      case Some(Release(out)) => flushed.(sent := st.sent + [Data(out)])
      case Some(BlockedBy(entities)) => flushed.(sent := st.sent + [BlockedEvent(entities)])
  }

  function Run<S>(cfg: Config, sc: Scanner<S>, events: seq<Event>): State<S> {
    Finish(cfg, sc, Loop(cfg, sc, Start(sc), events))
  }

  /** The spawned loop as it is written: one pass over the upstream, early returns included. */
  method ScanSseStreaming<S>(cfg: Config, sc: Scanner<S>, events: seq<Event>) returns (sent: seq<Frame>)
    ensures sent == Run(cfg, sc, events).sent
  {
    var scanner, carry, total, passthrough := sc.init, [], 0, false;
    sent := [];
    ghost var st := Start(sc);
    for i := 0 to |events|
      invariant st.scanner == scanner && st.carry == carry && st.total == total && st.passthrough == passthrough && st.sent == sent && !st.stopped
      invariant Loop(cfg, sc, st, events[i..]) == Loop(cfg, sc, Start(sc), events)
    {
      assert events[i..][1..] == events[i + 1..];
      st := OnEvent(cfg, sc, st, events[i]);
      if events[i].ReadError? {
        if cfg.failClosed { sent := sent + [ErrorEvent("upstream read error")]; }
        return;
      }
      var chunk := events[i].bytes;
      if passthrough { sent := sent + [Raw(chunk)]; continue; }
      total := total + |chunk|;
      if total > cfg.maxBodyBytes {
        if cfg.failClosed { sent := sent + [ErrorEvent("upstream response too long")]; }
        return;
      }
      var (decoded, left) := DecodeStep(carry, chunk);
      carry := left;
      if decoded.None? {
        if cfg.failClosed { sent := sent + [ErrorEvent("upstream chunk is corrupt UTF-8")]; }
        return;
      }
      var text := decoded.value.0;
      if decoded.value.1 {
        if text != [] { scanner := sc.push(scanner, text).0; }
        continue;
      }
      var (next, r) := sc.push(scanner, text);
      scanner := next;
      match r {
        case None =>
          if cfg.failClosed { sent := sent + [ErrorEvent("scan error")]; }
          return;
        case Some(Nothing) =>
        case Some(Release(out)) => sent := sent + [Data(out)];
        case Some(BlockedBy(entities)) =>
          if cfg.failClosed {
            sent := sent + [BlockedEvent(entities)];
            return;
          }
          passthrough := true;
      }
    }
    if carry != [] {
      if cfg.failClosed { sent := sent + [ErrorEvent("upstream response ended mid codepoint")]; }
      return;
    }
    var (_, r) := sc.flush(scanner);
    match r {
      case None => sent := sent + [ErrorEvent("flush error")];
      case Some(Nothing) =>
      case Some(Release(out)) => sent := sent + [Data(out)];
      case Some(BlockedBy(entities)) => sent := sent + [BlockedEvent(entities)];
    }
  }

  // ---------- What the client sees ----------

  /** The releases among the answers that were acted on, in order. */
  function Releases(calls: seq<Call>): seq<Frame> {
    if calls == [] then []
    else
      var c := calls[|calls| - 1];
      Releases(calls[..|calls| - 1])
      + (if c.acted && c.result.Some? && c.result.value.Release? then [Data(c.result.value.text)] else [])
  }

  lemma {:induction false} ReleasesSnoc(calls: seq<Call>, c: Call)
    ensures Releases(calls + [c]) == Releases(calls)
              + (if c.acted && c.result.Some? && c.result.value.Release? then [Data(c.result.value.text)] else [])
  {
    assert (calls + [c])[..|calls|] == calls;
  }

  /** The state of a fresh scanner that was given the same texts. */
  function After<S>(sc: Scanner<S>, calls: seq<Call>): S
    decreases |calls|
  {
    if calls == [] then sc.init else sc.push(After(sc, calls[..|calls| - 1]), calls[|calls| - 1].text).0
  }

  /** The recorded answers are the ones it gives. */
  predicate Genuine<S>(sc: Scanner<S>, calls: seq<Call>)
    decreases |calls|
  {
    calls == [] ||
    (var before, c := calls[..|calls| - 1], calls[|calls| - 1];
     Genuine(sc, before) && c.result == sc.push(After(sc, before), c.text).1)
  }

  ghost predicate Replays<S>(sc: Scanner<S>, calls: seq<Call>, s: S) { After(sc, calls) == s && Genuine(sc, calls) }

  function Texts(calls: seq<Call>): Bytes {
    if calls == [] then [] else Texts(calls[..|calls| - 1]) + calls[|calls| - 1].text
  }

  lemma {:induction false} TextsSnoc(calls: seq<Call>, c: Call)
    ensures Texts(calls + [c]) == Texts(calls) + c.text
  {
    assert (calls + [c])[..|calls|] == calls;
  }

  /** Releases in order, then at most one terminal event, which only a stopped run has. */
  ghost predicate SentInOrder<S>(st: State<S>) {
    || st.sent == Releases(st.calls)
    || (st.stopped && exists f :: Terminal(f) && st.sent == Releases(st.calls) + [f])
  }

  /** The chunks taken are a prefix of the upstream, within the size cap, and the texts given to the
    * scanner are a prefix of their bytes. */
  ghost predicate Accounts(cfg: Config, calls: seq<Call>, taken: seq<Bytes>, upstream: seq<Event>) {
    && |taken| <= |upstream|
    && (forall i :: 0 <= i < |taken| ==> upstream[i] == Chunk(taken[i]))
    && |Concat(taken)| <= cfg.maxBodyBytes
    && Texts(calls) <= Concat(taken)
  }

  /** While the run goes on nothing is missing but the partial character still carried. */
  ghost predicate Books(cfg: Config, calls: seq<Call>, taken: seq<Bytes>, carry: Bytes, total: nat, seen: seq<Event>) {
    && Accounts(cfg, calls, taken, seen) && IsCarry(carry)
    && total == |Concat(taken)| && |taken| == |seen|
    && Texts(calls) + carry == Concat(taken)
    && Scan(Concat(taken)) == Scanned(|Texts(calls)|, if carry == [] then Clean else Truncated)
  }

  /** An answer that was acted on is a failure or a block. */
  predicate Alarming(c: Call) { c.acted && (c.result.None? || c.result.value.BlockedBy?) }

  ghost predicate ScanTrouble(calls: seq<Call>) { exists i :: 0 <= i < |calls| && Alarming(calls[i]) }

  function Body(events: seq<Event>): Bytes {
    if events == [] then [] else (if events[0].Chunk? then events[0].bytes else []) + Body(events[1..])
  }

  /** The upstream arrives whole: no read error, no more bytes than the cap, and valid UTF-8. */
  ghost predicate Whole(cfg: Config, events: seq<Event>) {
    && (forall i | 0 <= i < |events| :: events[i].Chunk?)
    && |Body(events)| <= cfg.maxBodyBytes && WellFormed(Body(events))
  }

  /** What has been seen of the upstream rules that out already. */
  ghost predicate Hopeless(cfg: Config, seen: seq<Event>) {
    || (exists i :: 0 <= i < |seen| && seen[i].ReadError?)
    || |Body(seen)| > cfg.maxBodyBytes || Scan(Body(seen)).status.Malformed?
  }

  /** The last thing sent is a terminal event. */
  predicate Announced<S>(st: State<S>) { st.sent != [] && Terminal(st.sent[|st.sent| - 1]) }

  /** The recorded answers are the scanner's: to pushes, and at the end perhaps to one flush. */
  ghost predicate GenuineRun<S>(sc: Scanner<S>, calls: seq<Call>) {
    || Genuine(sc, calls)
    || (calls != [] &&
        var pushes, last := calls[..|calls| - 1], calls[|calls| - 1];
        Genuine(sc, pushes) && last.text == [] && last.result == sc.flush(After(sc, pushes)).1)
  }

  ghost predicate Inv<S>(cfg: Config, sc: Scanner<S>, st: State<S>, seen: seq<Event>) {
    && !st.passthrough && st.sent == Releases(st.calls) && Replays(sc, st.calls, st.scanner)
    && !ScanTrouble(st.calls)
    && Books(cfg, st.calls, st.taken, st.carry, st.total, seen)
  }

  /** After the run has stopped: why, and that it said so. */
  ghost predicate Ended<S>(cfg: Config, sc: Scanner<S>, st: State<S>, seen: seq<Event>) {
    && st.stopped && SentInOrder(st) && Accounts(cfg, st.calls, st.taken, seen) && Genuine(sc, st.calls)
    && Announced(st) && (ScanTrouble(st.calls) || Hopeless(cfg, seen))
  }

  /** The whole run: what was sent, to whom it is owed, and whether trouble was announced. */
  ghost predicate Concluded<S>(cfg: Config, sc: Scanner<S>, st: State<S>, events: seq<Event>) {
    && SentInOrder(st) && Accounts(cfg, st.calls, st.taken, events) && GenuineRun(sc, st.calls)
    && (Announced(st) <==> ScanTrouble(st.calls) || !Whole(cfg, events))
  }

  lemma {:induction false} BodyAppend(a: seq<Event>, b: seq<Event>)
    ensures Body(a + b) == Body(a) + Body(b)
  {
    if a == [] {
      assert a + b == b;
    } else {
      assert (a + b)[1..] == a[1..] + b;
      BodyAppend(a[1..], b);
      Assoc3(if a[0].Chunk? then a[0].bytes else [], Body(a[1..]), Body(b));
    }
  }

  lemma {:induction false} BodyOfTaken(taken: seq<Bytes>, seen: seq<Event>)
    requires |taken| == |seen| && forall i :: 0 <= i < |taken| ==> seen[i] == Chunk(taken[i])
    ensures Body(seen) == Concat(taken)
  {
    if seen != [] {
      forall i | 0 <= i < |taken[1..]| ensures seen[1..][i] == Chunk(taken[1..][i]) {
        assert seen[1..][i] == seen[i + 1];
      }
      BodyOfTaken(taken[1..], seen[1..]);
    }
  }

  lemma {:induction false} HopelessStays(cfg: Config, seen: seq<Event>, more: seq<Event>)
    requires Hopeless(cfg, seen)
    ensures Hopeless(cfg, seen + more) && !Whole(cfg, seen + more)
  {
    var all := seen + more;
    BodyAppend(seen, more);
    ScanAppend(Body(seen), Body(more));
    WellFormedScan(Body(all));
    if i :| 0 <= i < |seen| && seen[i].ReadError? {
      assert all[i].ReadError?;
    }
  }

  lemma {:induction false} TroubleSnoc(calls: seq<Call>, c: Call)
    ensures ScanTrouble(calls + [c]) <==> ScanTrouble(calls) || Alarming(c)
  {
    var all := calls + [c];
    if Alarming(c) { assert Alarming(all[|calls|]); }
    if ScanTrouble(calls) {
      var i :| 0 <= i < |calls| && Alarming(calls[i]);
      assert Alarming(all[i]);
    }
    if ScanTrouble(all) {
      var i :| 0 <= i < |all| && Alarming(all[i]);
      if i < |calls| { assert Alarming(calls[i]); }
    }
  }

  lemma {:induction false} AccountsMore(cfg: Config, calls: seq<Call>, taken: seq<Bytes>, seen: seq<Event>, more: seq<Event>)
    requires Accounts(cfg, calls, taken, seen)
    ensures Accounts(cfg, calls, taken, seen + more)
  {}

  lemma {:induction false} BooksStep(cfg: Config, calls: seq<Call>, taken: seq<Bytes>, carry: Bytes, total: nat, seen: seq<Event>,
                  chunk: Bytes, calls': seq<Call>)
    requires Books(cfg, calls, taken, carry, total, seen) && total + |chunk| <= cfg.maxBodyBytes
    requires DecodeStep(carry, chunk).0.Some? && Texts(calls') == Texts(calls) + DecodeStep(carry, chunk).0.value.0
    ensures Books(cfg, calls', taken + [chunk], DecodeStep(carry, chunk).1, total + |chunk|, seen + [Chunk(chunk)])
  {
    hide DecodeStep, IsCarry, Texts;
    DecodeStepSplits(carry, chunk);
    ConcatSnoc(taken, chunk);
    var (decoded, carry') := DecodeStep(carry, chunk);
    Assoc3(Texts(calls), decoded.value.0, carry');
    Assoc3(Texts(calls), carry, chunk);
    assert Texts(calls') + carry' == Concat(taken + [chunk]);
    CarriedScan(Texts(calls), carry, Concat(taken), chunk);
    DecodedStatus(carry, chunk);
  }

  /** Scanning all that was taken is scanning the carry and the next chunk. */
  lemma {:induction false} CarriedScan(texts: Bytes, carry: Bytes, before: Bytes, chunk: Bytes)
    requires texts + carry == before && Scan(before) == Scanned(|texts|, if carry == [] then Clean else Truncated)
    ensures Scan(before + chunk) == Scanned(|texts| + Scan(carry + chunk).validUpTo, Scan(carry + chunk).status)
  {
    hide Scan;
    ScanAppend(before, chunk);
    assert before[|texts|..] == carry;
  }

  lemma {:induction false} DecodedStatus(carry: Bytes, chunk: Bytes)
    requires IsCarry(carry) && DecodeStep(carry, chunk).0.Some?
    ensures Scan(carry + chunk).status == if DecodeStep(carry, chunk).1 == [] then Clean else Truncated
  {
    hide Scan;
    DecodeStepSplits(carry, chunk);
  }

  lemma {:induction false} PushKeepsInv<S>(cfg: Config, sc: Scanner<S>, st: State<S>, seen: seq<Event>, chunk: Bytes, acted: bool)
    requires Inv(cfg, sc, st, seen) && st.total + |chunk| <= cfg.maxBodyBytes && DecodeStep(st.carry, chunk).0.Some?
    ensures var ((decoded, carry), e) := (DecodeStep(st.carry, chunk), Chunk(chunk));
            var (s, r) := sc.push(st.scanner, decoded.value.0);
            var c := Call(decoded.value.0, r, acted);
            && Replays(sc, st.calls + [c], s)
            && Books(cfg, st.calls + [c], st.taken + [chunk], carry, st.total + |chunk|, seen + [e])
            && Releases(st.calls + [c]) == st.sent + (if acted && r.Some? && r.value.Release? then [Data(r.value.text)] else [])
  {
    hide DecodeStep, Books, Replays;
    var text := DecodeStep(st.carry, chunk).0.value.0;
    var (s, r) := sc.push(st.scanner, text);
    var c := Call(text, r, acted);
    TextsSnoc(st.calls, c);
    ReleasesSnoc(st.calls, c);
    ReplaysSnoc(sc, st.calls, st.scanner, c, s);
    BooksStep(cfg, st.calls, st.taken, st.carry, st.total, seen, chunk, st.calls + [c]);
  }

  lemma {:induction false} BooksAccount(cfg: Config, calls: seq<Call>, taken: seq<Bytes>, carry: Bytes, total: nat, seen: seq<Event>)
    requires Books(cfg, calls, taken, carry, total, seen)
    ensures Accounts(cfg, calls, taken, seen)
  {}

  /** A chunk the loop cannot take rules a whole upstream out. */
  lemma {:induction false} RefusedChunk(cfg: Config, calls: seq<Call>, taken: seq<Bytes>, carry: Bytes, total: nat, seen: seq<Event>, chunk: Bytes)
    requires Books(cfg, calls, taken, carry, total, seen)
    requires total + |chunk| > cfg.maxBodyBytes || DecodeStep(carry, chunk).0.None?
    ensures Hopeless(cfg, seen + [Chunk(chunk)])
  {
    hide DecodeStep, Scan, IsCarry, Texts;
    BodyOfTaken(taken, seen);
    BodyAppend(seen, [Chunk(chunk)]);
    assert [Chunk(chunk)][1..] == [] && Body([Chunk(chunk)]) == chunk + [] == chunk;
    DecodeStepSplits(carry, chunk);
    CarriedScan(Texts(calls), carry, Concat(taken), chunk);
  }

  lemma {:induction false} ChunkKeepsInv<S>(cfg: Config, sc: Scanner<S>, st: State<S>, seen: seq<Event>, chunk: Bytes)
    requires cfg.failClosed && Inv(cfg, sc, st, seen) && !st.stopped
    ensures var st' := OnEvent(cfg, sc, st, Chunk(chunk));
            if st'.stopped then Ended(cfg, sc, st', seen + [Chunk(chunk)]) else Inv(cfg, sc, st', seen + [Chunk(chunk)])
  {
    hide DecodeStep, Books, Accounts, Releases, ScanTrouble, Hopeless, Genuine, After;
    var e := Chunk(chunk);
    var st' := OnEvent(cfg, sc, st, e);
    BooksAccount(cfg, st.calls, st.taken, st.carry, st.total, seen);
    AccountsMore(cfg, st.calls, st.taken, seen, [e]);
    if st.total + |chunk| <= cfg.maxBodyBytes && DecodeStep(st.carry, chunk).0.Some? {
      var (decoded, carry) := DecodeStep(st.carry, chunk);
      if decoded.value.0 == [] && decoded.value.1 {
        assert Texts(st.calls) + [] == Texts(st.calls);
        BooksStep(cfg, st.calls, st.taken, st.carry, st.total, seen, chunk, st.calls);
      } else {
        var c := Call(decoded.value.0, sc.push(st.scanner, decoded.value.0).1, !decoded.value.1);
        PushKeepsInv(cfg, sc, st, seen, chunk, !decoded.value.1);
        BooksAccount(cfg, st'.calls, st'.taken, st'.carry, st'.total, seen + [e]);
        TroubleSnoc(st.calls, c);
        assert st.sent + [] == st.sent && st'.calls == st.calls + [c];
        if st'.stopped {
          var f := st'.sent[|st'.sent| - 1];
          assert Terminal(f) && st'.sent == st.sent + [f];
          assert Releases(st'.calls) == st.sent + [] == st.sent;
          assert Alarming(c);
        } else {
          assert st'.taken == st.taken + [chunk] && st'.carry == carry;
          assert st'.sent == Releases(st'.calls) && !Alarming(c);
        }
      }
    } else {
      var f := st'.sent[|st'.sent| - 1];
      assert Terminal(f) && st'.sent == Releases(st'.calls) + [f];
      RefusedChunk(cfg, st.calls, st.taken, st.carry, st.total, seen, chunk);
    }
  }

  lemma {:induction false} ReplaysSnoc<S>(sc: Scanner<S>, calls: seq<Call>, s: S, c: Call, s': S)
    requires Replays(sc, calls, s) && sc.push(s, c.text) == (s', c.result)
    ensures Replays(sc, calls + [c], s')
  {
    assert (calls + [c])[..|calls|] == calls;
  }

  lemma {:induction false} LoopKeepsInv<S>(cfg: Config, sc: Scanner<S>, st: State<S>, seen: seq<Event>, events: seq<Event>)
    requires cfg.failClosed
    requires if st.stopped then Ended(cfg, sc, st, seen) else Inv(cfg, sc, st, seen)
    ensures var st' := Loop(cfg, sc, st, events);
            if st'.stopped then Ended(cfg, sc, st', seen + events) else Inv(cfg, sc, st', seen + events)
    decreases |events|
  {
    hide Inv, Ended, OnEvent;
    if events == [] {
      assert seen + events == seen;
    } else if st.stopped {
      EndedMore(cfg, sc, st, seen, events);
    } else {
      var st' := OnEvent(cfg, sc, st, events[0]);
      if events[0].ReadError? { ReadErrorEnds(cfg, sc, st, seen); } else { ChunkKeepsInv(cfg, sc, st, seen, events[0].bytes); }
      LoopKeepsInv(cfg, sc, st', seen + [events[0]], events[1..]);
      assert (seen + [events[0]]) + events[1..] == seen + events;
    }
  }

  lemma {:induction false} EndedMore<S>(cfg: Config, sc: Scanner<S>, st: State<S>, seen: seq<Event>, more: seq<Event>)
    requires Ended(cfg, sc, st, seen)
    ensures Ended(cfg, sc, st, seen + more)
  {
    hide Hopeless, ScanTrouble, Genuine;
    AccountsMore(cfg, st.calls, st.taken, seen, more);
    if Hopeless(cfg, seen) { HopelessStays(cfg, seen, more); }
  }

  lemma {:induction false} ReadErrorEnds<S>(cfg: Config, sc: Scanner<S>, st: State<S>, seen: seq<Event>)
    requires cfg.failClosed && Inv(cfg, sc, st, seen) && !st.stopped
    ensures var st' := OnEvent(cfg, sc, st, ReadError); st'.stopped && Ended(cfg, sc, st', seen + [ReadError])
  {
    hide Releases, Accounts, Genuine, After, Scan;
    BooksAccount(cfg, st.calls, st.taken, st.carry, st.total, seen);
    AccountsMore(cfg, st.calls, st.taken, seen, [ReadError]);
    assert Terminal(ErrorEvent("upstream read error"));
    assert (seen + [ReadError])[|seen|].ReadError?;
  }

  /** At the end of the body: whole exactly when nothing is carried. */
  lemma {:induction false} WholeIffNothingCarried(cfg: Config, calls: seq<Call>, taken: seq<Bytes>, carry: Bytes, total: nat, events: seq<Event>)
    requires Books(cfg, calls, taken, carry, total, events)
    ensures Whole(cfg, events) <==> carry == []
  {
    hide Scan, IsCarry, Texts;
    BodyOfTaken(taken, events);
    WellFormedScan(Concat(taken));
  }

  lemma {:induction false} FlushIsGenuine<S>(sc: Scanner<S>, calls: seq<Call>, s: S)
    requires Replays(sc, calls, s)
    ensures GenuineRun(sc, calls + [Call([], sc.flush(s).1, true)])
  {
    var all := calls + [Call([], sc.flush(s).1, true)];
    assert all[..|all| - 1] == calls;
  }

  lemma {:induction false} ReleasesAnnounceNothing<S>(st: State<S>)
    requires st.sent == Releases(st.calls)
    ensures !Announced(st)
  {
    hide Releases;
    ReleasesAreData(st.calls);
    if st.sent != [] { assert st.sent[|st.sent| - 1] in Releases(st.calls); }
  }

  lemma {:induction false} FinishConcludes<S>(cfg: Config, sc: Scanner<S>, st: State<S>, events: seq<Event>)
    requires cfg.failClosed && (if st.stopped then Ended(cfg, sc, st, events) else Inv(cfg, sc, st, events))
    ensures Concluded(cfg, sc, Finish(cfg, sc, st), events)
  {
    hide Releases, Texts, ScanTrouble, Hopeless, Whole, Genuine, After, Scan;
    if st.stopped {
      assert events + [] == events;
      if Hopeless(cfg, events) { HopelessStays(cfg, events, []); }
    } else {
      WholeIffNothingCarried(cfg, st.calls, st.taken, st.carry, st.total, events);
      var end := Finish(cfg, sc, st);
      if end.sent == Releases(end.calls) { ReleasesAnnounceNothing(end); }
      if st.carry == [] {
        var c := Call([], sc.flush(st.scanner).1, true);
        TextsSnoc(st.calls, c);
        ReleasesSnoc(st.calls, c);
        TroubleSnoc(st.calls, c);
        FlushIsGenuine(sc, st.calls, st.scanner);
        assert Texts(st.calls) + [] == Texts(st.calls);
        if c.result.None? { assert Terminal(ErrorEvent("flush error")); }
        else if c.result.value.BlockedBy? { assert Terminal(BlockedEvent(c.result.value.entities)); }
        else { assert end.sent == Releases(end.calls); }
      } else {
        assert Terminal(ErrorEvent("upstream response ended mid codepoint"));
      }
    }
  }

  lemma {:induction false} StartInv<S>(cfg: Config, sc: Scanner<S>)
    ensures Inv(cfg, sc, Start(sc), [])
  {
    assert Concat<Byte>([]) == [];
  }

  /** Every fail-closed run, whatever the scanner answers: the client sees scanner releases in order and
    * then at most one terminal event that nothing follows; there is one if and only if the upstream did
    * not arrive whole, or an answer that was acted on was a failure or a block; the answers are the
    * scanner's own; and it is given nothing but a prefix of the upstream's bytes, within the cap. */
  lemma {:induction false} FailClosedRun<S>(cfg: Config, sc: Scanner<S>, events: seq<Event>)
    requires cfg.failClosed
    ensures var st := Run(cfg, sc, events);
            && SentInOrder(st)
            && (forall i :: 0 <= i < |st.sent| - 1 ==> !Terminal(st.sent[i]))
            && (Announced(st) <==> ScanTrouble(st.calls) || !Whole(cfg, events))
            && GenuineRun(sc, st.calls)
            && Accounts(cfg, st.calls, st.taken, events)
  {
    hide Loop, Finish, Inv, Accounts, Releases, ScanTrouble, Whole, GenuineRun, Announced;
    StartInv(cfg, sc);
    LoopKeepsInv(cfg, sc, Start(sc), [], events);
    assert [] + events == events;
    var st := Loop(cfg, sc, Start(sc), events);
    FinishConcludes(cfg, sc, st, events);
    TerminalIsLast(Run(cfg, sc, events));
  }

  lemma {:induction false} TerminalIsLast<S>(st: State<S>)
    requires SentInOrder(st)
    ensures forall i :: 0 <= i < |st.sent| - 1 ==> !Terminal(st.sent[i])
  {
    hide Releases;
    ReleasesAreData(st.calls);
    forall i | 0 <= i < |st.sent| - 1 ensures !Terminal(st.sent[i]) {
      assert st.sent[i] in Releases(st.calls);
    }
  }

  lemma {:induction false} ReleasesAreData(calls: seq<Call>)
    ensures forall f :: f in Releases(calls) ==> f.Data?
    decreases |calls|
  {
    if calls != [] { ReleasesAreData(calls[..|calls| - 1]); }
  }

  // ---------- Observing only ----------

  /** The chunks as they came, up to a read error. */
  function RawUntil(events: seq<Event>): seq<Frame> {
    if events == [] || events[0].ReadError? then [] else [Raw(events[0].bytes)] + RawUntil(events[1..])
  }

  predicate Blocks(c: Call) { c.acted && c.result.Some? && c.result.value.BlockedBy? }

  lemma {:induction false} PassesThrough<S>(cfg: Config, sc: Scanner<S>, st: State<S>, events: seq<Event>)
    requires !cfg.failClosed && st.passthrough && !st.stopped
    ensures var end := Loop(cfg, sc, st, events);
            && end.sent == st.sent + RawUntil(events) && end.calls == st.calls && end.passthrough
            && (end.stopped <==> exists i :: 0 <= i < |events| && events[i].ReadError?)
    decreases |events|
  {
    if events != [] {
      var e, rest := events[0], events[1..];
      var st' := OnEvent(cfg, sc, st, e);
      assert events == [e] + rest;
      if e.ReadError? {
        assert Loop(cfg, sc, st', rest) == st';
        assert events[0].ReadError?;
      } else {
        PassesThrough(cfg, sc, st', rest);
        Assoc3(st.sent, [Raw(e.bytes)], RawUntil(rest));
        if i :| 0 <= i < |rest| && rest[i].ReadError? { assert events[i + 1].ReadError?; }
      }
    }
  }

  /** What has been answered so far, without a block. */
  ghost predicate Unblocked<S>(st: State<S>) {
    !st.passthrough && st.sent == Releases(st.calls) && forall i | 0 <= i < |st.calls| :: !Blocks(st.calls[i])
  }

  /** The block was the last answer, and nothing was sent for it. */
  ghost predicate JustBlocked<S>(st: State<S>) {
    && st.passthrough && !st.stopped && st.sent == Releases(st.calls) && st.calls != []
    && Blocks(st.calls[|st.calls| - 1]) && forall i | 0 <= i < |st.calls| - 1 :: !Blocks(st.calls[i])
  }

  lemma {:induction false} TextObserved<S>(cfg: Config, sc: Scanner<S>, st: State<S>, text: Bytes)
    requires !cfg.failClosed && Unblocked(st) && !st.stopped
    ensures Unblocked(OnText(cfg, sc, st, text)) || JustBlocked(OnText(cfg, sc, st, text))
  {
    hide Releases;
    var c := Call(text, sc.push(st.scanner, text).1, true);
    ReleasesSnoc(st.calls, c);
    assert st.sent + [] == st.sent;
    assert OnText(cfg, sc, st, text).calls == st.calls + [c];
  }

  lemma {:induction false} PartialObserved<S>(sc: Scanner<S>, st: State<S>, text: Bytes)
    requires Unblocked(st) && !st.stopped
    ensures Unblocked(OnPartial(sc, st, text))
  {
    hide Releases;
    var c := Call(text, sc.push(st.scanner, text).1, false);
    ReleasesSnoc(st.calls, c);
    assert st.sent + [] == st.sent;
  }

  lemma {:induction false} ObserveStep<S>(cfg: Config, sc: Scanner<S>, st: State<S>, e: Event)
    requires !cfg.failClosed && Unblocked(st) && !st.stopped
    ensures Unblocked(OnEvent(cfg, sc, st, e)) || JustBlocked(OnEvent(cfg, sc, st, e))
    ensures e.ReadError? ==> OnEvent(cfg, sc, st, e).stopped
  {
    hide DecodeStep, OnText, OnPartial, Releases;
    if e.Chunk? && st.total + |e.bytes| <= cfg.maxBodyBytes && DecodeStep(st.carry, e.bytes).0.Some? {
      var (decoded, carry) := DecodeStep(st.carry, e.bytes);
      var ready := st.(total := st.total + |e.bytes|, carry := carry, taken := st.taken + [e.bytes]);
      assert Unblocked(ready);
      if decoded.value.1 {
        PartialObserved(sc, ready, decoded.value.0);
      } else {
        TextObserved(cfg, sc, ready, decoded.value.0);
      }
    }
  }

  /** A gateway that observes only, over any upstream: the client gets the releases in order and nothing
    * terminal; from the first answer acted on that is a block, chunk `n - 1`, every later chunk up to a read
    * error as it came, and the scanner is not called again. */
  lemma {:induction false} ObserveOnlyRun<S>(cfg: Config, sc: Scanner<S>, st: State<S>, events: seq<Event>) returns (n: nat)
    requires !cfg.failClosed && Unblocked(st)
    ensures n <= |events|
    ensures var upTo, end := Loop(cfg, sc, st, events[..n]), Loop(cfg, sc, st, events);
            if end.passthrough then
              && n > 0 && JustBlocked(upTo)
              && end.calls == upTo.calls && end.sent == Releases(end.calls) + RawUntil(events[n..])
            else Unblocked(end)
    decreases |events|
  {
    hide OnEvent, Unblocked, JustBlocked;
    n := 0;
    if events != [] && !st.stopped {
      var e, rest := events[0], events[1..];
      var st' := OnEvent(cfg, sc, st, e);
      ObserveStep(cfg, sc, st, e);
      if JustBlocked(st') {
        n := 1;
        StillBlocked(st');
        PassesThrough(cfg, sc, st', rest);
        assert events[..1] == [e] && [e][1..] == [] && Loop(cfg, sc, st', []) == st';
        assert Loop(cfg, sc, st, [e]) == st';
      } else {
        var k := ObserveOnlyRun(cfg, sc, st', rest);
        n := k + 1;
        assert events[..n][1..] == rest[..k] && events[..n][0] == e;
        assert events[n..] == rest[k..];
      }
    } else {
      NotBlocked(st);
    }
  }

  lemma {:induction false} StillBlocked<S>(st: State<S>)
    requires JustBlocked(st)
    ensures st.passthrough && !st.stopped && st.sent == Releases(st.calls)
  {}

  lemma {:induction false} NotBlocked<S>(st: State<S>)
    requires Unblocked(st)
    ensures !st.passthrough
  {}

  /** How an observed run ends: at the end of a body that was not cut short, with what the flush says. */
  lemma {:induction false} ObserveOnlyEnds<S>(cfg: Config, sc: Scanner<S>, events: seq<Event>)
    requires !cfg.failClosed
    ensures var st, end := Loop(cfg, sc, Start(sc), events), Run(cfg, sc, events);
            if st.stopped || st.carry != [] then end.sent == st.sent
            else
              match sc.flush(st.scanner).1
              case None => end.sent == st.sent + [ErrorEvent("flush error")]
              case Some(Nothing) => end.sent == st.sent
              case Some(Release(out)) => end.sent == st.sent + [Data(out)]
              case Some(BlockedBy(entities)) => end.sent == st.sent + [BlockedEvent(entities)]
    ensures Unblocked(Start(sc))
  {}

  // ---------- Nothing is lost, exactly when ----------

  /** Every answer the scanner gave was acted on. */
  predicate NothingLost(calls: seq<Call>) { forall c :: c in calls ==> c.acted }

  /** A chunk whose complete part is not empty and that ends inside a character. */
  predicate EndsMidCharacter(carry: Bytes, chunk: Bytes) {
    var decoded := DecodeStep(carry, chunk).0;
    decoded.Some? && decoded.value.1 && decoded.value.0 != []
  }

  /** Some chunk, taken at its turn, ends inside a character after complete text. A read error, the size
    * cap or corrupt bytes end the run. */
  predicate SomeEndsMid(cfg: Config, carry: Bytes, total: nat, events: seq<Event>)
    decreases |events|
  {
    events != [] && events[0].Chunk? &&
    var chunk := events[0].bytes;
    && total + |chunk| <= cfg.maxBodyBytes && DecodeStep(carry, chunk).0.Some?
    && (EndsMidCharacter(carry, chunk) || SomeEndsMid(cfg, DecodeStep(carry, chunk).1, total + |chunk|, events[1..]))
  }

  lemma {:induction false} NothingLostWhenWhole<S>(cfg: Config, sc: Scanner<S>, st: State<S>, events: seq<Event>)
    requires NothingLost(st.calls) && !SomeEndsMid(cfg, st.carry, st.total, events)
    ensures NothingLost(Loop(cfg, sc, st, events).calls)
    decreases |events|
  {
    hide DecodeStep;
    if events != [] && !st.stopped {
      var st' := OnEvent(cfg, sc, st, events[0]);
      assert NothingLost(st'.calls);
      if st'.stopped {
        assert Loop(cfg, sc, st', events[1..]) == st';
      } else if st.passthrough {
        PassthroughKeepsCalls(cfg, sc, st', events[1..]);
      } else {
        NothingLostWhenWhole(cfg, sc, st', events[1..]);
      }
    }
  }

  lemma {:induction false} PassthroughKeepsCalls<S>(cfg: Config, sc: Scanner<S>, st: State<S>, events: seq<Event>)
    requires st.passthrough
    ensures Loop(cfg, sc, st, events).calls == st.calls
    decreases |events|
  {
    if events != [] && !st.stopped {
      var st' := OnEvent(cfg, sc, st, events[0]);
      if !st'.stopped { PassthroughKeepsCalls(cfg, sc, st', events[1..]); }
    }
  }

  /** The scanner that holds nothing back. */
  function Echo(): Scanner<()> { Scanner((), (s, text) => ((), Some(Release(text))), s => ((), Some(Nothing))) }

  lemma {:induction false} EchoLoses(cfg: Config, st: State<()>, events: seq<Event>)
    requires !st.stopped && !st.passthrough && SomeEndsMid(cfg, st.carry, st.total, events)
    ensures !NothingLost(Loop(cfg, Echo(), st, events).calls)
    decreases |events|
  {
    hide DecodeStep;
    var st' := OnEvent(cfg, Echo(), st, events[0]);
    if EndsMidCharacter(st.carry, events[0].bytes) {
      assert st'.calls[|st'.calls| - 1] in st'.calls;
      CallsOnlyGrow(cfg, Echo(), st', events[1..]);
    } else {
      EchoLoses(cfg, st', events[1..]);
    }
  }

  lemma {:induction false} CallsOnlyGrow<S>(cfg: Config, sc: Scanner<S>, st: State<S>, events: seq<Event>)
    ensures st.calls <= Loop(cfg, sc, st, events).calls
    decreases |events|
  {
    hide DecodeStep;
    if events != [] && !st.stopped { CallsOnlyGrow(cfg, sc, OnEvent(cfg, sc, st, events[0]), events[1..]); }
  }

  /** For every upstream, whatever ends it: no scanner ever loses an answer if and only if no chunk with
    * complete text in it, among those taken, ends inside a character. */
  lemma {:induction false} NothingLostIff<S>(cfg: Config, sc: Scanner<S>, events: seq<Event>)
    ensures !SomeEndsMid(cfg, [], 0, events) ==> NothingLost(Run(cfg, sc, events).calls)
    ensures SomeEndsMid(cfg, [], 0, events) ==> !NothingLost(Run(cfg, Echo(), events).calls)
  {
    hide Loop, SomeEndsMid;
    if SomeEndsMid(cfg, [], 0, events) {
      EchoLoses(cfg, Start(Echo()), events);
      var calls := Loop(cfg, Echo(), Start(Echo()), events).calls;
      var c :| c in calls && !c.acted;
      assert c in Run(cfg, Echo(), events).calls;
    } else {
      NothingLostWhenWhole(cfg, sc, Start(sc), events);
    }
  }

  /** Such a chunk: an `a` with half an `\u00e9`. */
  lemma {:induction false} ALostAnswer(cfg: Config, more: seq<Event>)
    requires cfg.maxBodyBytes >= 2
    ensures var events := [Chunk([0x61, 0xC3])] + more;
            SomeEndsMid(cfg, [], 0, events) && !NothingLost(Run(cfg, Echo(), events).calls)
  {
    var a: Bytes, events := [0x61, 0xC3], [Chunk([0x61, 0xC3])] + more;
    assert a[1..] == [0xC3] && First(a) == Complete(1) && First([0xC3]) == Incomplete;
    assert Scan([0xC3]) == Scanned(0, Truncated);
    assert Scan(a) == Scanned(1, Truncated);
    assert [] + a == a && a[..1] == [0x61];
    assert DecodeStep([], a) == (Some(([0x61], true)), [0xC3]);
    NothingLostIff(cfg, Echo(), events);
  }
}
