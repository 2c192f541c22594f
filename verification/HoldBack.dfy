/** The streaming redactor: text leaves only up to a cut that no detection, present or still growing,
  * can reach. Streaming is proved to refine the batch scan. */
module HoldBack {
  import opened Common
  import opened RedactEngine
  import Utf8

  // ---------- Choosing the cut ----------

  function Limit(len: nat, window: nat, ceiling: nat): nat {
    var free := if len < window then 0 else len - window;
    if free < ceiling then free else ceiling
  }

  /** One pass over the spans in order, moving the cut to the start of each span it falls into. */
  function WalkBack(spans: seq<Span>, cut: nat): (r: nat)
    ensures r <= cut
    decreases |spans|
  {
    if spans == [] then cut
    else WalkBack(spans[1..], if Inside(spans[0], cut) then spans[0].start else cut)
  }

  function FloorBoundary(text: Text, cut: nat): (r: nat)
    ensures r <= cut && Utf8.IsCharBoundary(text, r)
    ensures forall k :: r < k <= cut ==> !Utf8.IsCharBoundary(text, k)
  {
    if cut == 0 || Utf8.IsCharBoundary(text, cut) then cut else FloorBoundary(text, cut - 1)
  }

  function SafePrefix(pending: Text, spans: seq<Span>, window: nat, ceiling: nat): (cut: nat)
    ensures cut <= |pending| && cut <= ceiling && (cut > 0 ==> cut + window <= |pending|)
  {
    var limit := Limit(|pending|, window, ceiling);
    if limit == 0 then 0 else FloorBoundary(pending, WalkBack(spans, limit))
  }

  method ComputeSafePrefix(pending: Text, spans: seq<Span>, window: nat, ceiling: nat) returns (cut: nat)
    ensures cut == SafePrefix(pending, spans, window, ceiling)
  {
    cut := Limit(|pending|, window, ceiling);
    if cut == 0 { return; }
    ghost var walked := WalkBack(spans, cut);
    for i := 0 to |spans|
      invariant WalkBack(spans[i..], cut) == walked
    {
      if spans[i].start < cut && spans[i].end > cut {
        cut := spans[i].start;
      }
    }
    while cut > 0 && !Utf8.IsCharBoundary(pending, cut)
      invariant FloorBoundary(pending, cut) == FloorBoundary(pending, walked)
    {
      cut := cut - 1;
    }
  }

  lemma {:induction false} WalkBackOutside(spans: seq<Span>, cut: nat)
    requires CutOutside(spans, cut)
    ensures WalkBack(spans, cut) == cut
    decreases |spans|
  {
    if spans != [] {
      assert spans[0] in spans && forall s :: s in spans[1..] ==> s in spans;
      WalkBackOutside(spans[1..], cut);
    }
  }

  /** The pass stops at the start of the first span, in order, that the cut falls into: every later
    * span starts no earlier, so none contains the new cut. */
  lemma {:induction false} WalkBackFirst(spans: seq<Span>, cut: nat, k: nat)
    requires Sorted(spans) && k < |spans| && Inside(spans[k], cut)
    requires forall i :: 0 <= i < k ==> !Inside(spans[i], cut)
    ensures WalkBack(spans, cut) == spans[k].start
    decreases |spans|
  {
    if k == 0 {
      forall s | s in spans[1..] ensures !Inside(s, spans[0].start) {
        var i :| 0 <= i < |spans[1..]| && spans[1..][i] == s;
        assert spans[i + 1] == s;
      }
      WalkBackOutside(spans[1..], spans[0].start);
    } else {
      assert !Inside(spans[0], cut);
      WalkBackFirst(spans[1..], cut, k - 1);
    }
  }

  ghost predicate FirstStraddler(spans: seq<Span>, cut: nat, k: nat) {
    k < |spans| && Inside(spans[k], cut) && forall i :: 0 <= i < k ==> !Inside(spans[i], cut)
  }

  lemma {:induction false} FindStraddler(spans: seq<Span>, cut: nat) returns (k: nat)
    ensures CutOutside(spans, cut) || FirstStraddler(spans, cut, k)
  {
    k := 0;
    while k < |spans| && !Inside(spans[k], cut)
      invariant k <= |spans|
      invariant forall i :: 0 <= i < k ==> !Inside(spans[i], cut)
    {
      k := k + 1;
    }
  }

  /** Flooring a cut that is inside no aligned span to a character boundary stays inside none. */
  lemma {:induction false} FloorStaysOutside(text: Text, spans: seq<Span>, cut: nat)
    requires Aligned(text, spans) && CutOutside(spans, cut)
    ensures CutOutside(spans, FloorBoundary(text, cut))
  {}

  /** The greatest character boundary up to the limit that lies strictly inside no span. */
  ghost predicate IsBestCut(text: Text, spans: seq<Span>, limit: nat, cut: nat) {
    && cut <= limit && Utf8.IsCharBoundary(text, cut) && CutOutside(spans, cut)
    && forall k :: cut < k <= limit && Utf8.IsCharBoundary(text, k) ==> !CutOutside(spans, k)
  }

  /** Sound and optimal for the spans a lawful detector reports. */
  lemma {:induction false} SafePrefixIsBestCut(pending: Text, spans: seq<Span>, window: nat, ceiling: nat)
    requires WellPlaced(pending, spans)
    ensures IsBestCut(pending, spans, Limit(|pending|, window, ceiling), SafePrefix(pending, spans, window, ceiling))
  {
    var limit := Limit(|pending|, window, ceiling);
    if limit != 0 {
      assert Sorted(spans) by { SortedByDisjoint(pending, spans); }
      var k := FindStraddler(spans, limit);
      if CutOutside(spans, limit) {
        WalkBackOutside(spans, limit);
        FloorStaysOutside(pending, spans, limit);
      } else {
        WalkBackFirst(spans, limit, k);
        var s := spans[k];
        assert s in spans;
        assert CutOutside(spans, s.start);
        forall j | s.start < j <= limit ensures !CutOutside(spans, j) {
          assert Inside(s, j);
        }
      }
    }
  }

  lemma {:induction false} SortedByDisjoint(text: Text, spans: seq<Span>)
    requires WellPlaced(text, spans)
    ensures Sorted(spans)
  {
    forall i, j | 0 <= i < j < |spans| ensures spans[i].start <= spans[j].start {
      assert spans[i] in spans;
    }
  }

  /** Without disjointness the single pass is not enough; it is safe exactly when no span that ends
    * by the limit reaches over the start of the first span the limit falls into. */
  lemma {:induction false} SafePrefixOutsideIff(pending: Text, spans: seq<Span>, window: nat, ceiling: nat)
    requires Aligned(pending, spans) && Sorted(spans)
    ensures var limit := Limit(|pending|, window, ceiling);
            CutOutside(spans, SafePrefix(pending, spans, window, ceiling)) <==>
            !exists j: nat, k: nat :: j < |spans| && FirstStraddler(spans, limit, k)
                            && spans[j].end <= limit && Inside(spans[j], spans[k].start)
  {
    var limit := Limit(|pending|, window, ceiling);
    if limit != 0 {
      var k := FindStraddler(spans, limit);
      if CutOutside(spans, limit) {
        WalkBackOutside(spans, limit);
        FloorStaysOutside(pending, spans, limit);
        assert forall k: nat :: k < |spans| ==> spans[k] in spans;
      } else {
        WalkBackFirst(spans, limit, k);
        var start := spans[k].start;
        assert spans[k] in spans;
        if s :| s in spans && Inside(s, start) {
          var j :| 0 <= j < |spans| && spans[j] == s;
          assert j < k;
          assert spans[j].end <= limit;
        }
        forall j: nat, k': nat | j < |spans| && FirstStraddler(spans, limit, k')
                       && spans[j].end <= limit && Inside(spans[j], spans[k'].start)
          ensures !CutOutside(spans, start)
        {
          assert k' == k;
          assert spans[j] in spans;
        }
      }
    }
  }

  lemma {:induction false} SinglePassMissesAnOverlap()
    ensures var text: Text := seq(10, _ => 0x61);
            var spans := [Span(0, 6, "A", Replace), Span(4, 10, "B", Replace)];
            Aligned(text, spans) && Sorted(spans) && !CutOutside(spans, SafePrefix(text, spans, 3, 10))
  {
    var text: Text := seq(10, _ => 0x61);
    var spans := [Span(0, 6, "A", Replace), Span(4, 10, "B", Replace)];
    WalkBackFirst(spans, 7, 1);
    assert Inside(spans[0], 4) && spans[0] in spans;
  }

  // ---------- The redactor ----------

  datatype Emit = Nothing | Release(text: Text) | BlockedBy(entities: set<Entity>)

  datatype State = State(window: nat, pending: Text, released: nat, redactions: nat)

  /** `emit` is `None` when the engine failed; `head` is what was drained from the buffer. */
  datatype Stepped = Stepped(st: State, emit: Option<Emit>, head: Text)

  function Advance(sc: Scanner, st: State, final: bool): Stepped {
    if st.pending == [] then Stepped(st, Some(Nothing), [])
    else match sc.detect(st.pending)
      case None => Stepped(st, None, [])
      case Some(spans) =>
        if BlockingEntities(spans) != {} then
          Stepped(st.(pending := []), Some(BlockedBy(BlockingEntities(spans))), [])
        else
          var cut := if final then |st.pending| else SafePrefix(st.pending, spans, st.window, |st.pending|);
          if cut == 0 then Stepped(st, Some(Nothing), [])
          else
            var head, rest := st.pending[..cut], st.pending[cut..];
            match sc.scan(head)
            case None => Stepped(st.(pending := rest), None, head)
            case Some(Blocked(entities)) => Stepped(st.(pending := []), Some(BlockedBy(entities)), head)
            case Some(v) =>
              var out := TextOf(v, head);
              Stepped(State(st.window, rest, st.released + |out|, st.redactions + CountOf(v)), Some(Release(out)), head)
  }

  /** Neither blocked nor failed. */
  predicate Proceeds(step: Stepped) { step.emit.Some? && !step.emit.value.BlockedBy? }

  function Pushed(st: State, text: Text): State { st.(pending := st.pending + text) }

  class Redactor {
    const window: nat
    var pending: Text
    var released: nat
    var redactions: nat

    function Model(): State
      reads this
    {
      State(window, pending, released, redactions)
    }

    constructor (window: nat)
      ensures Model() == State(window, [], 0, 0)
    {
      this.window := window;
      pending, released, redactions := [], 0, 0;
    }

    method Push(sc: Scanner, text: Text) returns (emit: Option<Emit>)
      modifies this
      ensures Model() == Advance(sc, Pushed(old(Model()), text), false).st
      ensures emit == Advance(sc, Pushed(old(Model()), text), false).emit
    {
      pending := pending + text;
      emit := Step(sc, false);
    }

    method Flush(sc: Scanner) returns (emit: Option<Emit>)
      modifies this
      ensures Model() == Advance(sc, old(Model()), true).st
      ensures emit == Advance(sc, old(Model()), true).emit
    {
      emit := Step(sc, true);
    }

    method Step(sc: Scanner, final: bool) returns (emit: Option<Emit>)
      modifies this
      ensures Model() == Advance(sc, old(Model()), final).st
      ensures emit == Advance(sc, old(Model()), final).emit
    {
      if pending == [] { return Some(Nothing); }
      var detected := sc.detect(pending);
      if detected.None? { return None; }
      var spans := detected.value;
      var blocking := BlockingEntities(spans);
      if blocking != {} {
        pending := [];
        return Some(BlockedBy(blocking));
      }
      var cut := |pending|;
      if !final { cut := ComputeSafePrefix(pending, spans, window, |pending|); }
      if cut == 0 { return Some(Nothing); }
      var head := pending[..cut];
      pending := pending[cut..];
      var verdict := sc.scan(head);
      if verdict.None? { return None; }
      var out := head;
      match verdict.value {
        case Clean =>
        case Redacted(text, count) =>
          redactions := redactions + count;
          out := text;
        case Blocked(entities) =>
          pending := [];
          return Some(BlockedBy(entities));
      }
      released := released + |out|;
      emit := Some(Release(out));
    }
  }

  /** How far a push may release at most: all but the window. */
  function Free(len: nat, window: nat): nat { if len < window then 0 else len - window }

  /** A push that neither blocks nor fails lets go of all it may: what it keeps begins at the greatest
    * character boundary, short of the window, that lies in no detection. */
  lemma {:induction false} PushKeepsBestRest(sc: Scanner, st: State, text: Text) returns (cut: nat)
    requires var pending := st.pending + text;
             pending == [] || (sc.detect(pending).Some? && WellPlaced(pending, sc.detect(pending).value))
    requires Proceeds(Advance(sc, Pushed(st, text), false))
    ensures var pending, step := st.pending + text, Advance(sc, Pushed(st, text), false);
            && cut <= |pending| && step.head == pending[..cut] && step.st.pending == pending[cut..]
            && IsBestCut(pending, if pending == [] then [] else sc.detect(pending).value, Free(|pending|, st.window), cut)
  {
    var pending := st.pending + text;
    cut := 0;
    assert pending[0..] == pending && pending[..0] == [];
    if pending != [] {
      cut := SafePrefix(pending, sc.detect(pending).value, st.window, |pending|);
      SafePrefixIsBestCut(pending, sc.detect(pending).value, st.window, |pending|);
    }
  }

  /** Memory: what a push that neither blocks nor fails keeps is at most the window plus one split character,
    * or less than the window plus the one detection the window boundary falls into. */
  lemma {:induction false} KeptBack(sc: Scanner, st: State, text: Text)
    requires var pending := st.pending + text;
             && Utf8.WellFormed(pending)
             && (pending == [] || (sc.detect(pending).Some? && WellPlaced(pending, sc.detect(pending).value)))
    requires Proceeds(Advance(sc, Pushed(st, text), false))
    ensures var pending, kept := st.pending + text, |Advance(sc, Pushed(st, text), false).st.pending|;
            || kept <= st.window + 3
            || exists s :: s in sc.detect(pending).value && Inside(s, |pending| - st.window) && kept < st.window + (s.end - s.start)
  {
    var pending := st.pending + text;
    var cut := PushKeepsBestRest(sc, st, text);
    if pending != [] && Free(|pending|, st.window) != 0 {
      BestCutKeepsLittle(pending, sc.detect(pending).value, st.window, cut);
    }
  }

  lemma {:induction false} BestCutKeepsLittle(pending: Text, spans: seq<Span>, window: nat, cut: nat)
    requires Utf8.WellFormed(pending) && WellPlaced(pending, spans) && window < |pending|
    requires IsBestCut(pending, spans, |pending| - window, cut)
    ensures |pending| - cut <= window + 3 || exists s :: s in spans && Inside(s, |pending| - window) && |pending| - cut < window + (s.end - s.start)
  {
    var limit := |pending| - window;
    if CutOutside(spans, limit) {
      var b := Utf8.BoundaryNear(pending, limit);
      NearBoundaryOutside(pending, spans, limit, b);
    } else {
      var s :| s in spans && Inside(s, limit);
      StartIsOutside(pending, spans, s);
      assert s.start <= cut;
    }
  }

  /** The nearest boundary below a limit in no span is in none either: spans end on boundaries. */
  lemma {:induction false} NearBoundaryOutside(text: Text, spans: seq<Span>, limit: nat, b: nat)
    requires WellPlaced(text, spans) && CutOutside(spans, limit) && b <= limit <= b + 3 && Utf8.IsCharBoundary(text, b)
    ensures exists c: nat :: b <= c <= limit && Utf8.IsCharBoundary(text, c) && CutOutside(spans, c)
  {
    if s :| s in spans && Inside(s, b) {
      StartIsOutside(text, spans, s);
      EndIsOutside(text, spans, s);
      assert s.end <= limit;
    }
  }

  lemma {:induction false} StartIsOutside(text: Text, spans: seq<Span>, s: Span)
    requires WellPlaced(text, spans) && s in spans
    ensures Utf8.IsCharBoundary(text, s.start) && CutOutside(spans, s.start)
  {
    SortedByDisjoint(text, spans);
    var k :| 0 <= k < |spans| && spans[k] == s;
    forall x | x in spans ensures !Inside(x, s.start) {
      var j :| 0 <= j < |spans| && spans[j] == x;
    }
  }

  lemma {:induction false} EndIsOutside(text: Text, spans: seq<Span>, s: Span)
    requires WellPlaced(text, spans) && s in spans
    ensures Utf8.IsCharBoundary(text, s.end) && CutOutside(spans, s.end)
  {
    var k :| 0 <= k < |spans| && spans[k] == s;
    forall x | x in spans ensures !Inside(x, s.end) {
      var j :| 0 <= j < |spans| && spans[j] == x;
    }
  }

  // ---------- Whole streams ----------

  datatype Ending = Finished | Stopped(entities: set<Entity>) | Failed

  /** What the client got: `out` is every released text joined, `heads` the drained texts behind it. */
  datatype Trace = Trace(out: Text, heads: seq<Text>, last: State, end: Ending)

  /** One step in front of the rest of the run, which does not happen after a block or a failure. */
  function Then(step: Stepped, rest: Trace): Trace {
    match step.emit
    case None => Trace([], [], step.st, Failed)
    case Some(BlockedBy(entities)) => Trace([], [], step.st, Stopped(entities))
    case Some(Nothing) => rest
    case Some(Release(out)) => Trace(out + rest.out, [step.head] + rest.heads, rest.last, rest.end)
  }

  /** Pushes every chunk, then flushes. */
  function Stream(sc: Scanner, st: State, chunks: seq<Text>): Trace
    decreases |chunks|
  {
    if chunks == [] then
      var step := Advance(sc, st, true);
      Then(step, Trace([], [], step.st, Finished))
    else
      var step := Advance(sc, Pushed(st, chunks[0]), false);
      Then(step, Stream(sc, step.st, chunks[1..]))
  }

  /** What `scan` makes of each drained head, joined. */
  function Forwarded(sc: Scanner, heads: seq<Text>): Text {
    if heads == [] then []
    else
      var v := sc.scan(heads[0]);
      (if v.Some? && !v.value.Blocked? then TextOf(v.value, heads[0]) else []) + Forwarded(sc, heads[1..])
  }

  /** What a step that neither blocks nor fails does to the buffer. */
  lemma {:induction false} AdvanceDrains(sc: Scanner, st: State, final: bool)
    requires Proceeds(Advance(sc, st, final))
    ensures var step := Advance(sc, st, final);
            && st.pending == step.head + step.st.pending
            && step.st.window == st.window
            && (step.emit.value.Nothing? ==> step.st == st && step.head == [])
            && (final ==> step.st.pending == [])
            && (st.pending != [] ==> sc.detect(st.pending).Some? && BlockingEntities(sc.detect(st.pending).value) == {})
            && (step.head != [] && !final ==> |step.head| + st.window <= |st.pending|)
            && (step.emit.value.Release? ==>
                  && step.head != []
                  && (!final ==> |step.head| == SafePrefix(st.pending, sc.detect(st.pending).value, st.window, |st.pending|))
                  && sc.scan(step.head).Some? && !sc.scan(step.head).value.Blocked?
                  && step.emit.value.text == TextOf(sc.scan(step.head).value, step.head)
                  && step.st.redactions == st.redactions + CountOf(sc.scan(step.head).value)
                  && step.st.released == st.released + |step.emit.value.text|)
  {
    assert st.pending[..|st.pending|] == st.pending;
  }

  lemma {:induction false} StepIsScannedHead(sc: Scanner, st: State, final: bool, rest: Trace)
    requires rest.out == Forwarded(sc, rest.heads)
    requires rest.last.released == Advance(sc, st, final).st.released + |rest.out|
    ensures var t := Then(Advance(sc, st, final), rest);
            t.out == Forwarded(sc, t.heads) && t.last.released == st.released + |t.out|
  {
    var step := Advance(sc, st, final);
    if Proceeds(step) {
      AdvanceDrains(sc, st, final);
      assert ([step.head] + rest.heads)[1..] == rest.heads;
    }
  }

  /** Nothing reaches the client but what `scan` made of the drained heads, in order. */
  lemma {:induction false} OutputIsScannedHeads(sc: Scanner, st: State, chunks: seq<Text>)
    ensures Stream(sc, st, chunks).out == Forwarded(sc, Stream(sc, st, chunks).heads)
    ensures Stream(sc, st, chunks).last.released == st.released + |Stream(sc, st, chunks).out|
    decreases |chunks|
  {
    if chunks == [] {
      StepIsScannedHead(sc, st, true, Trace([], [], Advance(sc, st, true).st, Finished));
    } else {
      var pushed := Pushed(st, chunks[0]);
      var next := Advance(sc, pushed, false).st;
      OutputIsScannedHeads(sc, next, chunks[1..]);
      StepIsScannedHead(sc, pushed, false, Stream(sc, next, chunks[1..]));
    }
  }

  ghost predicate AllWellFormed(chunks: seq<Text>) {
    forall c :: c in chunks ==> Utf8.WellFormed(c)
  }

  lemma {:induction false} ConcatWellFormed(chunks: seq<Text>)
    requires AllWellFormed(chunks)
    ensures Utf8.WellFormed(Concat(chunks))
  {
    if chunks == [] {
      assert Concat<Utf8.Byte>([]) == [];
    } else {
      assert chunks[0] in chunks && AllWellFormed(chunks[1..]);
      ConcatWellFormed(chunks[1..]);
      Utf8.WellFormedAppend(chunks[0], Concat(chunks[1..]));
    }
  }

  /** The heart of the argument: a cut `lookahead` bytes before the end of the buffer, inside no span
    * the buffer shows, is inside no span of the whole text either, however it goes on. */
  lemma {:induction false} CutStaysOutside(D: Text -> seq<Span>, lookahead: nat, whole: Text, p: nat, cut: nat)
    requires SettlesWithin(D, lookahead) && Utf8.WellFormed(whole)
    requires p <= |whole| && Utf8.IsCharBoundary(whole, p) && cut + lookahead <= p
    requires CutOutside(D(whole[..p]), cut)
    ensures CutOutside(D(whole), cut)
  {
    assert SettlesAt(D, lookahead, whole, p, cut);
    forall s | s in D(whole) ensures !Inside(s, cut) {
      InStartingBefore(D(whole), cut, s);
      InStartingBefore(D(whole[..p]), cut, s);
    }
  }

  /** What a step adds to the redaction of the text that has not left yet. */
  ghost predicate Carries(D: Text -> seq<Span>, rewrite: (Entity, Text) -> Text, out: Text, count: nat, whole: Text, rest: Text) {
    && Woven(rewrite, whole, D(whole)) == out + Woven(rewrite, rest, D(rest))
    && |D(whole)| == count + |D(rest)|
    && BlockingEntities(D(whole)) == BlockingEntities(D(rest))
  }

  /** A releasing cut, taken from the buffer alone, is a cut of the whole text still to come. */
  lemma {:induction false} CutCarries(sc: Scanner, D: Text -> seq<Span>, rewrite: (Entity, Text) -> Text, lookahead: nat,
                   pending: Text, more: Text, cut: nat)
    requires LawfulScanner(sc, D, rewrite, lookahead) && cut <= |pending|
    requires Utf8.WellFormed(pending) && Utf8.WellFormed(more)
    requires cut + lookahead <= |pending| && Utf8.IsCharBoundary(pending, cut) && CutOutside(D(pending), cut)
    requires sc.scan(pending[..cut]).Some? && !sc.scan(pending[..cut]).value.Blocked?
    ensures var v := sc.scan(pending[..cut]).value;
            Carries(D, rewrite, TextOf(v, pending[..cut]), CountOf(v), pending + more, pending[cut..] + more)
    ensures Utf8.WellFormed(pending[cut..])
  {
    hide Woven, CutOutside, BlockingEntities;
    var whole := pending + more;
    Utf8.WellFormedAppend(pending, more);
    PendingEndIsBoundary(pending, more);
    AppendSlices(pending, more, cut);
    CutStaysOutside(D, lookahead, whole, |pending|, cut);
    RedactionSplits(D, rewrite, whole, cut);
    Utf8.BoundarySplits(pending, cut);
    assert ScansAt(sc, D, rewrite, pending[..cut]);
  }

  function Out(step: Stepped): Text {
    if step.emit.Some? && step.emit.value.Release? then step.emit.value.text else []
  }

  lemma {:induction false} StepCarries(sc: Scanner, D: Text -> seq<Span>, rewrite: (Entity, Text) -> Text, lookahead: nat, st: State, more: Text)
    requires LawfulScanner(sc, D, rewrite, lookahead) && lookahead <= st.window
    requires Utf8.WellFormed(st.pending) && Utf8.WellFormed(more)
    requires Proceeds(Advance(sc, st, false))
    ensures var step := Advance(sc, st, false);
            && step.st.window == st.window && Utf8.WellFormed(step.st.pending) && step.st.redactions >= st.redactions
            && Carries(D, rewrite, Out(step), step.st.redactions - st.redactions, st.pending + more, step.st.pending + more)
  {
    var step := Advance(sc, st, false);
    AdvanceDrains(sc, st, false);
    if step.emit.value.Release? {
      var cut := |step.head|;
      assert step.head == st.pending[..cut] && step.st.pending == st.pending[cut..];
      assert ScansAt(sc, D, rewrite, st.pending) && PlacesAt(D, st.pending);
      SafePrefixIsBestCut(st.pending, D(st.pending), st.window, |st.pending|);
      CutCarries(sc, D, rewrite, lookahead, st.pending, more, cut);
    }
  }

  lemma {:induction false} PendingEndIsBoundary(pending: Text, more: Text)
    requires Utf8.WellFormed(more)
    ensures Utf8.IsCharBoundary(pending + more, |pending|)
  {
    Utf8.WellFormedScan(more);
    if more != [] {
      Utf8.FirstComplete(more, Utf8.First(more).n);
      assert (pending + more)[|pending|] == more[0];
    }
  }

  ghost predicate TraceRedacts(D: Text -> seq<Span>, rewrite: (Entity, Text) -> Text, t: Trace, before: nat, whole: Text) {
    && t.out == Woven(rewrite, whole, D(whole))
    && t.last.redactions == before + |D(whole)|
    && BlockingEntities(D(whole)) == {}
  }

  lemma {:induction false} FlushRedacts(sc: Scanner, D: Text -> seq<Span>, rewrite: (Entity, Text) -> Text, lookahead: nat, st: State)
    requires LawfulScanner(sc, D, rewrite, lookahead) && Utf8.WellFormed(st.pending)
    requires Stream(sc, st, []).end.Finished?
    ensures TraceRedacts(D, rewrite, Stream(sc, st, []), st.redactions, st.pending)
  {
    var step := Advance(sc, st, true);
    AdvanceDrains(sc, st, true);
    DetectsNothingInNothing(D);
    assert BlockingEntities([]) == {};
    assert step.head == st.pending;
    assert ScansAt(sc, D, rewrite, st.pending);
  }

  lemma {:induction false} ThenRedacts(D: Text -> seq<Span>, rewrite: (Entity, Text) -> Text, step: Stepped, rest: Trace,
                    before: nat, whole: Text, after: Text)
    requires Proceeds(step) && before <= step.st.redactions
    requires Carries(D, rewrite, Out(step), step.st.redactions - before, whole, after)
    requires TraceRedacts(D, rewrite, rest, step.st.redactions, after)
    ensures TraceRedacts(D, rewrite, Then(step, rest), before, whole)
  {}

  lemma {:induction false} StreamRedacts(sc: Scanner, D: Text -> seq<Span>, rewrite: (Entity, Text) -> Text, lookahead: nat,
                                         st: State, chunks: seq<Text>)
    requires LawfulScanner(sc, D, rewrite, lookahead) && lookahead <= st.window
    requires Utf8.WellFormed(st.pending) && AllWellFormed(chunks)
    requires Stream(sc, st, chunks).end.Finished?
    ensures TraceRedacts(D, rewrite, Stream(sc, st, chunks), st.redactions, st.pending + Concat(chunks))
    decreases |chunks|
  {
    hide Advance, Carries, Woven, BlockingEntities;
    if chunks == [] {
      assert st.pending + Concat(chunks) == st.pending;
      FlushRedacts(sc, D, rewrite, lookahead, st);
    } else {
      var pushed, more := Pushed(st, chunks[0]), Concat(chunks[1..]);
      var step := Advance(sc, pushed, false);
      assert chunks[0] in chunks && AllWellFormed(chunks[1..]);
      Utf8.WellFormedAppend(st.pending, chunks[0]);
      ConcatWellFormed(chunks[1..]);
      var rest := Stream(sc, step.st, chunks[1..]);
      assert Stream(sc, st, chunks) == Then(step, rest);
      StepCarries(sc, D, rewrite, lookahead, pushed, more);
      StreamRedacts(sc, D, rewrite, lookahead, step.st, chunks[1..]);
      ConcatStep(st.pending, chunks);
      ThenRedacts(D, rewrite, step, rest, st.redactions, st.pending + Concat(chunks), step.st.pending + more);
    }
  }

  /** Streaming refines the batch scan: for every text and every chunking, a stream that is neither
    * blocked nor failed releases exactly what scanning the whole text at once would forward, with the
    * same redaction count; in particular a text the batch scan blocks never streams to the end. */
  lemma {:induction false} StreamingRefinesBatch(e: Engine, D: Text -> seq<Span>, apply: (Operator, Text) -> Text, lookahead: nat,
                              window: nat, chunks: seq<Text>)
    requires Lawful(e, D, apply, lookahead) && lookahead <= window && AllWellFormed(chunks)
    requires Scan(e, Concat(chunks)).Some?
    ensures var t := Stream(ScannerOf(e), State(window, [], 0, 0), chunks);
            var batch := Scan(e, Concat(chunks)).value;
            t.end.Finished? ==>
              && !batch.Blocked?
              && t.out == TextOf(batch, Concat(chunks))
              && t.last.redactions == CountOf(batch)
              && t.last.released == |t.out|
  {
    EngineIsLawfulScanner(e, D, apply, lookahead);
    ScannerRefinesBatch(ScannerOf(e), D, Configured(e, apply), lookahead, window, chunks);
  }

  lemma {:induction false} ScannerRefinesBatch(sc: Scanner, D: Text -> seq<Span>, rewrite: (Entity, Text) -> Text, lookahead: nat,
                            window: nat, chunks: seq<Text>)
    requires LawfulScanner(sc, D, rewrite, lookahead) && lookahead <= window && AllWellFormed(chunks)
    requires sc.scan(Concat(chunks)).Some?
    ensures var t := Stream(sc, State(window, [], 0, 0), chunks);
            var batch := sc.scan(Concat(chunks)).value;
            t.end.Finished? ==>
              && !batch.Blocked?
              && t.out == TextOf(batch, Concat(chunks))
              && t.last.redactions == CountOf(batch)
              && t.last.released == |t.out|
  {
    var empty := State(window, [], 0, 0);
    var whole := Concat(chunks);
    if Stream(sc, empty, chunks).end.Finished? {
      ConcatWellFormed([]);
      StreamRedacts(sc, D, rewrite, lookahead, empty, chunks);
      assert [] + whole == whole;
      ConcatWellFormed(chunks);
      assert ScansAt(sc, D, rewrite, whole);
      OutputIsScannedHeads(sc, empty, chunks);
    }
  }

  // ---------- When a stream is stopped ----------

  /** What blocks in `pending` followed by the first `k` chunks. */
  ghost function BlockingUpTo(D: Text -> seq<Span>, pending: Text, chunks: seq<Text>, k: nat): set<Entity>
    requires k <= |chunks|
  {
    BlockingEntities(D(pending + Concat(chunks[..k])))
  }

  ghost predicate BlocksFirstAt(D: Text -> seq<Span>, pending: Text, chunks: seq<Text>, k: nat) {
    && k <= |chunks| && BlockingUpTo(D, pending, chunks, k) != {}
    && forall i: nat :: i < k ==> BlockingUpTo(D, pending, chunks, i) == {}
  }

  /** A stream ends in a block only at the first chunk whose arrival makes the text so far block, naming
    * what blocks there, and finishes only if no chunk does. */
  ghost predicate EndsRight(D: Text -> seq<Span>, pending: Text, chunks: seq<Text>, end: Ending) {
    match end
    case Failed => true
    case Finished => forall k: nat :: k <= |chunks| ==> BlockingUpTo(D, pending, chunks, k) == {}
    case Stopped(entities) => exists k: nat :: BlocksFirstAt(D, pending, chunks, k) && entities == BlockingUpTo(D, pending, chunks, k)
  }

  lemma {:induction false} HeadDoesNotBlock(sc: Scanner, D: Text -> seq<Span>, rewrite: (Entity, Text) -> Text, lookahead: nat,
                                            pending: Text, window: nat)
    requires LawfulScanner(sc, D, rewrite, lookahead) && Utf8.WellFormed(pending) && BlockingEntities(D(pending)) == {}
    ensures var head := pending[..SafePrefix(pending, D(pending), window, |pending|)];
            sc.scan(head).Some? ==> !sc.scan(head).value.Blocked?
    ensures sc.scan(pending).Some? ==> !sc.scan(pending).value.Blocked?
  {
    hide BlockingEntities, Woven, SafePrefix;
    assert ScansAt(sc, D, rewrite, pending) && PlacesAt(D, pending);
    var cut := SafePrefix(pending, D(pending), window, |pending|);
    SafePrefixIsBestCut(pending, D(pending), window, |pending|);
    RedactionSplits(D, rewrite, pending, cut);
    Utf8.BoundarySplits(pending, cut);
    assert ScansAt(sc, D, rewrite, pending[..cut]);
  }

  lemma {:induction false} StepBlocks(sc: Scanner, D: Text -> seq<Span>, rewrite: (Entity, Text) -> Text, lookahead: nat, st: State, final: bool)
    requires LawfulScanner(sc, D, rewrite, lookahead) && lookahead <= st.window && Utf8.WellFormed(st.pending)
    ensures var emit := Advance(sc, st, final).emit;
            emit.Some? ==> BlockingEntities(D(st.pending)) == if emit.value.BlockedBy? then emit.value.entities else {}
    ensures Advance(sc, st, final).emit.Some? && Advance(sc, st, final).emit.value.BlockedBy? ==> BlockingEntities(D(st.pending)) != {}
  {
    assert ScansAt(sc, D, rewrite, st.pending);
    if st.pending == [] {
      DetectsNothingInNothing(D);
      assert BlockingEntities([]) == {};
    } else if BlockingEntities(D(st.pending)) == {} {
      HeadDoesNotBlock(sc, D, rewrite, lookahead, st.pending, st.window);
      assert st.pending[..|st.pending|] == st.pending;
    }
  }

  /** What is left after a step blocks, with whatever follows, like what was there before it. */
  lemma {:induction false} StepKeepsBlocking(sc: Scanner, D: Text -> seq<Span>, rewrite: (Entity, Text) -> Text, lookahead: nat,
                                             st: State, chunks: seq<Text>, k: nat)
    requires LawfulScanner(sc, D, rewrite, lookahead) && lookahead <= st.window
    requires Utf8.WellFormed(st.pending) && AllWellFormed(chunks) && 1 <= k <= |chunks|
    requires Proceeds(Advance(sc, Pushed(st, chunks[0]), false))
    ensures var step := Advance(sc, Pushed(st, chunks[0]), false);
            && step.st.window == st.window && Utf8.WellFormed(step.st.pending)
            && BlockingUpTo(D, st.pending, chunks, k) == BlockingUpTo(D, step.st.pending, chunks[1..], k - 1)
  {
    hide Advance, BlockingEntities;
    var some := chunks[..k];
    var more := Concat(some[1..]);
    assert chunks[0] in chunks && some[0] == chunks[0] && some[1..] == chunks[1..][..k - 1];
    assert AllWellFormed(some[1..]);
    Utf8.WellFormedAppend(st.pending, chunks[0]);
    ConcatWellFormed(some[1..]);
    StepCarries(sc, D, rewrite, lookahead, Pushed(st, chunks[0]), more);
    ConcatStep(st.pending, some);
  }

  lemma {:induction false} StreamEndsRight(sc: Scanner, D: Text -> seq<Span>, rewrite: (Entity, Text) -> Text, lookahead: nat,
                                           st: State, chunks: seq<Text>)
    requires LawfulScanner(sc, D, rewrite, lookahead) && lookahead <= st.window
    requires Utf8.WellFormed(st.pending) && AllWellFormed(chunks) && BlockingUpTo(D, st.pending, chunks, 0) == {}
    ensures EndsRight(D, st.pending, chunks, Stream(sc, st, chunks).end)
    decreases |chunks|
  {
    hide Advance, BlockingUpTo;
    if chunks == [] {
      UpToNow(D, st.pending, chunks);
      StepBlocks(sc, D, rewrite, lookahead, st, true);
    } else {
      var pushed := Pushed(st, chunks[0]);
      var step := Advance(sc, pushed, false);
      assert chunks[0] in chunks && AllWellFormed(chunks[1..]);
      Utf8.WellFormedAppend(st.pending, chunks[0]);
      UpToOne(D, st.pending, chunks);
      StepBlocks(sc, D, rewrite, lookahead, pushed, false);
      if Proceeds(step) {
        forall k: nat | 1 <= k <= |chunks|
          ensures step.st.window == st.window && Utf8.WellFormed(step.st.pending)
          ensures BlockingUpTo(D, st.pending, chunks, k) == BlockingUpTo(D, step.st.pending, chunks[1..], k - 1)
        {
          StepKeepsBlocking(sc, D, rewrite, lookahead, st, chunks, k);
        }
        assert BlockingUpTo(D, st.pending, chunks, 1) == BlockingUpTo(D, step.st.pending, chunks[1..], 0);
        StreamEndsRight(sc, D, rewrite, lookahead, step.st, chunks[1..]);
        EndsRightLater(D, st.pending, step.st.pending, chunks, Stream(sc, step.st, chunks[1..]).end);
      } else if step.emit.Some? {
        assert BlocksFirstAt(D, st.pending, chunks, 1);
      }
    }
  }

  lemma {:induction false} UpToNow(D: Text -> seq<Span>, pending: Text, chunks: seq<Text>)
    ensures BlockingUpTo(D, pending, chunks, 0) == BlockingEntities(D(pending))
  {
    assert pending + Concat(chunks[..0]) == pending;
  }

  lemma {:induction false} UpToOne(D: Text -> seq<Span>, pending: Text, chunks: seq<Text>)
    requires chunks != []
    ensures BlockingUpTo(D, pending, chunks, 1) == BlockingEntities(D(pending + chunks[0]))
  {
    ConcatStep(pending, chunks[..1]);
    assert pending + chunks[0] + Concat(chunks[..1][1..]) == pending + chunks[0];
  }

  lemma {:induction false} EndsRightLater(D: Text -> seq<Span>, pending: Text, rest: Text, chunks: seq<Text>, end: Ending)
    requires chunks != [] && BlockingUpTo(D, pending, chunks, 0) == {}
    requires forall k: nat :: 1 <= k <= |chunks| ==> BlockingUpTo(D, pending, chunks, k) == BlockingUpTo(D, rest, chunks[1..], k - 1)
    requires EndsRight(D, rest, chunks[1..], end)
    ensures EndsRight(D, pending, chunks, end)
  {
    hide BlockingUpTo;
    match end {
      case Failed =>
      case Finished =>
        forall k: nat | k <= |chunks| ensures BlockingUpTo(D, pending, chunks, k) == {} {
          if k > 0 { assert BlockingUpTo(D, rest, chunks[1..], k - 1) == {}; }
        }
      case Stopped(entities) =>
        var k: nat :| BlocksFirstAt(D, rest, chunks[1..], k) && entities == BlockingUpTo(D, rest, chunks[1..], k);
        forall i: nat | i < k + 1 ensures BlockingUpTo(D, pending, chunks, i) == {} {
          if i > 0 { assert BlockingUpTo(D, rest, chunks[1..], i - 1) == {}; }
        }
        assert BlockingUpTo(D, pending, chunks, k + 1) == BlockingUpTo(D, rest, chunks[1..], k);
        assert BlocksFirstAt(D, pending, chunks, k + 1);
    }
  }

  /** The engine fails on no text. */
  ghost predicate AlwaysAnswers(sc: Scanner) {
    forall text: Text :: sc.detect(text).Some? && sc.scan(text).Some?
  }

  lemma {:induction false} AnsweredNeverFails(sc: Scanner, st: State, chunks: seq<Text>)
    requires AlwaysAnswers(sc)
    ensures !Stream(sc, st, chunks).end.Failed?
    decreases |chunks|
  {
    if chunks != [] { AnsweredNeverFails(sc, Advance(sc, Pushed(st, chunks[0]), false).st, chunks[1..]); }
  }

  /** Some beginning of the text, up to the end of a chunk, is one the batch scan blocks. */
  ghost predicate SomeStartBlocks(e: Engine, chunks: seq<Text>) {
    exists k: nat :: StartBlocks(e, chunks, k)
  }

  ghost predicate StartBlocks(e: Engine, chunks: seq<Text>, k: nat) {
    k <= |chunks| && Scan(e, Concat(chunks[..k])).Some? && Scan(e, Concat(chunks[..k])).value.Blocked?
  }

  /** With an engine that never fails, a stream is stopped if and only if the batch scan blocks the text
    * received by the end of some chunk, and finishes otherwise; what it is stopped for is what the batch
    * scan names at the first such chunk. */
  lemma {:induction false} StreamStopsIff(e: Engine, D: Text -> seq<Span>, apply: (Operator, Text) -> Text, lookahead: nat,
                                          window: nat, chunks: seq<Text>)
    requires Lawful(e, D, apply, lookahead) && lookahead <= window && AllWellFormed(chunks)
    requires AlwaysAnswers(ScannerOf(e))
    ensures var end := Stream(ScannerOf(e), State(window, [], 0, 0), chunks).end;
            && (end.Stopped? <==> SomeStartBlocks(e, chunks))
            && (end.Finished? <==> !SomeStartBlocks(e, chunks))
            && forall k: nat :: StartBlocks(e, chunks, k) && (forall i: nat :: i < k ==> !StartBlocks(e, chunks, i)) ==>
                 end == Stopped(Scan(e, Concat(chunks[..k])).value.entities)
  {
    var sc, st, rewrite := ScannerOf(e), State(window, [], 0, 0), Configured(e, apply);
    EngineIsLawfulScanner(e, D, apply, lookahead);
    DetectsNothingInNothing(D);
    ConcatWellFormed([]);
    UpToNow(D, [], chunks);
    assert BlockingEntities([]) == {};
    StreamEndsRight(sc, D, rewrite, lookahead, st, chunks);
    AnsweredNeverFails(sc, st, chunks);
    forall k: nat | k <= |chunks|
      ensures StartBlocks(e, chunks, k) <==> BlockingUpTo(D, [], chunks, k) != {}
      ensures StartBlocks(e, chunks, k) ==> Scan(e, Concat(chunks[..k])).value.entities == BlockingUpTo(D, [], chunks, k)
    {
      StartBlocksLikeSpans(sc, e, D, rewrite, chunks, k);
    }
    OnlyTheFirst(e, D, chunks, Stream(sc, st, chunks).end);
  }

  lemma {:induction false} StartBlocksLikeSpans(sc: Scanner, e: Engine, D: Text -> seq<Span>, rewrite: (Entity, Text) -> Text, chunks: seq<Text>, k: nat)
    requires sc == ScannerOf(e) && AlwaysAnswers(sc) && AllWellFormed(chunks) && k <= |chunks|
    requires forall text: Text :: ScansAt(sc, D, rewrite, text)
    ensures StartBlocks(e, chunks, k) <==> BlockingUpTo(D, [], chunks, k) != {}
    ensures StartBlocks(e, chunks, k) ==> Scan(e, Concat(chunks[..k])).value.entities == BlockingUpTo(D, [], chunks, k)
  {
    hide Scan, Detect, BlockingEntities;
    var text := Concat(chunks[..k]);
    assert AllWellFormed(chunks[..k]);
    ConcatWellFormed(chunks[..k]);
    assert [] + text == text;
    assert ScansAt(sc, D, rewrite, text) && sc.scan(text).Some?;
  }

  lemma {:induction false} OnlyTheFirst(e: Engine, D: Text -> seq<Span>, chunks: seq<Text>, end: Ending)
    requires EndsRight(D, [], chunks, end) && !end.Failed?
    requires forall k: nat :: k <= |chunks| ==> (StartBlocks(e, chunks, k) <==> BlockingUpTo(D, [], chunks, k) != {})
    requires forall k: nat :: StartBlocks(e, chunks, k) ==> Scan(e, Concat(chunks[..k])).value.entities == BlockingUpTo(D, [], chunks, k)
    ensures end.Stopped? <==> SomeStartBlocks(e, chunks)
    ensures forall k: nat :: StartBlocks(e, chunks, k) && (forall i: nat :: i < k ==> !StartBlocks(e, chunks, i)) ==>
              end == Stopped(Scan(e, Concat(chunks[..k])).value.entities)
  {
    hide BlockingUpTo, Scan;
    if end.Stopped? {
      var k: nat :| BlocksFirstAt(D, [], chunks, k) && end.entities == BlockingUpTo(D, [], chunks, k);
      assert StartBlocks(e, chunks, k);
      assert forall i: nat :: i < k ==> !StartBlocks(e, chunks, i);
    }
  }

  // ---------- Blocking safety ----------

  /** A buffer that holds all of `whole[i..j]` makes the engine report something that blocks. */
  ghost predicate BlocksWhenPresent(sc: Scanner, whole: Text, i: nat, j: nat) {
    i < j <= |whole| &&
    forall a: nat, n: nat :: a <= i && j <= n <= |whole| && sc.detect(whole[a..n]).Some? ==>
      BlockingEntities(sc.detect(whole[a..n]).value) != {}
  }

  /** Text that has left, `whole[..at]`, stays clear of the secret; what is buffered follows it. */
  ghost predicate Ahead(whole: Text, at: nat, pending: Text) {
    at + |pending| <= |whole| && pending == whole[at..at + |pending|]
  }

  lemma {:induction false} StepKeepsClear(sc: Scanner, st: State, whole: Text, i: nat, j: nat, at: nat, final: bool)
    requires BlocksWhenPresent(sc, whole, i, j) && j - i <= st.window
    requires at <= i && Ahead(whole, at, st.pending) && (final ==> at + |st.pending| == |whole|)
    requires Proceeds(Advance(sc, st, final))
    ensures var step := Advance(sc, st, final);
            && !final && step.st.window == st.window
            && at + |step.head| <= i
            && step.head == whole[at..at + |step.head|]
            && Ahead(whole, at + |step.head|, step.st.pending)
            && at + |step.head| + |step.st.pending| == at + |st.pending|
            && (step.emit.value.Nothing? ==> step.head == [])
  {
    AdvanceDrains(sc, st, final);
    var step := Advance(sc, st, final);
    var n := at + |st.pending|;
    assert st.pending == whole[at..n];
    assert n < j;
    assert step.head == st.pending[..|step.head|] && step.st.pending == st.pending[|step.head|..];
  }

  lemma {:induction false} NoSecretDrained(sc: Scanner, st: State, chunks: seq<Text>, whole: Text, i: nat, j: nat, at: nat)
    requires BlocksWhenPresent(sc, whole, i, j) && j - i <= st.window
    requires at <= i && Ahead(whole, at, st.pending) && Concat(chunks) == whole[at + |st.pending|..]
    ensures var t := Stream(sc, st, chunks);
            !t.end.Finished? && KeptClear(whole, i, at, t)
    decreases |chunks|
  {
    hide Advance, Then, KeptClear, BlocksWhenPresent;
    if chunks == [] {
      ClearThen(sc, st, whole, i, j, at, true, Trace([], [], Advance(sc, st, true).st, Finished));
    } else {
      var pushed := Pushed(st, chunks[0]);
      TakeChunk(whole, at, st.pending, chunks);
      var step := Advance(sc, pushed, false);
      if Proceeds(step) {
        StepKeepsClear(sc, pushed, whole, i, j, at, false);
        NoSecretDrained(sc, step.st, chunks[1..], whole, i, j, at + |step.head|);
      }
      ClearThen(sc, pushed, whole, i, j, at, false, Stream(sc, step.st, chunks[1..]));
    }
  }

  lemma {:induction false} ClearThen(sc: Scanner, st: State, whole: Text, i: nat, j: nat, at: nat, final: bool, rest: Trace)
    requires BlocksWhenPresent(sc, whole, i, j) && j - i <= st.window
    requires at <= i && Ahead(whole, at, st.pending) && (final ==> at + |st.pending| == |whole|)
    requires Proceeds(Advance(sc, st, final)) && !final ==>
               !rest.end.Finished? && KeptClear(whole, i, at + |Advance(sc, st, final).head|, rest)
    ensures var t := Then(Advance(sc, st, final), rest);
            !t.end.Finished? && KeptClear(whole, i, at, t)
  {
    hide Advance;
    var step := Advance(sc, st, final);
    if Proceeds(step) {
      StepKeepsClear(sc, st, whole, i, j, at, final);
      ThenKeepsClear(whole, i, at, step, rest);
    }
  }

  ghost predicate KeptClear(whole: Text, i: nat, at: nat, t: Trace) {
    at + |Concat(t.heads)| <= i <= |whole| && Concat(t.heads) == whole[at..at + |Concat(t.heads)|]
  }

  lemma {:induction false} ThenKeepsClear(whole: Text, i: nat, at: nat, step: Stepped, rest: Trace)
    requires Proceeds(step) && (step.emit.value.Nothing? ==> step.head == [])
    requires at + |step.head| <= i <= |whole| && step.head == whole[at..at + |step.head|]
    requires KeptClear(whole, i, at + |step.head|, rest)
    ensures KeptClear(whole, i, at, Then(step, rest))
  {
    JoinHeads(whole, at, step.head, rest.heads);
  }

  lemma {:induction false} TakeChunk(whole: Text, at: nat, pending: Text, chunks: seq<Text>)
    requires chunks != [] && Ahead(whole, at, pending) && Concat(chunks) == whole[at + |pending|..]
    ensures Ahead(whole, at, pending + chunks[0])
    ensures Concat(chunks[1..]) == whole[at + |pending + chunks[0]|..]
  {
    var rest := whole[at + |pending|..];
    assert chunks[0] == rest[..|chunks[0]|] && Concat(chunks[1..]) == rest[|chunks[0]|..];
  }

  lemma {:induction false} JoinHeads(whole: Text, at: nat, head: Text, heads: seq<Text>)
    requires at + |head| + |Concat(heads)| <= |whole| && head == whole[at..at + |head|]
    requires Concat(heads) == whole[at + |head|..at + |head| + |Concat(heads)|]
    ensures Concat([head] + heads) == whole[at..at + |Concat([head] + heads)|]
    ensures |Concat([head] + heads)| == |head| + |Concat(heads)|
  {
    assert ([head] + heads)[1..] == heads;
    SplitSlice(whole, at, at + |head|, at + |head| + |Concat(heads)|);
  }

  /** Blocking safety over whole runs: when an occurrence `i..j` of a blocking entity fits the window and
    * is reported whenever it is wholly in the buffer, then for every chunking the stream ends in a block
    * (or an engine failure) and everything released comes from the text before the occurrence. */
  lemma {:induction false} NoByteOfASecretLeaves(sc: Scanner, window: nat, chunks: seq<Text>, i: nat, j: nat)
    requires BlocksWhenPresent(sc, Concat(chunks), i, j) && j - i <= window
    ensures var t := Stream(sc, State(window, [], 0, 0), chunks);
            && !t.end.Finished?
            && t.out == Forwarded(sc, t.heads)
            && |Concat(t.heads)| <= i
            && Concat(t.heads) == Concat(chunks)[..|Concat(t.heads)|]
  {
    var empty := State(window, [], 0, 0);
    NoSecretDrained(sc, empty, chunks, Concat(chunks), i, j, 0);
    OutputIsScannedHeads(sc, empty, chunks);
  }
}
