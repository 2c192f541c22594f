/** One field of a streamed completion, redacted incrementally and released only in whole SSE frames
  * (crates/governance-redact/src/sse/mod.rs). The redactor keeps one text and the offsets at which
  * frames end in it; it is proved to be a queue of pieces, one per frame, that leave from the front. */
module FieldRedactor {
  import opened Common
  import opened RedactEngine
  import HoldBack
  import Utf8

  /** Where a frame's contribution ends within the pending text. */
  datatype Mark = Mark(end: nat, frame: nat)

  // ---------- Choosing a frame-aligned cut ----------

  /** The last frame end up to `safe`, reading the marks until one lies beyond it. */
  function FrameFloor(marks: seq<Mark>, safe: nat, best: nat): (r: nat)
    ensures best <= safe ==> r <= safe
    ensures r == best || exists m :: m in marks && m.end == r
    decreases |marks|
  {
    if marks == [] || marks[0].end > safe then best
    else
      var r := FrameFloor(marks[1..], safe, marks[0].end);
      assert r == marks[0].end ==> marks[0] in marks;
      r
  }

  /** Retreats between span safety and frame ends until both agree. */
  function FrameCut(pending: Text, marks: seq<Mark>, spans: seq<Span>, window: nat, candidate: nat): (cut: nat)
    ensures cut <= candidate && cut <= |pending|
    ensures cut > 0 ==> cut + window <= |pending| && exists m :: m in marks && m.end == cut
    decreases candidate
  {
    var safe := HoldBack.SafePrefix(pending, spans, window, candidate);
    var boundary := FrameFloor(marks, safe, 0);
    if boundary == candidate || boundary == 0 then boundary
    else FrameCut(pending, marks, spans, window, boundary)
  }

  method ComputeFrameCut(pending: Text, marks: seq<Mark>, spans: seq<Span>, window: nat) returns (cut: nat)
    ensures cut == FrameCut(pending, marks, spans, window, |pending|)
  {
    var candidate: nat := |pending|;
    while true
      invariant FrameCut(pending, marks, spans, window, candidate) == FrameCut(pending, marks, spans, window, |pending|)
      decreases candidate
    {
      var safe := HoldBack.ComputeSafePrefix(pending, spans, window, candidate);
      var boundary := 0;
      for i := 0 to |marks|
        invariant FrameFloor(marks[i..], safe, boundary) == FrameFloor(marks, safe, 0)
      {
        if marks[i].end <= safe {
          boundary := marks[i].end;
        } else {
          break;
        }
      }
      if boundary == candidate || boundary == 0 {
        return boundary;
      }
      candidate := boundary;
    }
  }

  predicate Ascending(marks: seq<Mark>) {
    forall i, j :: 0 <= i < j < |marks| ==> marks[i].end <= marks[j].end
  }

  lemma {:induction false} FrameFloorIsGreatest(marks: seq<Mark>, safe: nat, best: nat, m: Mark)
    requires Ascending(marks) && m in marks && m.end <= safe
    ensures m.end <= FrameFloor(marks, safe, best)
    decreases |marks|
  {
    assert marks[0].end <= m.end;
    if m in marks[1..] {
      FrameFloorIsGreatest(marks[1..], safe, marks[0].end, m);
    } else {
      FrameFloorGrows(marks[1..], safe, marks[0].end);
    }
  }

  lemma {:induction false} FrameFloorGrows(marks: seq<Mark>, safe: nat, best: nat)
    requires Ascending(marks) && forall m :: m in marks ==> best <= m.end
    ensures best <= FrameFloor(marks, safe, best)
    decreases |marks|
  {
    if marks != [] && marks[0].end <= safe {
      assert forall m :: m in marks[1..] ==> m in marks;
      FrameFloorGrows(marks[1..], safe, marks[0].end);
    }
  }

  /** A frame end that may be cut at: within the limit and inside no detection. */
  predicate Eligible(marks: seq<Mark>, spans: seq<Span>, limit: nat, cut: nat) {
    cut <= limit && CutOutside(spans, cut) && exists m :: m in marks && m.end == cut
  }

  /** The fixed point is the greatest frame end within the limit that cuts no detection, or zero. */
  lemma {:induction false} FrameCutIsBest(pending: Text, marks: seq<Mark>, spans: seq<Span>, window: nat, candidate: nat)
    requires WellPlaced(pending, spans) && Ascending(marks)
    requires forall m :: m in marks ==> Utf8.IsCharBoundary(pending, m.end)
    ensures var cut := FrameCut(pending, marks, spans, window, candidate);
            var limit := HoldBack.Limit(|pending|, window, candidate);
            && (cut == 0 || Eligible(marks, spans, limit, cut))
            && forall better | cut < better :: !Eligible(marks, spans, limit, better)
    decreases candidate
  {
    hide WellPlaced;
    var limit := HoldBack.Limit(|pending|, window, candidate);
    var safe := HoldBack.SafePrefix(pending, spans, window, candidate);
    var boundary := FrameFloor(marks, safe, 0);
    HoldBack.SafePrefixIsBestCut(pending, spans, window, candidate);
    forall c | Eligible(marks, spans, limit, c) ensures c <= boundary {
      var m :| m in marks && m.end == c;
      FrameFloorIsGreatest(marks, safe, 0, m);
    }
    if boundary == 0 {
    } else if boundary == candidate {
      assert safe == boundary;
    } else {
      FrameCutIsBest(pending, marks, spans, window, boundary);
      var lower := HoldBack.Limit(|pending|, window, boundary);
      assert lower == boundary;
      forall c | Eligible(marks, spans, limit, c) ensures Eligible(marks, spans, lower, c) {
        assert c <= boundary;
      }
      assert forall c | Eligible(marks, spans, lower, c) :: Eligible(marks, spans, limit, c);
    }
  }

  // ---------- The redactor ----------

  datatype Field = Field(pending: Text, marks: seq<Mark>, redactions: nat)

  const Empty := Field([], [], 0)

  datatype Push = Nothing | Release(text: Text, frames: seq<nat>) | BlockedBy(entities: set<Entity>)

  /** `push` is `None` when the engine failed. */
  datatype Stepped = Stepped(field: Field, push: Option<Push>)

  function Covered(marks: seq<Mark>, cut: nat): (n: nat)
    ensures n <= |marks|
  {
    if marks == [] || marks[0].end > cut then 0 else 1 + Covered(marks[1..], cut)
  }

  function Frames(marks: seq<Mark>): seq<nat> {
    seq(|marks|, i requires 0 <= i < |marks| => marks[i].frame)
  }

  function Rebased(marks: seq<Mark>, cut: nat): seq<Mark> {
    seq(|marks|, i requires 0 <= i < |marks| =>
      Mark(if marks[i].end < cut then 0 else marks[i].end - cut, marks[i].frame))
  }

  function Drained(f: Field, cut: nat): Field
    requires cut <= |f.pending|
  {
    Field(f.pending[cut..], Rebased(f.marks[Covered(f.marks, cut)..], cut), f.redactions)
  }

  function Advance(sc: Scanner, window: nat, f: Field, final: bool): (r: Stepped)
    ensures r.push.Some? && r.push.value.Release? ==> |r.field.pending| < |f.pending|
  {
    if f.pending == [] then Stepped(f, Some(Nothing))
    else match sc.detect(f.pending)
      case None => Stepped(f, None)
      case Some(spans) =>
        if BlockingEntities(spans) != {} then
          Stepped(Field([], [], f.redactions), Some(BlockedBy(BlockingEntities(spans))))
        else
          var cut := FrameCut(f.pending, f.marks, spans, if final then 0 else window, |f.pending|);
          if cut == 0 then Stepped(f, Some(Nothing))
          else
            var head, rest := f.pending[..cut], Drained(f, cut);
            match sc.scan(head)
            case None => Stepped(rest, None)
            case Some(Blocked(entities)) => Stepped(Field([], [], f.redactions), Some(BlockedBy(entities)))
            case Some(v) =>
              Stepped(rest.(redactions := f.redactions + CountOf(v)),
                      Some(Release(TextOf(v, head), Frames(f.marks[..Covered(f.marks, cut)]))))
  }

  function Pushed(f: Field, frame: nat, text: Text): Field {
    f.(pending := f.pending + text, marks := f.marks + [Mark(|f.pending + text|, frame)])
  }

  class Redactor {
    var pending: Text
    var marks: seq<Mark>
    var redactions: nat

    function Model(): Field
      reads this
    {
      Field(pending, marks, redactions)
    }

    constructor ()
      ensures Model() == Empty
    {
      pending, marks, redactions := [], [], 0;
    }

    method Push(sc: Scanner, window: nat, frame: nat, text: Text) returns (push: Option<Push>)
      modifies this
      ensures Stepped(Model(), push) == Advance(sc, window, Pushed(old(Model()), frame, text), false)
    {
      pending := pending + text;
      marks := marks + [Mark(|pending|, frame)];
      push := Step(sc, window, false);
    }

    method Step(sc: Scanner, window: nat, final: bool) returns (push: Option<Push>)
      modifies this
      ensures Stepped(Model(), push) == Advance(sc, window, old(Model()), final)
    {
      hide FrameCut, Covered;
      if pending == [] { return Some(Nothing); }
      var detected := sc.detect(pending);
      if detected.None? { return None; }
      var spans := detected.value;
      var blocking := BlockingEntities(spans);
      if blocking != {} {
        pending, marks := [], [];
        return Some(BlockedBy(blocking));
      }
      var cut := ComputeFrameCut(pending, marks, spans, if final then 0 else window);
      if cut == 0 { return Some(Nothing); }
      var covered := Covered(marks, cut);
      var frames := Frames(marks[..covered]);
      marks := Rebased(marks[covered..], cut);
      var head := pending[..cut];
      pending := pending[cut..];
      var verdict := sc.scan(head);
      if verdict.None? { return None; }
      var out := head;
      match verdict.value {
        case Clean =>
        case Redacted(text, count) =>
          redactions := redactions + count;
          out := text;
        case Blocked(entities) =>
          pending, marks := [], [];
          return Some(BlockedBy(entities));
      }
      push := Some(Release(out, frames));
    }
  }

  // ---------- The redactor is a queue of pieces ----------

  /** One frame's contribution to the field. */
  datatype Piece = Piece(frame: nat, text: Text)

  function Join(q: seq<Piece>): Text {
    if q == [] then [] else q[0].text + Join(q[1..])
  }

  function Marks(q: seq<Piece>, from: nat): seq<Mark> {
    if q == [] then [] else [Mark(from + |q[0].text|, q[0].frame)] + Marks(q[1..], from + |q[0].text|)
  }

  /** The field whose queue is `q`. */
  function FieldOf(q: seq<Piece>, redactions: nat): Field { Field(Join(q), Marks(q, 0), redactions) }

  function FrameIds(q: seq<Piece>): seq<nat> {
    seq(|q|, i requires 0 <= i < |q| => q[i].frame)
  }

  lemma {:induction false} JoinAppend(a: seq<Piece>, b: seq<Piece>)
    ensures Join(a + b) == Join(a) + Join(b)
  {
    if a == [] {
      assert a + b == b;
    } else {
      assert (a + b)[1..] == a[1..] + b;
      JoinAppend(a[1..], b);
      Assoc3(a[0].text, Join(a[1..]), Join(b));
    }
  }

  lemma {:induction false} JoinNothing(q: seq<Piece>)
    requires q == []
    ensures Join(q) == []
  {}

  lemma {:induction false} MarksAppend(a: seq<Piece>, b: seq<Piece>, from: nat)
    ensures Marks(a + b, from) == Marks(a, from) + Marks(b, from + |Join(a)|)
    decreases |a|
  {
    if a == [] {
      assert a + b == b;
    } else {
      assert (a + b)[1..] == a[1..] + b;
      MarksAppend(a[1..], b, from + |a[0].text|);
    }
  }

  lemma {:induction false} MarksShape(q: seq<Piece>, from: nat)
    ensures |Marks(q, from)| == |q|
    ensures Frames(Marks(q, from)) == FrameIds(q)
    ensures Ascending(Marks(q, from))
    ensures forall m :: m in Marks(q, from) ==> from <= m.end <= from + |Join(q)|
    decreases |q|
  {
    if q != [] {
      MarksShape(q[1..], from + |q[0].text|);
      var ms, later := Marks(q, from), Marks(q[1..], from + |q[0].text|);
      assert ms == [ms[0]] + later;
      assert forall i | 0 < i < |ms| :: ms[i] == later[i - 1];
      assert forall i | 0 < i < |ms| :: ms[i] in later;
      assert Frames(ms) == [q[0].frame] + Frames(later);
      assert FrameIds(q) == [q[0].frame] + FrameIds(q[1..]);
    }
  }

  lemma {:induction false} MarksRebase(q: seq<Piece>, from: nat, cut: nat)
    requires cut <= from
    ensures Rebased(Marks(q, from), cut) == Marks(q, from - cut)
    decreases |q|
  {
    if q != [] {
      var next := from + |q[0].text|;
      MarksRebase(q[1..], next, cut);
      var later := Marks(q[1..], next);
      assert Rebased([Mark(next, q[0].frame)] + later, cut) == [Mark(next - cut, q[0].frame)] + Rebased(later, cut);
    }
  }

  /** The marks covered by a cut are the pieces in front of it. */
  lemma {:induction false} CoveredPieces(q: seq<Piece>, from: nat, cut: nat)
    ensures var n := Covered(Marks(q, from), cut);
            && n <= |q|
            && (from <= cut ==> from + |Join(q[..n])| <= cut)
            && ((exists m :: m in Marks(q, from) && m.end == cut) ==> n > 0 && from + |Join(q[..n])| == cut)
            && (cut >= from + |Join(q)| ==> n == |q|)
    decreases |q|
  {
    if q != [] {
      var next := from + |q[0].text|;
      var ms, later := Marks(q, from), Marks(q[1..], next);
      assert ms[1..] == later;
      if next <= cut {
        CoveredPieces(q[1..], next, cut);
        var n := Covered(later, cut);
        assert q[..n + 1] == [q[0]] + q[1..][..n];
        assert q[..n + 1][1..] == q[1..][..n];
        if m :| m in ms && m.end == cut && m !in later {
          assert m == ms[0];
          assert n == 0 || |Join(q[1..][..n])| == 0;
        }
      } else {
        MarksShape(q, from);
        assert forall m :: m in ms ==> m.end >= ms[0].end;
      }
    }
  }

  lemma {:induction false} PushedPiece(q: seq<Piece>, redactions: nat, frame: nat, text: Text)
    ensures Pushed(FieldOf(q, redactions), frame, text) == FieldOf(q + [Piece(frame, text)], redactions)
  {
    var last := [Piece(frame, text)];
    assert last[1..] == [];
    assert Join(last) == text;
    JoinAppend(q, last);
    MarksAppend(q, last, 0);
    assert Marks(last, |Join(q)|) == [Mark(|Join(q)| + |text|, frame)];
  }

  /** Draining up to a frame end takes whole pieces off the front. */
  lemma {:induction false} DrainedPieces(q: seq<Piece>, redactions: nat, cut: nat)
    requires cut > 0 && exists m :: m in Marks(q, 0) && m.end == cut
    ensures var n := Covered(Marks(q, 0), cut); var f := FieldOf(q, redactions);
            && 0 < n <= |q| && cut == |Join(q[..n])| <= |f.pending|
            && f.pending[..cut] == Join(q[..n])
            && Frames(f.marks[..n]) == FrameIds(q[..n])
            && Drained(f, cut) == FieldOf(q[n..], redactions)
  {
    hide Join, Marks, Covered, Rebased, Frames;
    CoveredPieces(q, 0, cut);
    var n := Covered(Marks(q, 0), cut);
    var front, rest := q[..n], q[n..];
    assert q == front + rest;
    JoinAppend(front, rest);
    MarksAppend(front, rest, 0);
    MarksShape(front, 0);
    MarksRebase(rest, cut, cut);
    PartsOfSum(Marks(front, 0), Marks(rest, cut));
    PartsOfSum(Join(front), Join(rest));
  }

  lemma {:induction false} PartsOfSum<T>(a: seq<T>, b: seq<T>)
    ensures (a + b)[..|a|] == a && (a + b)[|a|..] == b
  {}

  predicate Proceeds(step: Stepped) { step.push.Some? && !step.push.value.BlockedBy? }

  /** How many pieces a step takes off the front, and the text it gives for them. */
  function Taken(step: Stepped): nat
    requires Proceeds(step)
  {
    if step.push.value.Release? then |step.push.value.frames| else 0
  }

  function Out(step: Stepped): Text
    requires Proceeds(step)
  {
    if step.push.value.Release? then step.push.value.text else []
  }

  /** What a release made of its pieces. */
  ghost predicate ReleasedAs(sc: Scanner, head: Text, before: nat, step: Stepped)
    requires Proceeds(step)
  {
    && head != [] && sc.scan(head).Some? && !sc.scan(head).value.Blocked?
    && Out(step) == TextOf(sc.scan(head).value, head)
    && step.field.redactions == before + CountOf(sc.scan(head).value)
  }

  lemma {:induction false} AdvanceTakes(sc: Scanner, window: nat, q: seq<Piece>, redactions: nat, final: bool)
    requires Proceeds(Advance(sc, window, FieldOf(q, redactions), final))
    ensures var step := Advance(sc, window, FieldOf(q, redactions), final);
            var n := Taken(step);
            && n <= |q|
            && step.field == FieldOf(q[n..], step.field.redactions)
            && (n == 0 ==> step.push.value == Nothing && step.field.redactions == redactions)
            && (n > 0 ==>
                  && step.push.value.Release? && step.push.value.frames == FrameIds(q[..n])
                  && ReleasedAs(sc, Join(q[..n]), redactions, step)
                  && sc.detect(Join(q)).Some?
                  && |Join(q[..n])| == FrameCut(Join(q), Marks(q, 0), sc.detect(Join(q)).value,
                                                if final then 0 else window, |Join(q)|))
            && (Join(q) != [] ==> sc.detect(Join(q)).Some? && BlockingEntities(sc.detect(Join(q)).value) == {})
  {
    hide FrameCut, Covered, Drained, Marks, Join;
    var f := FieldOf(q, redactions);
    if f.pending != [] {
      var spans := sc.detect(f.pending).value;
      var cut := FrameCut(f.pending, f.marks, spans, if final then 0 else window, |f.pending|);
      if cut > 0 { DrainedPieces(q, redactions, cut); }
    }
    assert q[0..] == q;
  }

  ghost predicate Whole(q: seq<Piece>) {
    forall i | 0 <= i < |q| :: Utf8.WellFormed(q[i].text)
  }

  lemma {:induction false} JoinWellFormed(q: seq<Piece>)
    requires Whole(q)
    ensures Utf8.WellFormed(Join(q))
  {
    if q == [] {
      HoldBack.ConcatWellFormed([]);
      assert Concat<Utf8.Byte>([]) == [];
    } else {
      assert Utf8.WellFormed(q[0].text) && Whole(q[1..]);
      JoinWellFormed(q[1..]);
      Utf8.WellFormedAppend(q[0].text, Join(q[1..]));
    }
  }

  lemma {:induction false} MarkAt(q: seq<Piece>, from: nat, m: Mark) returns (n: nat)
    requires m in Marks(q, from)
    ensures n <= |q| && m.end == from + |Join(q[..n])|
    decreases |q|
  {
    var next := from + |q[0].text|;
    if m == Mark(next, q[0].frame) {
      n := 1;
      assert q[..1] == [q[0]] && q[..1][1..] == [];
    } else {
      var k := MarkAt(q[1..], next, m);
      n := k + 1;
      assert q[..n] == [q[0]] + q[1..][..k] && q[..n][1..] == q[1..][..k];
    }
  }

  lemma {:induction false} MarksAreBoundaries(q: seq<Piece>, m: Mark)
    requires Whole(q) && m in Marks(q, 0)
    ensures Utf8.IsCharBoundary(Join(q), m.end)
  {
    hide Utf8.WellFormed, Utf8.IsCharBoundary;
    var n := MarkAt(q, 0, m);
    var front, rest := q[..n], q[n..];
    assert q == front + rest;
    JoinAppend(front, rest);
    assert Whole(rest);
    JoinWellFormed(rest);
    HoldBack.PendingEndIsBoundary(Join(front), Join(rest));
  }

  /** The cut a lawful detector leads to: the best one, at a character boundary. */
  lemma {:induction false} CutIsBest(D: Text -> seq<Span>, q: seq<Piece>, window: nat)
    requires PlacesWell(D) && Whole(q)
    ensures var cut := FrameCut(Join(q), Marks(q, 0), D(Join(q)), window, |Join(q)|);
            var limit := HoldBack.Limit(|Join(q)|, window, |Join(q)|);
            && Utf8.IsCharBoundary(Join(q), cut)
            && (cut == 0 || Eligible(Marks(q, 0), D(Join(q)), limit, cut))
            && forall better | cut < better :: !Eligible(Marks(q, 0), D(Join(q)), limit, better)
  {
    hide FrameCut, Eligible, Join, Marks, Utf8.IsCharBoundary, HoldBack.Limit;
    JoinWellFormed(q);
    MarksShape(q, 0);
    forall m | m in Marks(q, 0) ensures Utf8.IsCharBoundary(Join(q), m.end) {
      MarksAreBoundaries(q, m);
    }
    assert PlacesAt(D, Join(q));
    FrameCutIsBest(Join(q), Marks(q, 0), D(Join(q)), window, |Join(q)|);
    ZeroIsBoundary(Join(q));
  }

  lemma {:induction false} ZeroIsBoundary(text: Text)
    ensures Utf8.IsCharBoundary(text, 0)
  {}

  /** A step adds to what was said exactly what it takes from the redaction still to come. */
  lemma {:induction false} AdvanceCarries(sc: Scanner, D: Text -> seq<Span>, rewrite: (Entity, Text) -> Text, lookahead: nat,
                       window: nat, q: seq<Piece>, redactions: nat, more: Text)
    requires LawfulScanner(sc, D, rewrite, lookahead) && lookahead <= window
    requires Whole(q) && Utf8.WellFormed(more)
    requires Proceeds(Advance(sc, window, FieldOf(q, redactions), false))
    ensures var step := Advance(sc, window, FieldOf(q, redactions), false);
            && step.field.redactions >= redactions && Taken(step) <= |q|
            && HoldBack.Carries(D, rewrite, Out(step), step.field.redactions - redactions,
                                Join(q) + more, Join(q[Taken(step)..]) + more)
  {
    hide Advance, FrameCut, Join, Marks, Utf8.WellFormed, Utf8.IsCharBoundary, BlockingEntities, Woven, LawfulScanner, CutOutside;
    var step := Advance(sc, window, FieldOf(q, redactions), false);
    AdvanceTakes(sc, window, q, redactions, false);
    var n := Taken(step);
    if n > 0 {
      JoinWellFormed(q);
      ScannerLaws(sc, D, rewrite, lookahead, Join(q));
      CutIsBest(D, q, window);
      assert q == q[..n] + q[n..];
      JoinAppend(q[..n], q[n..]);
      PartsOfSum(Join(q[..n]), Join(q[n..]));
      HoldBack.CutCarries(sc, D, rewrite, lookahead, Join(q), more, |Join(q[..n])|);
    } else {
      assert q[0..] == q;
      CarriesNothing(D, rewrite, Join(q) + more);
    }
  }

  /** The piece at `m - 1` ends where the text of the first `m` ends. */
  lemma {:induction false} MarkEnds(q: seq<Piece>, from: nat, m: nat)
    requires 0 < m <= |q|
    ensures m <= |Marks(q, from)| && Marks(q, from)[m - 1].end == from + |Join(q[..m])|
    decreases |q|
  {
    var next := from + |q[0].text|;
    assert q[..m][1..] == q[1..][..m - 1];
    if m == 1 {
      JoinNothing(q[1..][..0]);
    } else {
      MarkEnds(q[1..], next, m - 1);
    }
  }

  lemma {:induction false} CoveredIsAll(marks: seq<Mark>, cut: nat, i: nat)
    requires Ascending(marks) && Covered(marks, cut) <= i < |marks|
    ensures marks[i].end > cut
  {
    if marks[0].end <= cut {
      assert marks[i] == marks[1..][i - 1];
      CoveredIsAll(marks[1..], cut, i - 1);
    }
  }

  /** A push that neither blocks nor fails lets go of all it may: no later frame ends within what the window
    * leaves free, past some text, and in no detection. */
  lemma {:induction false} StepTakesMost(sc: Scanner, D: Text -> seq<Span>, rewrite: (Entity, Text) -> Text, lookahead: nat,
                                         window: nat, q: seq<Piece>, redactions: nat, m: nat)
    requires LawfulScanner(sc, D, rewrite, lookahead) && Whole(q)
    requires Proceeds(Advance(sc, window, FieldOf(q, redactions), false))
    requires Taken(Advance(sc, window, FieldOf(q, redactions), false)) < m <= |q|
    ensures var end := |Join(q[..m])|;
            end == 0 || end > HoldBack.Free(|Join(q)|, window) || !CutOutside(D(Join(q)), end)
  {
    hide Join, Marks, CutOutside, Utf8.WellFormed, Woven, FrameCut;
    JoinWellFormed(q);
    ScannerLaws(sc, D, rewrite, lookahead, Join(q));
    var cut := FrameCut(Join(q), Marks(q, 0), D(Join(q)), window, |Join(q)|);
    CutIsBest(D, q, window);
    MarkEnds(q, 0, m);
    var end := |Join(q[..m])|;
    assert Marks(q, 0)[m - 1] in Marks(q, 0);
    if end != 0 && end <= HoldBack.Free(|Join(q)|, window) && CutOutside(D(Join(q)), end) {
      assert Eligible(Marks(q, 0), D(Join(q)), HoldBack.Limit(|Join(q)|, window, |Join(q)|), end);
      TakesCovered(sc, D, window, q, redactions);
      MarksShape(q, 0);
      CoveredIsAll(Marks(q, 0), cut, m - 1);
    }
  }

  /** A push takes the pieces that the cut covers. */
  lemma {:induction false} TakesCovered(sc: Scanner, D: Text -> seq<Span>, window: nat, q: seq<Piece>, redactions: nat)
    requires Proceeds(Advance(sc, window, FieldOf(q, redactions), false)) && sc.detect(Join(q)).Some? ==> sc.detect(Join(q)).value == D(Join(q))
    requires Proceeds(Advance(sc, window, FieldOf(q, redactions), false)) && Join(q) != []
    ensures var cut := FrameCut(Join(q), Marks(q, 0), D(Join(q)), window, |Join(q)|);
            Taken(Advance(sc, window, FieldOf(q, redactions), false)) == if cut == 0 then 0 else Covered(Marks(q, 0), cut)
  {
    hide FrameCut, Join, Marks;
  }

  lemma {:induction false} ScannerLaws(sc: Scanner, D: Text -> seq<Span>, rewrite: (Entity, Text) -> Text, lookahead: nat, text: Text)
    requires LawfulScanner(sc, D, rewrite, lookahead)
    ensures PlacesWell(D) && ScansAt(sc, D, rewrite, text)
  {}

  lemma {:induction false} CarriesNothing(D: Text -> seq<Span>, rewrite: (Entity, Text) -> Text, text: Text)
    ensures HoldBack.Carries(D, rewrite, [], 0, text, text)
  {}

  /** At the end of the stream, whatever is held leaves in one step, unless there is no text at all. */
  lemma {:induction false} FlushTakesAll(sc: Scanner, D: Text -> seq<Span>, rewrite: (Entity, Text) -> Text, lookahead: nat,
                      window: nat, q: seq<Piece>, redactions: nat)
    requires LawfulScanner(sc, D, rewrite, lookahead) && Whole(q)
    requires Proceeds(Advance(sc, window, FieldOf(q, redactions), true))
    ensures var step := Advance(sc, window, FieldOf(q, redactions), true);
            && Taken(step) == (if Join(q) == [] then 0 else |q|)
            && step.field.redactions >= redactions
            && Woven(rewrite, Join(q), D(Join(q))) == Out(step)
            && |D(Join(q))| == step.field.redactions - redactions
            && BlockingEntities(D(Join(q))) == {}
  {
    hide FrameCut, Utf8.WellFormed, Utf8.IsCharBoundary, Woven;
    var step := Advance(sc, window, FieldOf(q, redactions), true);
    AdvanceTakes(sc, window, q, redactions, true);
    JoinWellFormed(q);
    assert ScansAt(sc, D, rewrite, Join(q));
    if Join(q) == [] {
      NothingIsNothing(D, rewrite);
    } else {
      var cut := FrameCut(Join(q), Marks(q, 0), D(Join(q)), 0, |Join(q)|);
      CutIsBest(D, q, 0);
      WholeIsEligible(D, q);
      assert cut == |Join(q)|;
      CoveredPieces(q, 0, cut);
      DrainedPieces(q, redactions, cut);
      assert Join(q)[..|Join(q)|] == Join(q);
      assert q[..|q|] == q;
    }
  }

  lemma {:induction false} NothingIsNothing(D: Text -> seq<Span>, rewrite: (Entity, Text) -> Text)
    requires PlacesWell(D)
    ensures D([]) == [] && Woven(rewrite, [], D([])) == [] && BlockingEntities(D([])) == {}
  {
    DetectsNothingInNothing(D);
  }

  lemma {:induction false} WholeIsEligible(D: Text -> seq<Span>, q: seq<Piece>)
    requires PlacesWell(D) && Whole(q) && Join(q) != []
    ensures Eligible(Marks(q, 0), D(Join(q)), HoldBack.Limit(|Join(q)|, 0, |Join(q)|), |Join(q)|)
  {
    JoinWellFormed(q);
    assert PlacesAt(D, Join(q));
    LastMark(q, 0);
  }

  lemma {:induction false} LastMark(q: seq<Piece>, from: nat)
    requires q != []
    ensures exists m :: m in Marks(q, from) && m.end == from + |Join(q)|
    decreases |q|
  {
    var next := from + |q[0].text|;
    if |q| == 1 {
      assert q[1..] == [] && Join(q[1..]) == [];
      assert Mark(next, q[0].frame) in Marks(q, from);
      assert next == from + |Join(q)|;
    } else {
      LastMark(q[1..], next);
      var m :| m in Marks(q[1..], next) && m.end == next + |Join(q[1..])|;
      assert m in Marks(q, from);
    }
  }
}
