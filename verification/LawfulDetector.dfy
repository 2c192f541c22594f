/** The laws asked of the foreign detector are not empty: an engine that masks every "gh" and blocks every
  * "gk" obeys them, with one byte of lookahead. */
module LawfulDetector {
  import opened Common
  import opened RedactEngine
  import Utf8

  const G: Utf8.Byte := 0x67
  const H: Utf8.Byte := 0x68
  const K: Utf8.Byte := 0x6B

  function ActionOf(entity: Entity): Action { if entity == "Key" then Block else Replace }

  function Front(entity: Entity): Span { Span(0, 2, entity, ActionOf(entity)) }

  function Stride(text: Text): (k: nat)
    requires |text| >= 2
    ensures 1 <= k <= 2
  {
    if text[0] == G && (text[1] == H || text[1] == K) then 2 else 1
  }

  function AtFront(text: Text): (first: seq<Span>)
    requires |text| >= 2
    ensures |first| <= 1
  {
    if Stride(text) == 1 then [] else [Front(if text[1] == H then "Pair" else "Key")]
  }

  function Pairs(text: Text): seq<Span> {
    if |text| < 2 then []
    else AtFront(text) + Shift(Pairs(text[Stride(text)..]), Stride(text))
  }

  function Found(spans: seq<Span>): seq<Detection> {
    if spans == [] then [] else [Detection(spans[0].start, spans[0].end, spans[0].entity)] + Found(spans[1..])
  }

  function AsSpans(ds: seq<Detection>): seq<Span> {
    if ds == [] then [] else [Span(ds[0].start, ds[0].end, ds[0].entity, ActionOf(ds[0].entity))] + AsSpans(ds[1..])
  }

  function Stars(op: Operator, bytes: Text): Text { if op.Redact? then [0x2A, 0x2A] else [0x23] }

  function PairEngine(): Engine {
    Engine(text => Some(Found(Pairs(text))),
           (text, ds, ops, op) => Some((Woven(Through(Stars, ops, op), text, SortByStart(AsSpans(ds))), |ds|)),
           ActionOf, Replace, "salt")
  }

  // ---------- Shifting ----------

  lemma {:induction false} ShiftTwice(spans: seq<Span>, a: nat, b: nat)
    ensures Shift(Shift(spans, a), b) == Shift(spans, a + b)
  {
    if spans != [] {
      ShiftTwice(spans[1..], a, b);
      assert Shift(spans, a)[1..] == Shift(spans[1..], a);
    }
  }

  lemma {:induction false} ShiftZero(spans: seq<Span>)
    ensures Shift(spans, 0) == spans
  {
    if spans != [] {
      ShiftZero(spans[1..]);
      assert spans == [spans[0]] + spans[1..];
    }
  }

  lemma {:induction false} ShiftAppend(a: seq<Span>, b: seq<Span>, offset: nat)
    ensures Shift(a + b, offset) == Shift(a, offset) + Shift(b, offset)
  {
    if a == [] {
      assert a + b == b;
    } else {
      assert (a + b)[1..] == a[1..] + b;
      ShiftAppend(a[1..], b, offset);
      Assoc3([Moved(a[0], offset)], Shift(a[1..], offset), Shift(b, offset));
    }
  }

  lemma {:induction false} ShiftStartingBefore(spans: seq<Span>, offset: nat, cut: nat)
    ensures StartingBefore(Shift(spans, offset), cut)
         == if cut < offset then [] else Shift(StartingBefore(spans, cut - offset), offset)
  {
    if spans != [] {
      ShiftStartingBefore(spans[1..], offset, cut);
      assert Shift(spans, offset)[1..] == Shift(spans[1..], offset);
      if cut >= offset && spans[0].start < cut - offset {
        var kept := StartingBefore(spans[1..], cut - offset);
        assert ([spans[0]] + kept)[1..] == kept;
      } else {
        var shifted := Shift(spans, offset);
        assert StartingBefore(shifted, cut) == StartingBefore(shifted[1..], cut);
        if cut >= offset { assert StartingBefore(spans, cut - offset) == StartingBefore(spans[1..], cut - offset); }
      }
    }
  }

  lemma {:induction false} InShift(spans: seq<Span>, offset: nat, s: Span)
    ensures Moved(s, offset) in Shift(spans, offset) <==> s in spans
  {
    if spans != [] { InShift(spans[1..], offset, s); }
  }

  lemma {:induction false} CutOutsideShift(spans: seq<Span>, offset: nat, cut: nat)
    requires offset <= cut && CutOutside(Shift(spans, offset), cut)
    ensures CutOutside(spans, cut - offset)
  {
    forall s | s in spans ensures !Inside(s, cut - offset) {
      InShift(spans, offset, s);
      assert !Inside(Moved(s, offset), cut);
    }
  }

  // ---------- The laws ----------

  /** A prefix that reaches over the first stride starts the same way. */
  lemma {:induction false} PairsOfPrefix(text: Text, cut: nat)
    requires 2 <= |text| && Stride(text) <= cut <= |text|
    ensures Pairs(text[..cut]) == AtFront(text) + Shift(Pairs(text[..cut][Stride(text)..]), Stride(text))
  {
    if cut == 1 {
      assert text[..1][1..] == [];
    } else {
      assert text[..cut][0] == text[0] && text[..cut][1] == text[1];
    }
  }

  lemma {:induction false} OutsideTheRest(text: Text, cut: nat)
    requires 2 <= |text| && 0 < cut <= |text| && CutOutside(Pairs(text), cut)
    ensures Stride(text) <= cut && CutOutside(Pairs(text[Stride(text)..]), cut - Stride(text))
  {
    var k, rest := Stride(text), Shift(Pairs(text[Stride(text)..]), Stride(text));
    if k == 2 {
      var front := AtFront(text)[0];
      assert front in Pairs(text);
      assert Inside(front, 1);
    }
    assert forall s :: s in rest ==> s in Pairs(text);
    CutOutsideShift(Pairs(text[k..]), k, cut);
  }

  lemma {:induction false} PairsDecompose(text: Text, cut: nat)
    requires cut <= |text| && CutOutside(Pairs(text), cut)
    ensures Pairs(text) == Pairs(text[..cut]) + Shift(Pairs(text[cut..]), cut)
    decreases |text|
  {
    hide CutOutside, Shift, Pairs;
    PairsUnfold(text);
    if cut == 0 || |text| < 2 {
      DecomposeSmall(text, cut);
    } else {
      OutsideTheRest(text, cut);
      var k := Stride(text);
      PairsDecompose(text[k..], cut - k);
      DropThenDrop(text, k, cut - k);
      TakeThenDrop(text, k, cut);
      PairsOfPrefix(text, cut);
      Reassemble(AtFront(text), Pairs(text[..cut][k..]), Pairs(text[cut..]), k, cut);
    }
  }

  lemma {:induction false} PairsUnfold(text: Text)
    ensures |text| >= 2 ==> Pairs(text) == AtFront(text) + Shift(Pairs(text[Stride(text)..]), Stride(text))
  {}

  lemma {:induction false} DecomposeSmall(text: Text, cut: nat)
    requires cut <= |text| && (cut == 0 || |text| < 2)
    ensures Pairs(text) == Pairs(text[..cut]) + Shift(Pairs(text[cut..]), cut)
  {
    if cut == 0 {
      ShiftZero(Pairs(text));
      assert text[0..] == text && text[..0] == [];
    } else {
      assert text[cut..] == [] && text[..cut] == text;
    }
  }

  lemma {:induction false} Reassemble(first: seq<Span>, before: seq<Span>, after: seq<Span>, k: nat, cut: nat)
    requires k <= cut
    ensures first + Shift(before + Shift(after, cut - k), k) == (first + Shift(before, k)) + Shift(after, cut)
  {
    ShiftAppend(before, Shift(after, cut - k), k);
    ShiftTwice(after, cut - k, k);
    Assoc3(first, Shift(before, k), Shift(after, cut));
  }

  lemma {:induction false} PairsSettle(text: Text, p: nat, cut: nat)
    requires p <= |text| && cut + 1 <= p
    ensures StartingBefore(Pairs(text[..p]), cut) == StartingBefore(Pairs(text), cut)
    decreases |text|
  {
    if cut == 0 {
      NoneBeforeZero(Pairs(text));
      NoneBeforeZero(Pairs(text[..p]));
    } else {
      var k := Stride(text);
      TakeThenDrop(text, k, p);
      PairsOfPrefix(text, p);
      if k <= cut { PairsSettle(text[k..], p - k, cut - k); }
      SettleAfter(AtFront(text), Pairs(text[k..]), Pairs(text[k..][..p - k]), k, cut);
    }
  }

  lemma {:induction false} SettleAfter(first: seq<Span>, long: seq<Span>, short: seq<Span>, k: nat, cut: nat)
    requires |first| <= 1
    requires k <= cut ==> StartingBefore(long, cut - k) == StartingBefore(short, cut - k)
    ensures StartingBefore(first + Shift(short, k), cut) == StartingBefore(first + Shift(long, k), cut)
  {
    hide StartingBefore, Shift;
    SplitStartingBefore(first, Shift(long, k), cut);
    SplitStartingBefore(first, Shift(short, k), cut);
    ShiftStartingBefore(long, k, cut);
    ShiftStartingBefore(short, k, cut);
  }

  lemma {:induction false} SplitStartingBefore(first: seq<Span>, rest: seq<Span>, cut: nat)
    requires |first| <= 1
    ensures StartingBefore(first + rest, cut) == StartingBefore(first, cut) + StartingBefore(rest, cut)
  {
    if first == [] {
      assert first + rest == rest;
    } else {
      assert (first + rest)[1..] == rest;
    }
  }

  lemma {:induction false} NoneBeforeZero(spans: seq<Span>)
    ensures StartingBefore(spans, 0) == []
  {
    if spans != [] { NoneBeforeZero(spans[1..]); }
  }

  lemma {:induction false} PairsInOrder(text: Text)
    ensures InOrder(Pairs(text), 0, |text|)
    decreases |text|
  {
    if |text| >= 2 {
      var k := Stride(text);
      PairsInOrder(text[k..]);
      ShiftInOrder(Pairs(text[k..]), k, 0, |text| - k);
      var rest := Shift(Pairs(text[k..]), k);
      if k == 1 {
        InOrderEarlier(rest, 1, 0, |text|);
        assert AtFront(text) + rest == rest;
      } else {
        assert (AtFront(text) + rest)[1..] == rest;
      }
    }
  }

  ghost predicate Covers(text: Text, s: Span) {
    && s.end == s.start + 2 <= |text| && s.action == ActionOf(s.entity)
    && text[s.start] == G && (text[s.start + 1] == H || text[s.start + 1] == K)
  }

  /** Every reported span covers a "gh" or a "gk". */
  lemma {:induction false} PairsCover(text: Text, s: Span)
    requires s in Pairs(text)
    ensures Covers(text, s)
    decreases |text|
  {
    hide Shift;
    var k := Stride(text);
    if s !in AtFront(text) {
      ShiftedMembers(Pairs(text[k..]), k);
      var r :| r in Pairs(text[k..]) && s == Moved(r, k);
      PairsCover(text[k..], r);
    }
  }

  lemma {:induction false} InOrderEarlier(spans: seq<Span>, from: nat, earlier: nat, len: nat)
    requires earlier <= from && InOrder(spans, from, len)
    ensures InOrder(spans, earlier, len)
  {}

  lemma {:induction false} ShiftInOrder(spans: seq<Span>, offset: nat, from: nat, len: nat)
    requires InOrder(spans, from, len)
    ensures InOrder(Shift(spans, offset), from + offset, len + offset)
    decreases |spans|
  {
    if spans != [] {
      ShiftInOrder(spans[1..], offset, spans[0].end, len);
      assert Shift(spans, offset)[1..] == Shift(spans[1..], offset);
    }
  }

  lemma {:induction false} ShiftedMembers(spans: seq<Span>, offset: nat)
    ensures forall s :: s in Shift(spans, offset) ==> exists r :: r in spans && s == Moved(r, offset)
  {
    if spans != [] {
      ShiftedMembers(spans[1..], offset);
      assert spans[0] in spans && forall r :: r in spans[1..] ==> r in spans;
    }
  }

  lemma {:induction false} InOrderDisjoint(spans: seq<Span>, from: nat, len: nat)
    requires InOrder(spans, from, len)
    ensures Disjoint(spans) && forall s :: s in spans ==> from <= s.start < s.end <= len
    decreases |spans|
  {
    if spans != [] {
      InOrderDisjoint(spans[1..], spans[0].end, len);
      InOrderWithin(spans[1..], spans[0].end, len);
      assert forall j :: 0 < j < |spans| ==> spans[j] == spans[1..][j - 1] && spans[j] in spans[1..];
    }
  }

  lemma {:induction false} AsciiThenBoundary(text: Text, i: nat)
    requires Utf8.WellFormed(text) && i < |text| && text[i] <= 0x7F
    ensures Utf8.IsCharBoundary(text, i) && Utf8.IsCharBoundary(text, i + 1)
  {
    Utf8.BoundarySplits(text, i);
    var rest := text[i..];
    Utf8.WellFormedScan(rest);
    assert rest[0] == text[i];
    assert Utf8.First(rest) == Utf8.Complete(1);
    if i + 1 < |text| {
      assert rest[1..][0] == text[i + 1];
      assert Utf8.Scan(rest[1..]).status.Clean?;
      assert Utf8.First(rest[1..]).Complete?;
    }
  }

  lemma {:induction false} PairsWellPlaced(text: Text)
    requires Utf8.WellFormed(text)
    ensures WellPlaced(text, Pairs(text))
  {
    hide Pairs, InOrder;
    PairsInOrder(text);
    InOrderDisjoint(Pairs(text), 0, |text|);
    forall s | s in Pairs(text)
      ensures Utf8.IsCharBoundary(text, s.start) && Utf8.IsCharBoundary(text, s.end)
    {
      PairsCover(text, s);
      AsciiThenBoundary(text, s.start);
      AsciiThenBoundary(text, s.start + 1);
    }
  }

  lemma {:induction false} SortOfInOrder(spans: seq<Span>, from: nat, len: nat)
    requires InOrder(spans, from, len)
    ensures SortByStart(spans) == spans
    decreases |spans|
  {
    if spans != [] {
      SortOfInOrder(spans[1..], spans[0].end, len);
      assert spans == [spans[0]] + spans[1..];
    }
  }

  lemma {:induction false} FoundInScope(spans: seq<Span>)
    requires forall s :: s in spans ==> s.action == ActionOf(s.entity)
    ensures AsSpans(Found(spans)) == spans
  {
    if spans != [] {
      var s := spans[0];
      assert s in spans && s == Span(s.start, s.end, s.entity, ActionOf(s.entity));
      FoundInScope(spans[1..]);
      assert Found(spans)[1..] == Found(spans[1..]);
    }
  }

  lemma {:induction false} ScopeOfAll(ds: seq<Detection>)
    ensures Transformable(PairEngine(), ds) == ds && InScope(PairEngine(), ds) == AsSpans(ds) && |AsSpans(ds)| == |ds|
    ensures Marked(PairEngine(), ds) == AsSpans(ds)
  {
    if ds != [] {
      ScopeOfAll(ds[1..]);
      assert ds == [ds[0]] + ds[1..];
    }
  }

  lemma {:induction false} PairEngineIsLawful()
    ensures Lawful(PairEngine(), text => Pairs(text), Stars, 1)
  {
    var e, D := PairEngine(), text => Pairs(text);
    forall text: Text ensures ImplementsAt(e, D, text) && PlacesAt(D, text) {
      PairsInOrder(text);
      forall s | s in Pairs(text) ensures Covers(text, s) { PairsCover(text, s); }
      SortOfInOrder(Pairs(text), 0, |text|);
      FoundInScope(Pairs(text));
      ScopeOfAll(Found(Pairs(text)));
      if Utf8.WellFormed(text) { PairsWellPlaced(text); }
    }
    forall text: Text, ds: seq<Detection>, ops: map<Entity, Operator>, op: Operator ensures AnonymizesAt(e, Stars, text, ds, ops, op) {
      ScopeOfAll(ds);
    }
    forall text: Text, p: nat, cut: nat ensures SettlesAt(D, 1, text, p, cut) {
      if p <= |text| && cut + 1 <= p { PairsSettle(text, p, cut); }
    }
    forall text: Text, cut: nat ensures DecomposesAt(D, text, cut) {
      if cut <= |text| && CutOutside(Pairs(text), cut) { PairsDecompose(text, cut); }
    }
  }

  /** Both sides of the laws are inhabited: one text is rewritten, one blocked. */
  lemma {:induction false} PairEngineBlocks()
    ensures Scan(PairEngine(), [G, H]) == Some(Redacted([0x2A, 0x2A], 1))
    ensures Scan(PairEngine(), [G, K]) == Some(Blocked({"Key"}))
  {
    FoundAtFront(H);
    FoundAtFront(K);
    PairIsRewritten();
    var e, ds := PairEngine(), [Detection(0, 2, "Key")];
    assert ds[0] in ds;
    assert (set d | d in ds && e.actionFor(d.entity) == Block :: d.entity) == {"Key"};
  }

  lemma {:induction false} PairIsRewritten()
    ensures Scan(PairEngine(), [G, H]) == Some(Redacted([0x2A, 0x2A], 1))
  {
    var e, ds := PairEngine(), [Detection(0, 2, "Pair")];
    FoundAtFront(H);
    ScopeOfAll(ds);
    OnePair();
    PairEngineIsLawful();
    NoneBlocks(e, [G, H], ds);
    ScannedWeave(e, Stars, [G, H], ds);
    OneSpanWoven([G, H]);
  }

  lemma {:induction false} OneSpanWoven(text: Text)
    requires |text| == 2
    ensures Woven(Configured(PairEngine(), Stars), text, SortByStart(AsSpans([Detection(0, 2, "Pair")]))) == [0x2A, 0x2A]
  {
    var rewrite, spans := Configured(PairEngine(), Stars), [Span(0, 2, "Pair", Replace)];
    OnePair();
    assert spans[1..] == [] && InOrder(spans[1..], 2, 2);
    assert rewrite("Pair", text[0..2]) == [0x2A, 0x2A] && Weave(rewrite, text, [], 2) == [];
    assert Weave(rewrite, text, spans, 0) == text[0..0] + [0x2A, 0x2A] + [];
  }

  lemma {:induction false} OnePair()
    ensures SortByStart(AsSpans([Detection(0, 2, "Pair")])) == [Span(0, 2, "Pair", Replace)]
  {
    var ds := [Detection(0, 2, "Pair")];
    assert ds[1..] == [] && AsSpans(ds) == [Span(0, 2, "Pair", Replace)] + AsSpans([]);
    var spans := [Span(0, 2, "Pair", Replace)];
    assert AsSpans(ds) == spans && spans[1..] == [];
  }

  lemma {:induction false} FoundAtFront(second: Utf8.Byte)
    requires second == H || second == K
    ensures PairEngine().analyze([G, second]) == Some([Detection(0, 2, if second == H then "Pair" else "Key")])
  {
    var text: Text := [G, second];
    assert text[2..] == [];
    assert Pairs(text) == AtFront(text) + Shift(Pairs(text[2..]), 2);
    assert Pairs(text) == AtFront(text);
    assert AtFront(text)[1..] == [];
    assert Found(AtFront(text)) == [Detection(0, 2, if second == H then "Pair" else "Key")];
  }
}
