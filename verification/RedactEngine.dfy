/** The redaction engine over an abstract analyzer: locate in-scope entities, decide, rewrite. */
module RedactEngine {
  import opened Common
  import Utf8

  type Text = Utf8.Bytes
  type Entity = string

  datatype Action = Allow | Block | Replace | Mask | Hash

  datatype Operator = Redact | MaskKeepingLast4 | HashSha256(salt: string)

  datatype Detection = Detection(start: nat, end: nat, entity: Entity)

  datatype Span = Span(start: nat, end: nat, entity: Entity, action: Action)

  /** `Blocked` carries the sorted, de-duplicated entity types, that is, their set. */
  datatype Verdict = Clean | Redacted(text: Text, count: nat) | Blocked(entities: set<Entity>)

  /** The configured pipeline. `analyze` and `anonymize` are foreign code; `None` is their error. */
  datatype Engine = Engine(
    analyze: Text -> Option<seq<Detection>>,
    anonymize: (Text, seq<Detection>, map<Entity, Operator>, Operator) -> Option<(Text, nat)>,
    actionFor: Entity -> Action,
    defaultAction: Action,
    salt: string)

  function OperatorOf(action: Action, salt: string): Option<Operator> {
    match action
    case Allow => None
    case Block => None
    case Replace => Some(Redact)
    case Mask => Some(MaskKeepingLast4)
    case Hash => Some(HashSha256(salt))
  }

  // ---------- detect ----------

  function InScope(e: Engine, ds: seq<Detection>): seq<Span> {
    if ds == [] then []
    else
      var d := ds[0];
      var action := e.actionFor(d.entity);
      (if action == Allow then [] else [Span(d.start, d.end, d.entity, action)]) + InScope(e, ds[1..])
  }

  function InsertByStart(s: Span, sorted: seq<Span>): seq<Span> {
    if sorted == [] || s.start <= sorted[0].start then [s] + sorted
    else [sorted[0]] + InsertByStart(s, sorted[1..])
  }

  function SortByStart(spans: seq<Span>): seq<Span> {
    if spans == [] then [] else InsertByStart(spans[0], SortByStart(spans[1..]))
  }

  function Detect(e: Engine, text: Text): Option<seq<Span>> {
    if text == [] then Some([])
    else match e.analyze(text)
      case None => None
      case Some(ds) => Some(SortByStart(InScope(e, ds)))
  }

  function BlockingEntities(spans: seq<Span>): set<Entity> {
    set s | s in spans && s.action == Block :: s.entity
  }

  // ---------- scan ----------

  function Transformable(e: Engine, ds: seq<Detection>): seq<Detection> {
    if ds == [] then []
    else (if e.actionFor(ds[0].entity) == Allow then [] else [ds[0]]) + Transformable(e, ds[1..])
  }

  /** One operator per entity type that has one. */
  function PerEntity(e: Engine, ds: seq<Detection>): map<Entity, Operator> {
    map d | d in ds && OperatorOf(e.actionFor(d.entity), e.salt).Some?
      :: d.entity := OperatorOf(e.actionFor(d.entity), e.salt).value
  }

  function DefaultOperator(e: Engine): Operator {
    match OperatorOf(e.defaultAction, e.salt) case Some(op) => op case None => Redact
  }

  function Scan(e: Engine, text: Text): Option<Verdict> {
    if text == [] then Some(Clean)
    else match e.analyze(text)
      case None => None
      case Some(ds) =>
        var blocking := set d | d in ds && e.actionFor(d.entity) == Block :: d.entity;
        var transformable := Transformable(e, ds);
        if blocking != {} then Some(Blocked(blocking))
        else if transformable == [] then Some(Clean)
        else match e.anonymize(text, transformable, PerEntity(e, transformable), DefaultOperator(e))
          case None => None
          case Some((out, count)) => Some(Redacted(out, count))
  }

  /** The loop of `scan` that fills the operator table once per distinct entity type: the entities that
    * some detection has and whose action is a transform, each with the operator its action asks for. */
  method BuildPerEntity(e: Engine, transformable: seq<Detection>) returns (ops: map<Entity, Operator>)
    ensures ops == PerEntity(e, transformable)
    ensures forall entity :: entity in ops <==>
              e.actionFor(entity) != Allow && e.actionFor(entity) != Block && exists d :: d in transformable && d.entity == entity
    ensures forall entity :: entity in ops ==> AskedFor(e, entity, ops[entity])
  {
    ops := map[];
    for i := 0 to |transformable|
      invariant ops == PerEntity(e, transformable[..i])
    {
      var key := transformable[i].entity;
      assert transformable[..i + 1] == transformable[..i] + [transformable[i]];
      if key in ops { continue; }
      var op := OperatorOf(e.actionFor(key), e.salt);
      if op.Some? { ops := ops[key := op.value]; }
    }
    assert transformable[..|transformable|] == transformable;
  }

  /** The operator with which the configured action of an entity rewrites it. */
  ghost predicate AskedFor(e: Engine, entity: Entity, op: Operator) {
    match e.actionFor(entity)
    case Allow => false
    case Block => false
    case Replace => op == Redact
    case Mask => op == MaskKeepingLast4
    case Hash => op == HashSha256(e.salt)
  }

  /** What a caller forwards for a verdict that is not a block, and how many spans it counts. */
  function TextOf(v: Verdict, original: Text): Text
    requires !v.Blocked?
  {
    match v case Clean => original case Redacted(text, _) => text
  }

  function CountOf(v: Verdict): nat {
    match v case Redacted(_, count) => count case _ => 0
  }

  // ---------- Laws of the foreign analyzer and anonymizer ----------

  predicate Aligned(text: Text, spans: seq<Span>) {
    forall s :: s in spans ==>
      && s.start < s.end <= |text|
      && Utf8.IsCharBoundary(text, s.start) && Utf8.IsCharBoundary(text, s.end)
  }

  predicate Sorted(spans: seq<Span>) {
    forall i, j :: 0 <= i < j < |spans| ==> spans[i].start <= spans[j].start
  }

  predicate Disjoint(spans: seq<Span>) {
    forall i, j :: 0 <= i < j < |spans| ==> spans[i].end <= spans[j].start
  }

  predicate WellPlaced(text: Text, spans: seq<Span>) {
    Aligned(text, spans) && Disjoint(spans)
  }

  predicate Inside(s: Span, cut: nat) { s.start < cut < s.end }

  predicate CutOutside(spans: seq<Span>, cut: nat) {
    forall s :: s in spans ==> !Inside(s, cut)
  }

  function Moved(s: Span, offset: nat): Span { Span(s.start + offset, s.end + offset, s.entity, s.action) }

  function Shift(spans: seq<Span>, offset: nat): seq<Span> {
    if spans == [] then [] else [Moved(spans[0], offset)] + Shift(spans[1..], offset)
  }

  lemma {:induction false} ShiftLength(spans: seq<Span>, offset: nat)
    ensures |Shift(spans, offset)| == |spans|
  {
    if spans != [] { ShiftLength(spans[1..], offset); }
  }

  function StartingBefore(spans: seq<Span>, cut: nat): seq<Span> {
    if spans == [] then []
    else (if spans[0].start < cut then [spans[0]] else []) + StartingBefore(spans[1..], cut)
  }

  lemma {:induction false} InStartingBefore(spans: seq<Span>, cut: nat, s: Span)
    ensures s in StartingBefore(spans, cut) <==> s in spans && s.start < cut
  {
    if spans != [] { InStartingBefore(spans[1..], cut, s); }
  }

  /** The spans lie one after the other in `from..len`. */
  predicate InOrder(spans: seq<Span>, from: nat, len: nat) {
    if spans == [] then from <= len
    else from <= spans[0].start < spans[0].end <= len && InOrder(spans[1..], spans[0].end, len)
  }

  lemma {:induction false} WellPlacedInOrder(text: Text, spans: seq<Span>, from: nat)
    requires WellPlaced(text, spans) && from <= |text|
    requires spans != [] ==> from <= spans[0].start
    ensures InOrder(spans, from, |text|)
    decreases |spans|
  {
    if spans != [] {
      assert spans[0] in spans;
      WellPlacedInOrder(text, spans[1..], spans[0].end);
    }
  }

  /** The rewritten text: literal gaps, and each span's bytes through its operator. */
  function Weave(rewrite: (Entity, Text) -> Text, text: Text, spans: seq<Span>, from: nat): Text
    requires InOrder(spans, from, |text|)
    decreases |spans|
  {
    if spans == [] then text[from..]
    else
      var s := spans[0];
      text[from..s.start] + rewrite(s.entity, text[s.start..s.end]) + Weave(rewrite, text, spans[1..], s.end)
  }

  /** The whole text rewritten (spans that are out of place rewrite nothing). */
  function Woven(rewrite: (Entity, Text) -> Text, text: Text, spans: seq<Span>): Text {
    if InOrder(spans, 0, |text|) then Weave(rewrite, text, spans, 0) else text
  }

  /** `D(text)` is the detector the analyzer implements whenever it does not fail. */
  ghost predicate ImplementsAt(e: Engine, D: Text -> seq<Span>, text: Text) {
    Utf8.WellFormed(text) && Detect(e, text).Some? ==> Detect(e, text).value == D(text)
  }

  ghost predicate Implements(e: Engine, D: Text -> seq<Span>) {
    forall text: Text :: ImplementsAt(e, D, text)
  }

  /** Detections as spans; the anonymizer does not look at the action. */
  function Marked(e: Engine, ds: seq<Detection>): seq<Span> {
    if ds == [] then []
    else [Span(ds[0].start, ds[0].end, ds[0].entity, e.actionFor(ds[0].entity))] + Marked(e, ds[1..])
  }

  /** Each entity's bytes through its operator in the table, or else the default one. */
  function Through(apply: (Operator, Text) -> Text, ops: map<Entity, Operator>, fallback: Operator): (Entity, Text) -> Text {
    (entity: Entity, bytes: Text) => apply(if entity in ops then ops[entity] else fallback, bytes)
  }

  /** The anonymizer replaces each detection it is given by what one operator makes of its own bytes. */
  ghost predicate AnonymizesAt(e: Engine, apply: (Operator, Text) -> Text, text: Text, ds: seq<Detection>,
                               ops: map<Entity, Operator>, fallback: Operator)
  {
    var spans, result := SortByStart(Marked(e, ds)), e.anonymize(text, ds, ops, fallback);
    WellPlaced(text, spans) && result.Some? ==> result.value == (Woven(Through(apply, ops, fallback), text, spans), |ds|)
  }

  ghost predicate Anonymizes(e: Engine, apply: (Operator, Text) -> Text) {
    forall text: Text, ds: seq<Detection>, ops: map<Entity, Operator>, fallback: Operator :: AnonymizesAt(e, apply, text, ds, ops, fallback)
  }

  /** Each entity's bytes through the operator that its own configured action asks for; an entity that is
    * allowed or blocks is not rewritten. */
  function Configured(e: Engine, apply: (Operator, Text) -> Text): (Entity, Text) -> Text {
    (entity: Entity, bytes: Text) =>
      match e.actionFor(entity)
      case Allow => bytes
      case Block => bytes
      case Replace => apply(Redact, bytes)
      case Mask => apply(MaskKeepingLast4, bytes)
      case Hash => apply(HashSha256(e.salt), bytes)
  }

  /** Spans are non-empty, disjoint, in order, and on character boundaries. */
  ghost predicate PlacesAt(D: Text -> seq<Span>, text: Text) {
    Utf8.WellFormed(text) ==> WellPlaced(text, D(text))
  }

  ghost predicate PlacesWell(D: Text -> seq<Span>) {
    forall text: Text :: PlacesAt(D, text)
  }

  /** Bounded right lookahead: what begins before an offset is settled once `lookahead` more bytes are
    * there. In particular no entity is longer than `lookahead + 1`. */
  ghost predicate SettlesAt(D: Text -> seq<Span>, lookahead: nat, text: Text, p: nat, cut: nat) {
    Utf8.WellFormed(text) && p <= |text| && Utf8.IsCharBoundary(text, p) && cut + lookahead <= p ==>
    StartingBefore(D(text[..p]), cut) == StartingBefore(D(text), cut)
  }

  ghost predicate SettlesWithin(D: Text -> seq<Span>, lookahead: nat) {
    forall text: Text, p: nat, cut: nat :: SettlesAt(D, lookahead, text, p, cut)
  }

  /** A cut through no span separates the text into two that are detected independently. */
  ghost predicate DecomposesAt(D: Text -> seq<Span>, text: Text, cut: nat) {
    Utf8.WellFormed(text) && cut <= |text| && Utf8.IsCharBoundary(text, cut) && CutOutside(D(text), cut) ==>
    D(text) == D(text[..cut]) + Shift(D(text[cut..]), cut)
  }

  ghost predicate Decomposes(D: Text -> seq<Span>) {
    forall text: Text, cut: nat :: DecomposesAt(D, text, cut)
  }

  ghost predicate Lawful(e: Engine, D: Text -> seq<Span>, apply: (Operator, Text) -> Text, lookahead: nat) {
    Implements(e, D) && Anonymizes(e, apply) && PlacesWell(D) && SettlesWithin(D, lookahead) && Decomposes(D)
  }

  lemma {:induction false} DetectsNothingInNothing(D: Text -> seq<Span>)
    requires PlacesWell(D)
    ensures D([]) == []
  {
    assert Concat<Utf8.Byte>([]) == [];
    assert Utf8.WellFormed([]);
    assert PlacesAt(D, []);
    WellPlacedInOrder([], D([]), 0);
  }

  lemma {:induction false} SortKeepsMembers(spans: seq<Span>, s: Span)
    ensures s in SortByStart(spans) <==> s in spans
  {
    if spans != [] {
      SortKeepsMembers(spans[1..], s);
      InsertKeepsMembers(spans[0], SortByStart(spans[1..]), s);
    }
  }

  lemma {:induction false} InsertKeepsMembers(x: Span, sorted: seq<Span>, s: Span)
    ensures s in InsertByStart(x, sorted) <==> s == x || s in sorted
  {
    if sorted != [] && x.start > sorted[0].start { InsertKeepsMembers(x, sorted[1..], s); }
  }

  lemma {:induction false} InScopeMembers(e: Engine, ds: seq<Detection>, s: Span)
    ensures s in InScope(e, ds) <==>
            s.action != Allow && s.action == e.actionFor(s.entity) && Detection(s.start, s.end, s.entity) in ds
  {
    if ds != [] { InScopeMembers(e, ds[1..], s); }
  }

  lemma {:induction false} SortKeepsLength(spans: seq<Span>)
    ensures |SortByStart(spans)| == |spans|
  {
    if spans != [] {
      SortKeepsLength(spans[1..]);
      InsertLength(spans[0], SortByStart(spans[1..]));
    }
  }

  lemma {:induction false} InsertLength(x: Span, sorted: seq<Span>)
    ensures |InsertByStart(x, sorted)| == |sorted| + 1
  {
    if sorted != [] && x.start > sorted[0].start { InsertLength(x, sorted[1..]); }
  }

  /** What `detect` reports: every detection whose configured action is not to allow it, once for each time
    * it is found, with that action, in the order of their starts. */
  lemma {:induction false} DetectIsExact(e: Engine, text: Text, ds: seq<Detection>)
    requires text != [] && e.analyze(text) == Some(ds)
    ensures Detect(e, text).Some?
    ensures var spans := Detect(e, text).value;
            && Sorted(spans)
            && (forall s :: multiset(spans)[s] ==
                  if s.action != Allow && s.action == e.actionFor(s.entity) then multiset(ds)[Detection(s.start, s.end, s.entity)] else 0)
  {
    SortIsSorted(InScope(e, ds));
    forall s ensures multiset(SortByStart(InScope(e, ds)))[s] ==
        if s.action != Allow && s.action == e.actionFor(s.entity) then multiset(ds)[Detection(s.start, s.end, s.entity)] else 0
    {
      InScopeTimes(e, ds, s);
    }
  }

  lemma {:induction false} InScopeTimes(e: Engine, ds: seq<Detection>, s: Span)
    ensures multiset(InScope(e, ds))[s] ==
        if s.action != Allow && s.action == e.actionFor(s.entity) then multiset(ds)[Detection(s.start, s.end, s.entity)] else 0
  {
    if ds != [] {
      InScopeTimes(e, ds[1..], s);
      assert ds == [ds[0]] + ds[1..];
      var mine := if e.actionFor(ds[0].entity) == Allow then [] else [Span(ds[0].start, ds[0].end, ds[0].entity, e.actionFor(ds[0].entity))];
      assert InScope(e, ds) == mine + InScope(e, ds[1..]);
    }
  }

  lemma {:induction false} SortIsSorted(spans: seq<Span>)
    ensures Sorted(SortByStart(spans)) && multiset(SortByStart(spans)) == multiset(spans)
  {
    if spans != [] {
      SortIsSorted(spans[1..]);
      InsertIsSorted(spans[0], SortByStart(spans[1..]));
      assert spans == [spans[0]] + spans[1..];
    }
  }

  lemma {:induction false} InsertIsSorted(x: Span, sorted: seq<Span>)
    requires Sorted(sorted)
    ensures Sorted(InsertByStart(x, sorted)) && multiset(InsertByStart(x, sorted)) == multiset(sorted) + multiset{x}
  {
    if sorted != [] {
      assert sorted == [sorted[0]] + sorted[1..];
      if x.start > sorted[0].start {
        InsertIsSorted(x, sorted[1..]);
        forall s | s in InsertByStart(x, sorted[1..]) ensures sorted[0].start <= s.start { InsertKeepsMembers(x, sorted[1..], s); }
      }
    }
  }

  /** `scan` blocks on exactly the texts in which `detect` reports a blocking span. */
  lemma {:induction false} ScanBlocksLikeDetect(e: Engine, text: Text)
    requires Scan(e, text).Some? && Detect(e, text).Some?
    ensures Scan(e, text).value.Blocked? <==> BlockingEntities(Detect(e, text).value) != {}
    ensures Scan(e, text).value.Blocked? ==> Scan(e, text).value.entities == BlockingEntities(Detect(e, text).value)
  {
    if text != [] {
      var ds := e.analyze(text).value;
      var blocking := set d | d in ds && e.actionFor(d.entity) == Block :: d.entity;
      var spans := Detect(e, text).value;
      forall x ensures x in blocking <==> x in BlockingEntities(spans) {
        if x in blocking {
          var d :| d in ds && e.actionFor(d.entity) == Block && d.entity == x;
          var s := Span(d.start, d.end, d.entity, Block);
          InScopeMembers(e, ds, s);
          SortKeepsMembers(InScope(e, ds), s);
        }
        if x in BlockingEntities(spans) {
          var s :| s in spans && s.action == Block && s.entity == x;
          SortKeepsMembers(InScope(e, ds), s);
          InScopeMembers(e, ds, s);
        }
      }
      assert blocking == BlockingEntities(spans);
    }
  }

  lemma {:induction false} MarkedInScope(e: Engine, ds: seq<Detection>)
    ensures InScope(e, ds) == Marked(e, Transformable(e, ds)) && |Marked(e, Transformable(e, ds))| == |Transformable(e, ds)|
  {
    if ds != [] {
      MarkedInScope(e, ds[1..]);
      var rest := Transformable(e, ds[1..]);
      if e.actionFor(ds[0].entity) != Allow {
        assert ([ds[0]] + rest)[1..] == rest;
      } else {
        assert [] + rest == rest && [] + InScope(e, ds[1..]) == InScope(e, ds[1..]);
      }
    }
  }

  /** Two rewritings that agree on the entities of the spans weave the same text. */
  lemma {:induction false} WeaveSame(a: (Entity, Text) -> Text, b: (Entity, Text) -> Text, text: Text, spans: seq<Span>, from: nat)
    requires InOrder(spans, from, |text|) && forall s, bytes :: s in spans ==> a(s.entity, bytes) == b(s.entity, bytes)
    ensures Weave(a, text, spans, from) == Weave(b, text, spans, from)
    decreases |spans|
  {
    if spans != [] {
      assert spans[0] in spans && forall s :: s in spans[1..] ==> s in spans;
      WeaveSame(a, b, text, spans[1..], spans[0].end);
    }
  }

  /** The table holds, for every entity that is rewritten, the operator its action asks for. */
  lemma {:induction false} TableAsConfigured(e: Engine, apply: (Operator, Text) -> Text, ds: seq<Detection>, s: Span, bytes: Text)
    requires s in SortByStart(InScope(e, ds)) && s.action != Block
    ensures Through(apply, PerEntity(e, Transformable(e, ds)), DefaultOperator(e))(s.entity, bytes) == Configured(e, apply)(s.entity, bytes)
  {
    SortKeepsMembers(InScope(e, ds), s);
    InScopeMembers(e, ds, s);
    var d := Detection(s.start, s.end, s.entity);
    TransformableMembers(e, ds, d);
    assert d in Transformable(e, ds);
    assert d.entity in PerEntity(e, Transformable(e, ds));
  }

  lemma {:induction false} TransformableMembers(e: Engine, ds: seq<Detection>, d: Detection)
    ensures d in Transformable(e, ds) <==> d in ds && e.actionFor(d.entity) != Allow
  {
    if ds != [] { TransformableMembers(e, ds[1..], d); }
  }

  /** A scan that does not block replaces every span by what the operator of its own entity's configured
    * action makes of its bytes, leaves the rest as it is, and counts one rewrite per span; whatever the
    * default action is. */
  lemma {:induction false} ScanIsWeave(e: Engine, D: Text -> seq<Span>, apply: (Operator, Text) -> Text, text: Text)
    requires Implements(e, D) && Anonymizes(e, apply) && PlacesWell(D)
    requires Utf8.WellFormed(text) && Scan(e, text).Some? && !Scan(e, text).value.Blocked?
    ensures TextOf(Scan(e, text).value, text) == Woven(Configured(e, apply), text, D(text))
    ensures CountOf(Scan(e, text).value) == |D(text)|
  {
    if text == [] {
      DetectsNothingInNothing(D);
    } else {
      var ds := e.analyze(text).value;
      assert ImplementsAt(e, D, text);
      var spans := SortByStart(InScope(e, ds));
      assert D(text) == spans && PlacesAt(D, text);
      MarkedInScope(e, ds);
      SortKeepsLength(InScope(e, ds));
      NoneBlocks(e, text, ds);
      ScannedWeave(e, apply, text, ds);
    }
  }

  lemma {:induction false} NoneBlocks(e: Engine, text: Text, ds: seq<Detection>)
    requires text != [] && e.analyze(text) == Some(ds) && Scan(e, text).Some? && !Scan(e, text).value.Blocked?
    ensures forall s :: s in SortByStart(InScope(e, ds)) ==> s.action != Block
  {
    ScanBlocksLikeDetect(e, text);
    forall s | s in SortByStart(InScope(e, ds)) ensures s.action != Block {
      assert s.action == Block ==> s.entity in BlockingEntities(SortByStart(InScope(e, ds)));
    }
  }

  lemma {:induction false} ScannedWeave(e: Engine, apply: (Operator, Text) -> Text, text: Text, ds: seq<Detection>)
    requires Anonymizes(e, apply) && text != [] && e.analyze(text) == Some(ds)
    requires Scan(e, text).Some? && !Scan(e, text).value.Blocked?
    requires WellPlaced(text, SortByStart(InScope(e, ds)))
    requires forall s :: s in SortByStart(InScope(e, ds)) ==> s.action != Block
    ensures TextOf(Scan(e, text).value, text) == Woven(Configured(e, apply), text, SortByStart(InScope(e, ds)))
    ensures CountOf(Scan(e, text).value) == |InScope(e, ds)|
  {
    hide Weave, WellPlaced, PerEntity, DefaultOperator, Configured;
    var ts, spans := Transformable(e, ds), SortByStart(InScope(e, ds));
    MarkedInScope(e, ds);
    WellPlacedInOrder(text, spans, 0);
    if ts == [] {
      WeaveNothing(Configured(e, apply), text);
    } else {
      var ops, fallback := PerEntity(e, ts), DefaultOperator(e);
      assert AnonymizesAt(e, apply, text, ts, ops, fallback);
      forall s, bytes | s in spans ensures Through(apply, ops, fallback)(s.entity, bytes) == Configured(e, apply)(s.entity, bytes) {
        TableAsConfigured(e, apply, ds, s, bytes);
      }
      WeaveSame(Through(apply, ops, fallback), Configured(e, apply), text, spans, 0);
    }
  }

  lemma {:induction false} WeaveNothing(rewrite: (Entity, Text) -> Text, text: Text)
    ensures Woven(rewrite, text, []) == text
  {}

  // ---------- Weaving across a cut ----------

  lemma {:induction false} InOrderWithin(spans: seq<Span>, from: nat, len: nat)
    requires InOrder(spans, from, len)
    ensures from <= len
  {
    if spans != [] { InOrderWithin(spans[1..], spans[0].end, len); }
  }

  lemma {:induction false} WeaveCons(rewrite: (Entity, Text) -> Text, text: Text, s: Span, rest: seq<Span>, from: nat)
    requires from <= s.start < s.end && InOrder(rest, s.end, |text|)
    ensures s.end <= |text| && InOrder([s] + rest, from, |text|)
    ensures Weave(rewrite, text, [s] + rest, from)
         == (text[from..s.start] + rewrite(s.entity, text[s.start..s.end])) + Weave(rewrite, text, rest, s.end)
  {
    InOrderWithin(rest, s.end, |text|);
    assert ([s] + rest)[1..] == rest;
  }

  lemma {:induction false} WeaveShifted(rewrite: (Entity, Text) -> Text, text: Text, spans: seq<Span>, cut: nat, from: nat)
    requires cut <= |text| && InOrder(spans, from, |text| - cut)
    ensures InOrder(Shift(spans, cut), cut + from, |text|)
    ensures Weave(rewrite, text, Shift(spans, cut), cut + from) == Weave(rewrite, text[cut..], spans, from)
    decreases |spans|
  {
    if spans == [] {
      DropThenSlice(text, cut, from, |text| - cut);
    } else {
      var s, rest := spans[0], spans[1..];
      assert spans == [s] + rest;
      WeaveShifted(rewrite, text, rest, cut, s.end);
      ConsShifted(rewrite, text, s, rest, cut, from);
    }
  }

  lemma {:induction false} ConsShifted(rewrite: (Entity, Text) -> Text, text: Text, s: Span, rest: seq<Span>, cut: nat, from: nat)
    requires cut <= |text| && from <= s.start < s.end && InOrder(rest, s.end, |text| - cut)
    requires InOrder(Shift(rest, cut), cut + s.end, |text|)
    requires Weave(rewrite, text, Shift(rest, cut), cut + s.end) == Weave(rewrite, text[cut..], rest, s.end)
    ensures Shift([s] + rest, cut) == [Moved(s, cut)] + Shift(rest, cut)
    ensures InOrder([s] + rest, from, |text| - cut) && InOrder(Shift([s] + rest, cut), cut + from, |text|)
    ensures Weave(rewrite, text, Shift([s] + rest, cut), cut + from) == Weave(rewrite, text[cut..], [s] + rest, from)
  {
    hide InOrder, Weave;
    assert ([s] + rest)[1..] == rest;
    assert |text[cut..]| == |text| - cut;
    WeaveCons(rewrite, text, Moved(s, cut), Shift(rest, cut), cut + from);
    WeaveCons(rewrite, text[cut..], s, rest, from);
    DropThenSlice(text, cut, from, s.start);
    DropThenSlice(text, cut, s.start, s.end);
  }

  lemma {:induction false} WeaveGap(rewrite: (Entity, Text) -> Text, text: Text, spans: seq<Span>, from: nat, to: nat)
    requires from <= to && InOrder(spans, to, |text|)
    ensures InOrder(spans, from, |text|)
    ensures to <= |text|
    ensures Weave(rewrite, text, spans, from) == text[from..to] + Weave(rewrite, text, spans, to)
  {
    InOrderWithin(spans, to, |text|);
    if spans == [] {
      SplitSlice(text, from, to, |text|);
    } else {
      var s := spans[0];
      SplitSlice(text, from, to, s.start);
      Assoc(text[from..to], text[to..s.start], rewrite(s.entity, text[s.start..s.end]), Weave(rewrite, text, spans[1..], s.end));
    }
  }

  lemma {:induction false} WeaveSplits(rewrite: (Entity, Text) -> Text, text: Text, left: seq<Span>, right: seq<Span>, cut: nat, from: nat)
    requires cut <= |text| && InOrder(left, from, cut) && InOrder(right, 0, |text| - cut)
    ensures InOrder(left + Shift(right, cut), from, |text|)
    ensures Weave(rewrite, text, left + Shift(right, cut), from)
         == Weave(rewrite, text[..cut], left, from) + Weave(rewrite, text[cut..], right, 0)
    decreases |left|
  {
    if left == [] {
      assert left + Shift(right, cut) == Shift(right, cut);
      WeaveShifted(rewrite, text, right, cut, 0);
      WeaveGap(rewrite, text, Shift(right, cut), from, cut);
      TakeThenSlice(text, cut, from, cut);
    } else {
      var s, rest := left[0], left[1..];
      assert left == [s] + rest;
      WeaveSplits(rewrite, text, rest, right, cut, s.end);
      Assoc3([s], rest, Shift(right, cut));
      WeaveFirst(rewrite, text, s, rest, rest + Shift(right, cut), Weave(rewrite, text[cut..], right, 0), cut, from);
    }
  }

  lemma {:induction false} WeaveFirst(rewrite: (Entity, Text) -> Text, text: Text, s: Span, left: seq<Span>, all: seq<Span>, tail: Text, cut: nat, from: nat)
    requires cut <= |text| && from <= s.start < s.end && InOrder(left, s.end, cut) && InOrder(all, s.end, |text|)
    requires Weave(rewrite, text, all, s.end) == Weave(rewrite, text[..cut], left, s.end) + tail
    ensures InOrder([s] + left, from, cut) && InOrder([s] + all, from, |text|)
    ensures Weave(rewrite, text, [s] + all, from) == Weave(rewrite, text[..cut], [s] + left, from) + tail
  {
    hide Weave, InOrder;
    assert |text[..cut]| == cut;
    WeaveCons(rewrite, text, s, all, from);
    WeaveCons(rewrite, text[..cut], s, left, from);
    TakeThenSlice(text, cut, from, s.start);
    TakeThenSlice(text, cut, s.start, s.end);
    Assoc3(text[from..s.start] + rewrite(s.entity, text[s.start..s.end]), Weave(rewrite, text[..cut], left, s.end), tail);
  }

  lemma {:induction false} WovenSplits(rewrite: (Entity, Text) -> Text, text: Text, left: seq<Span>, right: seq<Span>, cut: nat)
    requires cut <= |text| && InOrder(left, 0, cut) && InOrder(right, 0, |text| - cut)
    ensures Woven(rewrite, text, left + Shift(right, cut))
         == Woven(rewrite, text[..cut], left) + Woven(rewrite, text[cut..], right)
  {
    hide InOrder, Weave, Shift;
    assert |text[..cut]| == cut && |text[cut..]| == |text| - cut;
    WeaveSplits(rewrite, text, left, right, cut, 0);
  }

  lemma {:induction false} HalvesInOrder(D: Text -> seq<Span>, text: Text, cut: nat)
    requires PlacesWell(D) && Utf8.WellFormed(text) && cut <= |text| && Utf8.IsCharBoundary(text, cut)
    ensures InOrder(D(text[..cut]), 0, cut) && InOrder(D(text[cut..]), 0, |text| - cut)
  {
    hide InOrder, WellPlaced;
    var before, after := text[..cut], text[cut..];
    Utf8.BoundarySplits(text, cut);
    assert PlacesAt(D, before) && PlacesAt(D, after);
    WellPlacedInOrder(before, D(before), 0);
    WellPlacedInOrder(after, D(after), 0);
  }

  /** A lawful detector's text can be redacted in two halves at any cut through no span. */
  lemma {:induction false} RedactionSplits(D: Text -> seq<Span>, rewrite: (Entity, Text) -> Text, text: Text, cut: nat)
    requires PlacesWell(D) && Decomposes(D)
    requires Utf8.WellFormed(text) && cut <= |text| && Utf8.IsCharBoundary(text, cut) && CutOutside(D(text), cut)
    ensures Woven(rewrite, text, D(text))
         == Woven(rewrite, text[..cut], D(text[..cut])) + Woven(rewrite, text[cut..], D(text[cut..]))
    ensures |D(text)| == |D(text[..cut])| + |D(text[cut..])|
    ensures BlockingEntities(D(text)) == BlockingEntities(D(text[..cut])) + BlockingEntities(D(text[cut..]))
  {
    hide Woven, InOrder, Shift, BlockingEntities, WellPlaced;
    assert DecomposesAt(D, text, cut);
    var left, right := D(text[..cut]), D(text[cut..]);
    HalvesInOrder(D, text, cut);
    WovenSplits(rewrite, text, left, right, cut);
    BlockingAppend(left, Shift(right, cut));
    BlockingShift(right, cut);
    ShiftLength(right, cut);
  }

  lemma {:induction false} BlockingShift(spans: seq<Span>, cut: nat)
    ensures BlockingEntities(Shift(spans, cut)) == BlockingEntities(spans)
  {
    if spans != [] {
      BlockingShift(spans[1..], cut);
      BlockingAppend([spans[0]], spans[1..]);
      BlockingAppend([Moved(spans[0], cut)], Shift(spans[1..], cut));
      assert [spans[0]] + spans[1..] == spans;
      BlockingOne(spans[0]);
      BlockingOne(Moved(spans[0], cut));
    }
  }

  lemma {:induction false} BlockingOne(s: Span)
    ensures BlockingEntities([s]) == if s.action == Block then {s.entity} else {}
  {
    if s.action == Block { assert s in [s]; }
  }

  lemma {:induction false} BlockingAppend(a: seq<Span>, b: seq<Span>)
    ensures BlockingEntities(a + b) == BlockingEntities(a) + BlockingEntities(b)
  {
    forall x ensures x in BlockingEntities(a + b) <==> x in BlockingEntities(a) + BlockingEntities(b) {
      assert forall s :: s in a + b <==> s in a || s in b;
    }
  }

  // ---------- The two calls a streaming caller makes ----------

  datatype Scanner = Scanner(detect: Text -> Option<seq<Span>>, scan: Text -> Option<Verdict>)

  function ScannerOf(e: Engine): Scanner {
    Scanner(text => Detect(e, text), text => Scan(e, text))
  }

  /** What lawful detection and per-span rewriting make of the two calls. */
  ghost predicate ScansAt(sc: Scanner, D: Text -> seq<Span>, rewrite: (Entity, Text) -> Text, text: Text) {
    Utf8.WellFormed(text) ==>
      && (sc.detect(text).Some? ==> sc.detect(text).value == D(text))
      && (sc.scan(text).Some? ==> VerdictFor(sc.scan(text).value, text, D(text), rewrite))
  }

  ghost predicate VerdictFor(v: Verdict, text: Text, spans: seq<Span>, rewrite: (Entity, Text) -> Text) {
    if BlockingEntities(spans) != {} then v == Blocked(BlockingEntities(spans))
    else !v.Blocked? && TextOf(v, text) == Woven(rewrite, text, spans) && CountOf(v) == |spans|
  }

  ghost predicate LawfulScanner(sc: Scanner, D: Text -> seq<Span>, rewrite: (Entity, Text) -> Text, lookahead: nat) {
    && PlacesWell(D) && SettlesWithin(D, lookahead) && Decomposes(D)
    && forall text: Text :: ScansAt(sc, D, rewrite, text)
  }

  lemma {:induction false} EngineIsLawfulScanner(e: Engine, D: Text -> seq<Span>, apply: (Operator, Text) -> Text, lookahead: nat)
    requires Lawful(e, D, apply, lookahead)
    ensures LawfulScanner(ScannerOf(e), D, Configured(e, apply), lookahead)
  {
    forall text: Text ensures ScansAt(ScannerOf(e), D, Configured(e, apply), text) {
      assert ImplementsAt(e, D, text);
      if Utf8.WellFormed(text) && Scan(e, text).Some? {
        ScanBlocksLikeDetect(e, text);
        if !Scan(e, text).value.Blocked? { ScanIsWeave(e, D, apply, text); }
      }
    }
  }
}
