/** The editor's server-sent-events framer and tool-call accumulator (ide/vscode/src/sse.ts,
  * ide/vscode/src/stream.ts). Text is a sequence of characters; decoding bytes and parsing
  * JSON are foreign code, so JSON appears as a pair of arbitrary functions. */
module SseStream {
  import opened Common

  // ---------------------------------------------------------------- framing

  predicate BlankAt(s: string, i: int) {
    0 <= i && i + 1 < |s| && s[i] == '\n' && s[i + 1] == '\n'
  }

  ghost predicate NoBlank(s: string) {
    forall i :: !BlankAt(s, i)
  }

  /** `indexOf('\n\n')`, searching from `k`. */
  function BlankFrom(s: string, k: nat): (r: Option<nat>)
    ensures r.Some? ==> k <= r.value && BlankAt(s, r.value) && forall i | k <= i < r.value :: !BlankAt(s, i)
    ensures r.None? ==> forall i | k <= i :: !BlankAt(s, i)
    decreases |s| - k
  {
    if k + 1 >= |s| then None else if BlankAt(s, k) then Some(k) else BlankFrom(s, k + 1)
  }

  datatype Framing = Framing(events: seq<string>, rest: string)

  /** The complete events of a text and the unterminated remainder. */
  function Frame(s: string): (f: Framing)
    ensures NoBlank(f.rest)
    ensures f.events == [] ==> f.rest == s
    decreases |s|
  {
    match BlankFrom(s, 0)
    case None => Framing([], s)
    case Some(b) =>
      var later := Frame(s[b + 2..]);
      Framing([s[..b]] + later.events, later.rest)
  }

  function Terminated(events: seq<string>): string {
    if events == [] then "" else events[0] + "\n\n" + Terminated(events[1..])
  }

  ghost predicate Decomposes(s: string, f: Framing) {
    && s == Terminated(f.events) + f.rest
    && NoBlank(f.rest)
    && forall i | 0 <= i < |f.events| :: NoBlank(f.events[i] + "\n")
  }

  lemma {:induction false} FirstBlank(s: string, b: nat)
    requires BlankAt(s, b) && forall i | 0 <= i < b :: !BlankAt(s, i)
    ensures BlankFrom(s, 0) == Some(b)
  {}

  lemma {:induction false} BlankEndsEvent(e: string, tail: string)
    ensures NoBlank(e + "\n") <==> BlankFrom(e + "\n\n" + tail, 0) == Some(|e|)
  {
    var s := e + "\n\n" + tail;
    assert BlankAt(s, |e|);
    assert forall i | i < |e| :: BlankAt(s, i) <==> BlankAt(e + "\n", i);
    assert forall i | i >= |e| :: !BlankAt(e + "\n", i);
  }

  /** `Frame` is the one and only way to cut a text into events that hold no blank line. */
  lemma {:induction false} FrameIsTheDecomposition(s: string, f: Framing)
    ensures Decomposes(s, f) <==> Frame(s) == f
  {
    FrameDecomposes(s);
    if Decomposes(s, f) { DecompositionIsUnique(s, f); }
  }

  lemma {:induction false} DecompositionIsUnique(s: string, f: Framing)
    requires Decomposes(s, f)
    ensures Frame(s) == f
    decreases |f.events|
  {
    if f.events == [] {
      assert s == f.rest;
    } else {
      BlankHeads(s, f);
      var later := s[|f.events[0]| + 2..];
      DecompositionIsUnique(later, Framing(f.events[1..], f.rest));
      assert f.events == [f.events[0]] + f.events[1..];
    }
  }

  lemma {:induction false} BlankHeads(s: string, f: Framing)
    requires f.events != [] && Decomposes(s, f)
    ensures BlankFrom(s, 0) == Some(|f.events[0]|)
    ensures s[..|f.events[0]|] == f.events[0]
    ensures s[|f.events[0]| + 2..] == Terminated(f.events[1..]) + f.rest
  {
    var e := f.events[0];
    var tail := Terminated(f.events[1..]) + f.rest;
    assert s == e + "\n\n" + tail;
    BlankEndsEvent(e, tail);
  }

  lemma {:induction false} FrameDecomposes(s: string)
    ensures Decomposes(s, Frame(s))
    decreases |s|
  {
    match BlankFrom(s, 0)
    case None => assert s == "" + s;
    case Some(b) =>
      FrameDecomposes(s[b + 2..]);
      DecomposesStep(s, b, Frame(s[b + 2..]));
  }

  lemma {:induction false} DecomposesStep(s: string, b: nat, later: Framing)
    requires BlankFrom(s, 0) == Some(b)
    requires Decomposes(s[b + 2..], later)
    ensures Decomposes(s, Framing([s[..b]] + later.events, later.rest))
  {
    var e := s[..b];
    assert s == e + "\n\n" + s[b + 2..];
    BlankEndsEvent(e, s[b + 2..]);
    var events := [e] + later.events;
    assert events[1..] == later.events;
    assert s == Terminated(events) + later.rest;
    forall i | 0 <= i < |events| ensures NoBlank(events[i] + "\n") {
      if i > 0 { assert events[i] == later.events[i - 1]; }
    }
  }

  /** Framing a buffer and then what follows it is framing the whole text. */
  lemma {:induction false} FrameAppend(a: string, b: string)
    ensures Frame(a + b).events == Frame(a).events + Frame(Frame(a).rest + b).events
    ensures Frame(a + b).rest == Frame(Frame(a).rest + b).rest
    decreases |a|
  {
    match BlankFrom(a, 0)
    case None =>
    case Some(k) =>
      assert forall i | 0 <= i < k :: BlankAt(a + b, i) ==> BlankAt(a, i);
      FirstBlank(a + b, k);
      assert (a + b)[..k] == a[..k];
      assert (a + b)[k + 2..] == a[k + 2..] + b;
      FrameAppend(a[k + 2..], b);
      Assoc3([a[..k]], Frame(a[k + 2..]).events, Frame(Frame(a[k + 2..]).rest + b).events);
  }

  // ---------------------------------------------------------------- payloads

  /** `split('\n')`. */
  function Split(s: string): (lines: seq<string>)
    ensures |lines| > 0
  {
    if s == "" then [""] else Grow(s[0], Split(s[1..]))
  }

  /** What JavaScript's `trim` strips. */
  predicate IsSpace(c: char) {
    || c in "\t\n\r \U{000B}\U{000C}\U{00A0}\U{1680}\U{2028}\U{2029}\U{202F}\U{205F}\U{3000}\U{FEFF}"
    || '\U{2000}' <= c <= '\U{200A}'
  }

  function TrimStart(s: string): (r: string)
    ensures r != "" ==> !IsSpace(r[0])
    ensures |r| <= |s| && r == s[|s| - |r|..] && forall i | 0 <= i < |s| - |r| :: IsSpace(s[i])
  {
    if s != "" && IsSpace(s[0]) then TrimStart(s[1..]) else s
  }

  function TrimEnd(s: string): (r: string)
    ensures r != "" ==> !IsSpace(r[|r| - 1])
    ensures |r| <= |s| && r == s[..|r|] && forall i | |r| <= i < |s| :: IsSpace(s[i])
  {
    if s != "" && IsSpace(s[|s| - 1]) then TrimEnd(s[..|s| - 1]) else s
  }

  function Trim(s: string): string { TrimEnd(TrimStart(s)) }

  predicate IsData(line: string) { "data:" <= line }

  function LinePayload(line: string): seq<string> {
    if IsData(line) then [Trim(line[5..])] else []
  }

  function DataLines(lines: seq<string>): seq<string> {
    if lines == [] then [] else LinePayload(lines[0]) + DataLines(lines[1..])
  }

  function PayloadsOf(events: seq<string>): seq<string> {
    if events == [] then [] else DataLines(Split(events[0])) + PayloadsOf(events[1..])
  }

  /** Every payload a text completes. */
  function Payloads(text: string): seq<string> { PayloadsOf(Frame(text).events) }

  /** `Split`, told the lines of what follows the first character. */
  function Grow(c: char, later: seq<string>): (lines: seq<string>)
    requires later != []
    ensures lines != []
  {
    if c == '\n' then [""] + later else [[c] + later[0]] + later[1..]
  }

  lemma {:induction false} GrowNewline(later: seq<string>)
    requires later != []
    ensures Grow('\n', later) == [""] + later
  {}

  lemma {:induction false} GrowAcross(c: char, a: seq<string>, b: seq<string>)
    requires a != []
    ensures Grow(c, a + b) == Grow(c, a) + b
  {
    assert (a + b)[1..] == a[1..] + b;
  }

  lemma {:induction false} SplitAcross(a: string, b: string)
    ensures Split(a + "\n" + b) == Split(a) + Split(b)
  {
    hide Grow;
    if a == "" {
      assert "" + "\n" + b == ['\n'] + b;
      assert (['\n'] + b)[1..] == b;
      GrowNewline(Split(b));
    } else {
      assert (a + "\n" + b)[1..] == a[1..] + "\n" + b;
      SplitAcross(a[1..], b);
      GrowAcross(a[0], Split(a[1..]), Split(b));
    }
  }

  lemma {:induction false} DataLinesAppend(a: seq<string>, b: seq<string>)
    ensures DataLines(a + b) == DataLines(a) + DataLines(b)
  {
    hide LinePayload;
    if a == [] {
      assert a + b == b;
    } else {
      assert (a + b)[1..] == a[1..] + b;
      DataLinesAppend(a[1..], b);
    }
  }

  lemma {:induction false} PayloadsAppend(a: seq<string>, b: seq<string>)
    ensures PayloadsOf(a + b) == PayloadsOf(a) + PayloadsOf(b)
  {
    if a == [] {
      assert a + b == b;
    } else {
      assert (a + b)[1..] == a[1..] + b;
      PayloadsAppend(a[1..], b);
    }
  }

  /** Events do not matter to a reader of payloads: the payloads are the `data:` lines of the
    * terminated part of the text, in order, and nothing else. */
  lemma {:induction false} PayloadsAreDataLines(text: string)
    ensures |Frame(text).rest| <= |text|
    ensures Payloads(text) == DataLines(Split(text[..|text| - |Frame(text).rest|]))
  {
    var f := Frame(text);
    FrameIsTheDecomposition(text, f);
    assert text[..|text| - |f.rest|] == Terminated(f.events);
    TerminatedDataLines(f.events);
  }

  lemma {:induction false} TerminatedDataLines(events: seq<string>)
    ensures DataLines(Split(Terminated(events))) == PayloadsOf(events)
  {
    hide Split, DataLines;
    if events == [] {
      BlankLineHasNoData();
    } else {
      var later := Terminated(events[1..]);
      assert events[0] + "\n\n" + later == events[0] + "\n" + ("" + "\n" + later);
      SplitAcross(events[0], "" + "\n" + later);
      SplitAcross("", later);
      DataLinesAppend(Split(events[0]), Split("") + Split(later));
      DataLinesAppend(Split(""), Split(later));
      BlankLineHasNoData();
      TerminatedDataLines(events[1..]);
    }
  }

  lemma {:induction false} BlankLineHasNoData()
    ensures DataLines(Split("")) == []
  {
    assert Split("") == [""] && !IsData("");
    assert DataLines([""][1..]) == [];
  }

  class SseParser {
    var buffer: string

    constructor ()
      ensures buffer == ""
    {
      buffer := "";
    }

    method PushText(text: string) returns (payloads: seq<string>)
      modifies this
      ensures payloads == Payloads(old(buffer) + text)
      ensures buffer == Frame(old(buffer) + text).rest
      ensures NoBlank(buffer)
    {
      buffer := buffer + text;
      payloads := Drain();
    }

    method Drain() returns (payloads: seq<string>)
      modifies this
      ensures payloads == Payloads(old(buffer))
      ensures buffer == Frame(old(buffer)).rest
      ensures NoBlank(buffer)
    {
      hide Payloads, DataLines, LinePayload, Split, Frame, Trim;
      ghost var start := buffer;
      payloads := [];
      var boundary := BlankFrom(buffer, 0);
      while boundary.Some?
        invariant boundary == BlankFrom(buffer, 0)
        invariant payloads + Payloads(buffer) == Payloads(start)
        invariant Frame(buffer).rest == Frame(start).rest
        decreases |buffer|
      {
        DrainEvent(buffer, payloads);
        ghost var sofar := payloads;
        var event := buffer[..boundary.value];
        buffer := buffer[boundary.value + 2..];
        ghost var later := buffer;
        var lines := Split(event);
        DrainedLines(sofar, lines);
        for i := 0 to |lines|
          invariant buffer == later
          invariant payloads + DataLines(lines[i..]) == sofar + DataLines(lines)
        {
          DrainLine(payloads, lines[i..]);
          if IsData(lines[i]) {
            payloads := payloads + [Trim(lines[i][5..])];
          }
          assert lines[i..][1..] == lines[i + 1..];
        }
        DrainedLines(payloads, lines);
        boundary := BlankFrom(buffer, 0);
      }
      DrainedBuffer(buffer, payloads);
    }
  }

  lemma {:induction false} DrainEvent(buffer: string, payloads: seq<string>)
    requires BlankFrom(buffer, 0).Some?
    ensures var b := BlankFrom(buffer, 0).value;
            && Frame(buffer).rest == Frame(buffer[b + 2..]).rest
            && payloads + Payloads(buffer)
            == payloads + DataLines(Split(buffer[..b])) + Payloads(buffer[b + 2..])
  {
    var b := BlankFrom(buffer, 0).value;
    assert Frame(buffer).events[1..] == Frame(buffer[b + 2..]).events;
  }

  lemma {:induction false} DrainLine(payloads: seq<string>, lines: seq<string>)
    requires lines != []
    ensures payloads + DataLines(lines)
         == payloads + (if IsData(lines[0]) then [Trim(lines[0][5..])] else []) + DataLines(lines[1..])
  {
    hide Trim, IsData;
    Assoc3(payloads, LinePayload(lines[0]), DataLines(lines[1..]));
  }

  lemma {:induction false} DrainedLines(payloads: seq<string>, lines: seq<string>)
    ensures payloads + DataLines(lines[|lines|..]) == payloads
    ensures lines[0..] == lines
  {}

  lemma {:induction false} DrainedBuffer(buffer: string, payloads: seq<string>)
    requires BlankFrom(buffer, 0).None?
    ensures payloads + Payloads(buffer) == payloads && Frame(buffer).rest == buffer
  {}

  // ---------------------------------------------------------------- tool calls

  /** One streamed fragment of a tool call; an absent field is "". */
  datatype Fragment = Fragment(index: int, id: string, name: string, args: string)

  datatype Entry = Entry(index: int, id: string, name: string, args: string)

  function Merge(e: Entry, d: Fragment): Entry {
    Entry(e.index,
          if d.id != "" then d.id else e.id,
          if d.name != "" then d.name else e.name,
          e.args + d.args)
  }

  /** Update in place when the index is known, else append: an insertion-ordered `Map`. */
  function Upsert(pending: seq<Entry>, d: Fragment): seq<Entry> {
    if pending == [] then [Merge(Entry(d.index, "", "", ""), d)]
    else if pending[0].index == d.index then [Merge(pending[0], d)] + pending[1..]
    else [pending[0]] + Upsert(pending[1..], d)
  }

  function Accumulate(pending: seq<Entry>, ds: seq<Fragment>): seq<Entry>
    decreases |ds|
  {
    if ds == [] then pending else Accumulate(Upsert(pending, ds[0]), ds[1..])
  }

  // The same, by grouping rather than by updating.

  function Of(ds: seq<Fragment>, index: int): (r: seq<Fragment>)
    ensures |r| <= |ds|
  {
    if ds == [] then [] else (if ds[0].index == index then [ds[0]] else []) + Of(ds[1..], index)
  }

  function Others(ds: seq<Fragment>, index: int): (r: seq<Fragment>)
    ensures |r| <= |ds|
  {
    if ds == [] then [] else (if ds[0].index != index then [ds[0]] else []) + Others(ds[1..], index)
  }

  /** The last non-empty string, or "". */
  function LastSet(ss: seq<string>): (r: string)
    ensures r == "" <==> forall i | 0 <= i < |ss| :: ss[i] == ""
    ensures r != "" ==> exists k | 0 <= k < |ss| :: ss[k] == r && forall i | k < i < |ss| :: ss[i] == ""
  {
    if ss == [] then ""
    else if ss[|ss| - 1] != "" then ss[|ss| - 1]
    else
      var r := LastSet(ss[..|ss| - 1]);
      assert r == "" ==> forall i | 0 <= i < |ss| - 1 :: ss[i] == ss[..|ss| - 1][i];
      r
  }

  function Ids(ds: seq<Fragment>): seq<string> { seq(|ds|, i requires 0 <= i < |ds| => ds[i].id) }
  function Names(ds: seq<Fragment>): seq<string> { seq(|ds|, i requires 0 <= i < |ds| => ds[i].name) }
  function Arguments(ds: seq<Fragment>): seq<string> { seq(|ds|, i requires 0 <= i < |ds| => ds[i].args) }

  function Assemble(index: int, ds: seq<Fragment>): Entry {
    Entry(index, LastSet(Ids(ds)), LastSet(Names(ds)), Concat(Arguments(ds)))
  }

  /** One call per index, in order of first appearance, each from its own fragments alone. */
  function Assembled(ds: seq<Fragment>): seq<Entry>
    decreases |ds|
  {
    if ds == [] then []
    else [Assemble(ds[0].index, Of(ds, ds[0].index))] + Assembled(Others(ds[1..], ds[0].index))
  }

  function MergeAll(e: Entry, ds: seq<Fragment>): Entry
    decreases |ds|
  {
    if ds == [] then e else Merge(MergeAll(e, ds[..|ds| - 1]), ds[|ds| - 1])
  }

  lemma {:induction false} MergeAllAssembles(index: int, ds: seq<Fragment>)
    ensures MergeAll(Entry(index, "", "", ""), ds) == Assemble(index, ds)
    decreases |ds|
  {
    if ds == [] {
    } else {
      var front := ds[..|ds| - 1];
      MergeAllAssembles(index, front);
      assert Ids(ds)[..|ds| - 1] == Ids(front);
      assert Names(ds)[..|ds| - 1] == Names(front);
      assert Arguments(ds) == Arguments(front) + [ds[|ds| - 1].args];
      ConcatSnoc(Arguments(front), ds[|ds| - 1].args);
    }
  }

  lemma {:induction false} MergeAllFront(e: Entry, d: Fragment, ds: seq<Fragment>)
    ensures MergeAll(e, [d] + ds) == MergeAll(Merge(e, d), ds)
    decreases |ds|
  {
    if ds == [] {
      assert ([d] + ds)[..0] == [];
      assert MergeAll(e, []) == e;
    } else {
      var front := ds[..|ds| - 1];
      assert ([d] + ds)[..|ds|] == [d] + front;
      MergeAllFront(e, d, front);
    }
  }

  lemma {:induction false} MergeAllIndex(e: Entry, ds: seq<Fragment>)
    ensures MergeAll(e, ds).index == e.index
    decreases |ds|
  {
    if ds != [] { MergeAllIndex(e, ds[..|ds| - 1]); }
  }

  /** The head entry collects its own fragments; the others never see them. */
  lemma {:induction false} HeadCollects(e: Entry, pending: seq<Entry>, ds: seq<Fragment>)
    ensures Accumulate([e] + pending, ds)
         == [MergeAll(e, Of(ds, e.index))] + Accumulate(pending, Others(ds, e.index))
    decreases |ds|
  {
    if ds == [] {
    } else {
      var d, later := ds[0], ds[1..];
      assert ([e] + pending)[1..] == pending;
      if d.index == e.index {
        HeadCollects(Merge(e, d), pending, later);
        MergeAllFront(e, d, Of(later, e.index));
        assert Others(ds, e.index) == Others(later, e.index);
      } else {
        HeadCollects(e, Upsert(pending, d), later);
        assert Of(ds, e.index) == Of(later, e.index);
        var others := Others(ds, e.index);
        assert others[0] == d && others[1..] == Others(later, e.index);
      }
    }
  }

  /** Updating an insertion-ordered map fragment by fragment is grouping by index. */
  lemma {:induction false} AccumulationIsGrouping(ds: seq<Fragment>)
    ensures Accumulate([], ds) == Assembled(ds)
    decreases |ds|
  {
    if ds != [] {
      var i := ds[0].index;
      var blank := Entry(i, "", "", "");
      var others := Others(ds[1..], i);
      assert Upsert([], ds[0]) == [Merge(blank, ds[0])] + [];
      HeadCollects(Merge(blank, ds[0]), [], ds[1..]);
      MergeAllFront(blank, ds[0], Of(ds[1..], i));
      MergeAllAssembles(i, Of(ds, i));
      AccumulationIsGrouping(others);
    }
  }

  // ---------------------------------------------------------------- responses

  datatype Part<V> = Text(value: string) | Call(id: string, name: string, input: V)

  /** What parsing a payload yields. `whole` is false when reading the value throws after the
    * listed effects: `JSON.parse("null")`, say, has no `choices` to look up. */
  datatype Chunk = Unparseable | NoDelta | Delta(content: string, calls: seq<Fragment>, whole: bool)

  datatype Json<!V> = Json(chunk: string -> Chunk, value: string -> Option<V>, empty: V)

  const DoneMark := "[DONE]"

  datatype Status = Running | Done | Threw

  datatype Progress = Progress(texts: seq<string>, pending: seq<Entry>, status: Status)

  predicate Broken<V>(json: Json<V>, payload: string) {
    json.chunk(payload).Delta? && !json.chunk(payload).whole
  }

  function TextOf<V>(json: Json<V>, payload: string): seq<string> {
    match json.chunk(payload)
    case Delta(content, _, _) => if content != "" then [content] else []
    case _ => []
  }

  function FragmentsOf<V>(json: Json<V>, payload: string): seq<Fragment> {
    match json.chunk(payload)
    case Delta(_, calls, _) => calls
    case _ => []
  }

  function Handle<V>(json: Json<V>, p: Progress, payload: string): Progress {
    Progress(p.texts + TextOf(json, payload),
             Accumulate(p.pending, FragmentsOf(json, payload)),
             if Broken(json, payload) then Threw else p.status)
  }

  function Consume<V>(json: Json<V>, p: Progress, payloads: seq<string>): Progress
    decreases |payloads|
  {
    if payloads == [] || p.status != Running then p
    else if payloads[0] == DoneMark then p.(status := Done)
    else Consume(json, Handle(json, p, payloads[0]), payloads[1..])
  }

  function TextParts<V>(texts: seq<string>): seq<Part<V>> {
    seq(|texts|, i requires 0 <= i < |texts| => Text(texts[i]))
  }

  function Input<V>(json: Json<V>, args: string): Option<V> {
    if args == "" then Some(json.empty) else json.value(args)
  }

  /** Unnamed calls and calls whose arguments are not JSON are dropped. */
  function CallParts<V>(json: Json<V>, pending: seq<Entry>): seq<Part<V>> {
    if pending == [] then []
    else
      var e := pending[0];
      (if e.name != "" && Input(json, e.args).Some?
       then [Call(e.id, e.name, Input(json, e.args).value)] else [])
      + CallParts(json, pending[1..])
  }

  datatype End = Finished | Failed

  datatype Response<V> = Response(parts: seq<Part<V>>, threw: bool)

  const Start := Progress([], [], Running)

  function Conclude<V>(json: Json<V>, p: Progress, end: End): Response<V> {
    if p.status == Threw || (p.status == Running && end == Failed)
    then Response(TextParts(p.texts), true)
    else Response(TextParts(p.texts) + CallParts(json, p.pending), false)
  }

  /** The response to a text that arrived in one piece. */
  function Respond<V>(json: Json<V>, text: string, end: End): Response<V> {
    Conclude(json, Consume(json, Start, Payloads(text)), end)
  }

  lemma {:induction false} ConsumeAppend<V>(json: Json<V>, p: Progress, a: seq<string>, b: seq<string>)
    ensures Consume(json, p, a + b) == Consume(json, Consume(json, p, a), b)
    decreases |a|
  {
    if a == [] {
      assert a + b == b;
    } else if p.status == Running && a[0] != DoneMark {
      assert (a + b)[1..] == a[1..] + b;
      ConsumeAppend(json, Handle(json, p, a[0]), a[1..], b);
    } else {
      assert (a + b)[0] == a[0];
    }
  }

  lemma {:induction false} TextPartsAppend<V>(a: seq<string>, b: seq<string>)
    ensures TextParts<V>(a + b) == TextParts<V>(a) + TextParts<V>(b)
  {}

  lemma {:induction false} PayloadsExtend(a: string, b: string)
    ensures Payloads(a + b) == Payloads(a) + Payloads(Frame(a).rest + b)
  {
    FrameAppend(a, b);
    PayloadsAppend(Frame(a).events, Frame(Frame(a).rest + b).events);
  }

  /** Whatever follows a `[DONE]`, more text or a broken connection, changes nothing. */
  lemma {:induction false} NothingAfterDone<V>(json: Json<V>, text: string, tail: string, end: End, end': End)
    requires Consume(json, Start, Payloads(text)).status != Running
    ensures Respond(json, text + tail, end) == Respond(json, text, end')
  {
    PayloadsExtend(text, tail);
    ConsumeAppend(json, Start, Payloads(text), Payloads(Frame(text).rest + tail));
  }

  /** Progress stops exactly when a mark or a broken payload was among those completed. */
  lemma {:induction false} StopsIff<V>(json: Json<V>, p: Progress, ps: seq<string>)
    requires p.status == Running
    ensures Consume(json, p, ps).status == Running <==>
            forall i | 0 <= i < |ps| :: ps[i] != DoneMark && !Broken(json, ps[i])
    decreases |ps|
  {
    if ps != [] {
      assert ps == [ps[0]] + ps[1..];
      if ps[0] != DoneMark {
        var q := Handle(json, p, ps[0]);
        if q.status == Running {
          StopsIff(json, q, ps[1..]);
        } else {
          assert Broken(json, ps[0]);
        }
      }
    }
  }

  /** Text already reported is never taken back by text that arrives later. */
  lemma {:induction false} TextIsReportedAtOnce<V>(json: Json<V>, a: string, b: string)
    ensures Consume(json, Start, Payloads(a)).texts <= Consume(json, Start, Payloads(a + b)).texts
  {
    PayloadsExtend(a, b);
    ConsumeAppend(json, Start, Payloads(a), Payloads(Frame(a).rest + b));
    TextsGrow(json, Consume(json, Start, Payloads(a)), Payloads(Frame(a).rest + b));
  }

  lemma {:induction false} TextsGrow<V>(json: Json<V>, p: Progress, ps: seq<string>)
    ensures p.texts <= Consume(json, p, ps).texts
    decreases |ps|
  {
    if ps != [] && p.status == Running && ps[0] != DoneMark {
      TextsGrow(json, Handle(json, p, ps[0]), ps[1..]);
    }
  }

  // The whole response, read off the payloads without any state.

  /** The payloads acted upon: up to the first mark, or through the first broken one. */
  function Heard<V>(json: Json<V>, ps: seq<string>): (r: seq<string>)
    ensures r <= ps && forall i | 0 <= i < |r| :: r[i] != DoneMark && (Broken(json, r[i]) ==> i == |r| - 1)
    ensures |r| < |ps| ==> ps[|r|] == DoneMark || (r != [] && Broken(json, r[|r| - 1]))
  {
    if ps == [] || ps[0] == DoneMark then []
    else if Broken(json, ps[0]) then [ps[0]]
    else [ps[0]] + Heard(json, ps[1..])
  }

  function TextsIn<V>(json: Json<V>, ps: seq<string>): seq<string> {
    if ps == [] then [] else TextOf(json, ps[0]) + TextsIn(json, ps[1..])
  }

  function FragmentsIn<V>(json: Json<V>, ps: seq<string>): seq<Fragment> {
    if ps == [] then [] else FragmentsOf(json, ps[0]) + FragmentsIn(json, ps[1..])
  }

  lemma {:induction false} AccumulateAppend(pending: seq<Entry>, a: seq<Fragment>, b: seq<Fragment>)
    ensures Accumulate(pending, a + b) == Accumulate(Accumulate(pending, a), b)
    decreases |a|
  {
    if a == [] {
      assert a + b == b;
    } else {
      assert (a + b)[1..] == a[1..] + b;
      AccumulateAppend(Upsert(pending, a[0]), a[1..], b);
    }
  }

  lemma {:induction false} ConsumedIsHeard<V>(json: Json<V>, p: Progress, ps: seq<string>)
    requires p.status == Running
    ensures Consume(json, p, ps).texts == p.texts + TextsIn(json, Heard(json, ps))
    ensures Consume(json, p, ps).pending == Accumulate(p.pending, FragmentsIn(json, Heard(json, ps)))
    decreases |ps|
  {
    hide TextOf, FragmentsOf, Broken;
    if ps != [] && ps[0] != DoneMark {
      var q := Handle(json, p, ps[0]);
      var h, later := Heard(json, ps), if Broken(json, ps[0]) then [] else Heard(json, ps[1..]);
      assert h == [ps[0]] + later && h[1..] == later;
      AccumulateAppend(p.pending, FragmentsOf(json, ps[0]), FragmentsIn(json, later));
      Assoc3(p.texts, TextOf(json, ps[0]), TextsIn(json, later));
      if q.status == Running {
        ConsumedIsHeard(json, q, ps[1..]);
      }
    }
  }

  /** Every response: the non-empty contents heard, in order, and then, unless it threw, one
    * call per index in order of first appearance, its arguments the join of its fragments. */
  lemma {:induction false} ResponseMeaning<V>(json: Json<V>, text: string, end: End)
    ensures var heard := Heard(json, Payloads(text));
            var r := Respond(json, text, end);
            r.parts == TextParts(TextsIn(json, heard))
                     + (if r.threw then [] else CallParts(json, Assembled(FragmentsIn(json, heard))))
  {
    var heard := Heard(json, Payloads(text));
    ConsumedIsHeard(json, Start, Payloads(text));
    AccumulationIsGrouping(FragmentsIn(json, heard));
    assert Start.texts + TextsIn(json, heard) == TextsIn(json, heard);
  }

  /** The contents of the payloads, joined. */
  function Contents<V>(json: Json<V>, ps: seq<string>): string {
    if ps == [] then ""
    else (match json.chunk(ps[0]) case Delta(content, _, _) => content case _ => "") + Contents(json, ps[1..])
  }

  /** No content that was heard is lost or reported twice, and no empty text is reported. */
  lemma {:induction false} TextsAreContents<V>(json: Json<V>, ps: seq<string>)
    ensures Concat(TextsIn(json, ps)) == Contents(json, ps)
    ensures forall i | 0 <= i < |TextsIn(json, ps)| :: TextsIn(json, ps)[i] != ""
    decreases |ps|
  {
    if ps == [] {
      assert TextsIn(json, ps) == [] && Concat<char>([]) == "";
    } else {
      TextsAreContents(json, ps[1..]);
      ConcatAppend(TextOf(json, ps[0]), TextsIn(json, ps[1..]));
      assert Concat<char>([]) == "";
    }
  }

  /** The tool-call fragments of the payloads, one after another. */
  function AllFragments<V>(json: Json<V>, ps: seq<string>): seq<Fragment> {
    if ps == [] then []
    else (match json.chunk(ps[0]) case Delta(_, calls, _) => calls case _ => []) + AllFragments(json, ps[1..])
  }

  /** No fragment that was heard is lost: after any payloads what waits is their fragments, grouped. */
  lemma {:induction false} PendingIsAllFragments<V>(json: Json<V>, ps: seq<string>)
    ensures Consume(json, Start, ps).pending == Assembled(AllFragments(json, Heard(json, ps)))
  {
    ConsumedIsHeard(json, Start, ps);
    FragmentsAreAll(json, Heard(json, ps));
    AccumulationIsGrouping(FragmentsIn(json, Heard(json, ps)));
  }

  lemma {:induction false} FragmentsAreAll<V>(json: Json<V>, ps: seq<string>)
    ensures FragmentsIn(json, ps) == AllFragments(json, ps)
  {
    if ps != [] { FragmentsAreAll(json, ps[1..]); }
  }

  /** What is reported of calls: each on its own and in order, under its own id and name, if it has a name and
    * its arguments are absent, which is the empty object, or JSON. */
  lemma {:induction false} CallsAreReported<V>(json: Json<V>, a: seq<Entry>, b: seq<Entry>)
    ensures CallParts(json, a + b) == CallParts(json, a) + CallParts(json, b)
    ensures |a| == 1 ==>
              CallParts(json, a) ==
              if a[0].name == "" then []
              else if a[0].args == "" then [Call(a[0].id, a[0].name, json.empty)]
              else
                match json.value(a[0].args)
                case None => []
                case Some(v) => [Call(a[0].id, a[0].name, v)]
    decreases |a|
  {
    if a == [] {
      assert a + b == b;
    } else {
      assert (a + b)[1..] == a[1..] + b;
      CallsAreReported(json, a[1..], b);
      var first := if a[0].name != "" && Input(json, a[0].args).Some? then [Call(a[0].id, a[0].name, Input(json, a[0].args).value)] else [];
      Assoc3(first, CallParts(json, a[1..]), CallParts(json, b));
    }
  }

  /** A response throws exactly when a payload that was heard broke, or the connection did before the mark. */
  lemma {:induction false} ThrowsIff<V>(json: Json<V>, text: string, end: End)
    ensures var ps := Payloads(text);
            Respond(json, text, end).threw <==>
            || (exists i :: 0 <= i < |Heard(json, ps)| && Broken(json, ps[i]))
            || (end == Failed && forall i | 0 <= i < |ps| :: ps[i] != DoneMark)
  {
    var ps := Payloads(text);
    StatusIs(json, Start, ps);
  }

  lemma {:induction false} StatusIs<V>(json: Json<V>, p: Progress, ps: seq<string>)
    requires p.status == Running
    ensures Consume(json, p, ps).status == Threw <==> exists i :: 0 <= i < |Heard(json, ps)| && Broken(json, ps[i])
    ensures Consume(json, p, ps).status == Running <==> forall i | 0 <= i < |ps| :: ps[i] != DoneMark && !Broken(json, ps[i])
    ensures Consume(json, p, ps).status == Done ==> exists i :: 0 <= i < |ps| && ps[i] == DoneMark
    decreases |ps|
  {
    hide TextOf, FragmentsOf, Broken;
    StopsIff(json, p, ps);
    if ps != [] && ps[0] != DoneMark {
      var q, rest := Handle(json, p, ps[0]), ps[1..];
      assert ps == [ps[0]] + rest;
      if Broken(json, ps[0]) {
        assert Heard(json, ps) == [ps[0]];
        assert Consume(json, q, rest) == q;
      } else {
        StatusIs(json, q, rest);
        assert Heard(json, ps) == [ps[0]] + Heard(json, rest);
        if i :| 0 <= i < |Heard(json, rest)| && Broken(json, rest[i]) { assert Broken(json, ps[i + 1]); }
        if i :| 0 <= i < |Heard(json, ps)| && Broken(json, ps[i]) { assert ps[i] == rest[i - 1]; }
        if i :| 0 <= i < |rest| && rest[i] == DoneMark { assert ps[i + 1] == DoneMark; }
      }
    }
  }

  /** Carriage-return framing never terminates an event, so such a stream reports nothing. */
  lemma {:induction false} CarriageReturnsAreNotFramed<V>(json: Json<V>, text: string, end: End)
    requires forall i | 0 <= i < |text| && text[i] == '\n' :: 0 < i && text[i - 1] == '\r'
    ensures Respond(json, text, end) == Response([], end == Failed)
  {
    assert NoBlank(text);
    assert Frame(text).events == [];
  }

  // ---------------------------------------------------------------- the pump

  class Pump<!V> {
    const json: Json<V>
    var reported: seq<Part<V>>
    var pending: seq<Entry>

    constructor (json: Json<V>)
      ensures this.json == json && reported == [] && pending == []
    {
      this.json := json;
      reported, pending := [], [];
    }

    /** `threw` when reading the parsed value fails part way. */
    method HandlePayload(payload: string, ghost p: Progress) returns (threw: bool)
      requires p.status == Running && reported == TextParts(p.texts) && pending == p.pending
      modifies this
      ensures var q := Handle(json, p, payload);
              reported == TextParts(q.texts) && pending == q.pending && threw == (q.status == Threw)
    {
      match json.chunk(payload)
      case Unparseable => threw := false;
      case NoDelta => threw := false;
      case Delta(content, calls, whole) =>
        if content != "" {
          reported := reported + [Text(content)];
          TextPartsAppend<V>(p.texts, [content]);
        }
        for i := 0 to |calls|
          invariant reported == TextParts(Handle(json, p, payload).texts)
          invariant Accumulate(pending, calls[i..]) == Accumulate(p.pending, calls)
        {
          pending := Upsert(pending, calls[i]);
        }
        threw := !whole;
    }

    /** The payloads of one read, up to a mark or a throw. */
    method Feed(payloads: seq<string>, ghost p: Progress) returns (status: Status)
      requires p.status == Running && reported == TextParts(p.texts) && pending == p.pending
      modifies this
      ensures var q := Consume(json, p, payloads);
              reported == TextParts(q.texts) && pending == q.pending && status == q.status
    {
      ghost var q := p;
      for i := 0 to |payloads|
        invariant Consume(json, q, payloads[i..]) == Consume(json, p, payloads) && q.status == Running
        invariant reported == TextParts(q.texts) && pending == q.pending
      {
        if payloads[i] == DoneMark {
          return Done;
        }
        var threw := HandlePayload(payloads[i], q);
        q := Handle(json, q, payloads[i]);
        if threw {
          return Threw;
        }
        assert payloads[i..][1..] == payloads[i + 1..];
      }
      status := Running;
    }

    method Flush()
      modifies this
      ensures reported == old(reported) + CallParts(json, old(pending)) && pending == []
    {
      for i := 0 to |pending|
        invariant pending == old(pending)
        invariant reported + CallParts(json, pending[i..]) == old(reported) + CallParts(json, pending)
      {
        var call := pending[i];
        ghost var before := reported;
        if call.name != "" {
          var input := Input(json, call.args);
          if input.Some? {
            reported := reported + [Call(call.id, call.name, input.value)];
          }
        }
        FlushStep(json, before, reported, pending[i..]);
        assert pending[i..][1..] == pending[i + 1..];
      }
      assert pending[|pending|..] == [];
      pending := [];
    }
  }

  lemma {:induction false} FlushStep<V>(json: Json<V>, before: seq<Part<V>>, after: seq<Part<V>>, pending: seq<Entry>)
    requires pending != []
    requires var e := pending[0];
             after == before + (if e.name != "" && Input(json, e.args).Some?
                                then [Call(e.id, e.name, Input(json, e.args).value)] else [])
    ensures after + CallParts(json, pending[1..]) == before + CallParts(json, pending)
  {}

  /** `chunks` is what the body yields before it ends or breaks; cancellation is noticed after
    * `quota` reads. The response depends on the text that was read and on nothing else: not on
    * where the chunks were cut. */
  method PumpStream<V>(json: Json<V>, chunks: seq<string>, end: End, quota: nat)
    returns (response: Response<V>)
    ensures response ==
            if quota <= |chunks| then Respond(json, Concat(chunks[..quota]), Finished)
            else Respond(json, Concat(chunks), end)
  {
    hide Payloads, Frame, Consume, Concat, Respond, TextParts, CallParts;
    var parser := new SseParser();
    var pump := new Pump(json);
    ghost var p := Start;
    ReadNothing(json, chunks);
    var k := 0;
    while k < quota
      invariant k <= quota && k <= |chunks|
      invariant pump.json == json
      invariant p == After(json, chunks, k) && p.status == Running
      invariant parser.buffer == Frame(Concat(chunks[..k])).rest
      invariant pump.reported == TextParts(p.texts) && pump.pending == p.pending
      decreases quota - k
    {
      if k == |chunks| {
        AllRead(json, chunks, end);
        if end == Failed {
          return Response(pump.reported, true);
        }
        pump.Flush();
        return Response(pump.reported, false);
      }
      ReadStep(json, chunks, k);
      var payloads := parser.PushText(chunks[k]);
      var status := pump.Feed(payloads, p);
      p := Consume(json, p, payloads);
      k := k + 1;
      if status != Running {
        StoppedResponse(json, chunks, k, quota, end);
        if status == Done {
          pump.Flush();
        }
        return Response(pump.reported, status == Threw);
      }
    }
    ReadPart(json, chunks, k);
    pump.Flush();
    response := Response(pump.reported, false);
  }

  /** Where a one-piece reading of the first `k` chunks stands. */
  function After<V>(json: Json<V>, chunks: seq<string>, k: nat): Progress
    requires k <= |chunks|
  {
    Consume(json, Start, Payloads(Concat(chunks[..k])))
  }

  lemma {:induction false} ReadNothing<V>(json: Json<V>, chunks: seq<string>)
    ensures After(json, chunks, 0) == Start && Frame(Concat(chunks[..0])).rest == ""
    ensures TextParts<V>([]) == []
  {
    assert Frame("") == Framing([], "");
  }

  lemma {:induction false} ReadStep<V>(json: Json<V>, chunks: seq<string>, k: nat)
    requires k < |chunks|
    ensures var buffer := Frame(Concat(chunks[..k])).rest + chunks[k];
            && After(json, chunks, k + 1) == Consume(json, After(json, chunks, k), Payloads(buffer))
            && Frame(Concat(chunks[..k + 1])).rest == Frame(buffer).rest
  {
    var seen := Concat(chunks[..k]);
    assert chunks[..k + 1] == chunks[..k] + [chunks[k]];
    ConcatSnoc(chunks[..k], chunks[k]);
    PayloadsExtend(seen, chunks[k]);
    FrameAppend(seen, chunks[k]);
    ConsumeAppend(json, Start, Payloads(seen), Payloads(Frame(seen).rest + chunks[k]));
  }

  lemma {:induction false} AllRead<V>(json: Json<V>, chunks: seq<string>, end: End)
    ensures Respond(json, Concat(chunks), end) == Conclude(json, After(json, chunks, |chunks|), end)
  {
    assert chunks[..|chunks|] == chunks;
  }

  lemma {:induction false} ReadPart<V>(json: Json<V>, chunks: seq<string>, k: nat)
    requires k <= |chunks|
    ensures Respond(json, Concat(chunks[..k]), Finished) == Conclude(json, After(json, chunks, k), Finished)
  {}

  /** Once stopped, the chunks not yet read do not matter. */
  lemma {:induction false} StoppedResponse<V>(json: Json<V>, chunks: seq<string>, k: nat, quota: nat, end: End)
    requires k <= |chunks| && k <= quota
    requires After(json, chunks, k).status != Running
    ensures var full := if quota <= |chunks| then Respond(json, Concat(chunks[..quota]), Finished)
                        else Respond(json, Concat(chunks), end);
            full == Conclude(json, After(json, chunks, k), Finished)
  {
    hide Payloads, Frame, Consume, Concat, TextParts, CallParts;
    var n := if quota <= |chunks| then quota else |chunks|;
    var tail := Concat(chunks[..n][k..]);
    assert chunks[..n] == chunks[..k] + chunks[..n][k..];
    ConcatAppend(chunks[..k], chunks[..n][k..]);
    assert chunks[..|chunks|] == chunks;
    NothingAfterDone(json, Concat(chunks[..k]), tail, if quota <= |chunks| then Finished else end, Finished);
  }
}
