/** The editor's outgoing message mapping and its token estimate (ide/vscode/src/messages.ts,
  * ide/vscode/src/tokens.ts). JSON-serialised call input is kept as the string it becomes. */
module WireMessages {
  import opened Common

  datatype Role = User | Assistant

  /** A message part, by what the two walks can tell about it. The last four are kinds the wire
    * mapping drops, split by the structural test of the token walk that they meet. */
  datatype Part =
    | Text(value: string)
    | Call(id: string, name: string, args: string)
    | Result(id: string, content: seq<Part>)
    | Valued(value: string)
    | CallLike(name: string, args: string)
    | Nested(content: seq<Part>)
    | Dataless

  datatype Message = Message(role: Role, content: seq<Part>)

  datatype WireCall = WireCall(id: string, name: string, args: string)

  datatype WireMessage =
    | Chat(role: Role, content: Option<string>, calls: seq<WireCall>)
    | Tool(callId: string, text: string)

  // ---------------------------------------------------------------- the mapping

  function ItemText(item: Part): string { if item.Text? then item.value else "" }

  /** The text items of a tool result, joined. */
  function Flat(content: seq<Part>): string {
    if content == [] then "" else ItemText(content[0]) + Flat(content[1..])
  }

  method FlattenResult(content: seq<Part>) returns (text: string)
    ensures text == Flat(content)
  {
    text := "";
    for i := 0 to |content|
      invariant text + Flat(content[i..]) == Flat(content)
    {
      assert content[i..][1..] == content[i + 1..];
      Assoc3(text, ItemText(content[i]), Flat(content[i + 1..]));
      if content[i].Text? {
        text := text + content[i].value;
      }
    }
  }

  function Flushed(role: Role, text: seq<string>, calls: seq<WireCall>): seq<WireMessage> {
    if text == [] && calls == [] then []
    else [Chat(role, if text != [] then Some(Concat(text)) else None, calls)]
  }

  /** A part that joins the waiting text or the waiting calls; other kinds are dropped. */
  function Texts(text: seq<string>, part: Part): seq<string> {
    if part.Text? then text + [part.value] else text
  }

  function Calls(calls: seq<WireCall>, part: Part): seq<WireCall> {
    if part.Call? then calls + [WireCall(part.id, part.name, part.args)] else calls
  }

  /** One message fanned out, with `text` and `calls` still waiting to be sent. */
  function Fan(role: Role, parts: seq<Part>, text: seq<string>, calls: seq<WireCall>): seq<WireMessage>
    decreases |parts|
  {
    if parts == [] then Flushed(role, text, calls)
    else if parts[0].Result? then
      Flushed(role, text, calls) + [Tool(parts[0].id, Flat(parts[0].content))] + Fan(role, parts[1..], [], [])
    else
      Fan(role, parts[1..], Texts(text, parts[0]), Calls(calls, parts[0]))
  }

  function Wire(messages: seq<Message>): seq<WireMessage> {
    if messages == [] then []
    else Fan(messages[0].role, messages[0].content, [], []) + Wire(messages[1..])
  }

  class Mapper {
    var out: seq<WireMessage>
    var text: seq<string>
    var calls: seq<WireCall>

    constructor ()
      ensures out == [] && text == [] && calls == []
    {
      out, text, calls := [], [], [];
    }

    method Flush(role: Role)
      modifies this
      ensures out == old(out) + Flushed(role, old(text), old(calls))
      ensures text == [] && calls == []
    {
      if |text| == 0 && |calls| == 0 {
        return;
      }
      out := out + [Chat(role, if |text| > 0 then Some(Concat(text)) else None, calls)];
      text, calls := [], [];
    }

    method Map(message: Message)
      requires text == [] && calls == []
      modifies this
      ensures out == old(out) + Fan(message.role, message.content, [], [])
      ensures text == [] && calls == []
    {
      var role, parts := message.role, message.content;
      for i := 0 to |parts|
        invariant out + Fan(role, parts[i..], text, calls) == old(out) + Fan(role, parts, [], [])
      {
        ghost var was, waiting := out, Flushed(role, text, calls);
        assert parts[i..][0] == parts[i] && parts[i..][1..] == parts[i + 1..];
        match parts[i]
        case Text(value) =>
          text := text + [value];
        case Call(id, name, args) =>
          calls := calls + [WireCall(id, name, args)];
        case Result(id, content) =>
          Flush(role);
          var flat := FlattenResult(content);
          out := out + [Tool(id, flat)];
          Assoc(was, waiting, [Tool(id, flat)], Fan(role, parts[i + 1..], [], []));
        case _ =>
      }
      Flush(role);
    }
  }

  method ToWireMessages(messages: seq<Message>) returns (wire: seq<WireMessage>)
    ensures wire == Wire(messages)
  {
    var mapper := new Mapper();
    for k := 0 to |messages|
      invariant mapper.text == [] && mapper.calls == []
      invariant mapper.out + Wire(messages[k..]) == Wire(messages)
    {
      ghost var was := mapper.out;
      mapper.Map(messages[k]);
      Assoc3(was, Fan(messages[k].role, messages[k].content, [], []), Wire(messages[k + 1..]));
    }
    wire := mapper.out;
  }

  // ---------------------------------------------------------------- what one message becomes

  /** Joining is item by item, in order, and only text items say anything. */
  lemma {:induction false} FlatJoins(a: seq<Part>, b: seq<Part>)
    ensures Flat(a + b) == Flat(a) + Flat(b)
    ensures |a| == 1 ==> Flat(a) == if a[0].Text? then a[0].value else ""
  {
    if a == [] {
      assert a + b == b;
    } else {
      assert (a + b)[1..] == a[1..] + b;
      FlatJoins(a[1..], b);
      Assoc3(ItemText(a[0]), Flat(a[1..]), Flat(b));
    }
  }

  ghost predicate SomeText(parts: seq<Part>) { exists i :: 0 <= i < |parts| && parts[i].Text? }

  /** `calls` are the calls among `parts`, in order. */
  predicate AreCallsOf(parts: seq<Part>, calls: seq<WireCall>)
    decreases |parts|
  {
    if parts == [] then calls == []
    else if parts[0].Call? then
      calls != [] && calls[0] == WireCall(parts[0].id, parts[0].name, parts[0].args) && AreCallsOf(parts[1..], calls[1..])
    else AreCallsOf(parts[1..], calls)
  }

  lemma {:induction false} FanOfRunFrom(role: Role, parts: seq<Part>, text: seq<string>, calls: seq<WireCall>) returns (mine: seq<WireCall>)
    requires forall i | 0 <= i < |parts| :: !parts[i].Result?
    ensures AreCallsOf(parts, mine)
    ensures Fan(role, parts, text, calls) ==
            if text == [] && !SomeText(parts) && calls + mine == [] then []
            else [Chat(role, if text == [] && !SomeText(parts) then None else Some(Concat(text) + Flat(parts)), calls + mine)]
    decreases |parts|
  {
    if parts == [] {
      mine := [];
      assert calls + mine == calls && Concat(text) + "" == Concat(text);
    } else {
      var part, rest := parts[0], parts[1..];
      assert parts == [part] + rest;
      var later := FanOfRunFrom(role, rest, Texts(text, part), Calls(calls, part));
      mine := if part.Call? then [WireCall(part.id, part.name, part.args)] + later else later;
      assert part.Call? ==> mine[1..] == later && calls + mine == Calls(calls, part) + later;
      if part.Text? {
        ConcatSnoc(text, part.value);
        Assoc3(Concat(text), part.value, Flat(rest));
        assert parts[0].Text?;
      } else {
        assert "" + Flat(rest) == Flat(rest);
        assert SomeText(parts) ==> SomeText(rest) by {
          if i :| 0 <= i < |parts| && parts[i].Text? { assert rest[i - 1].Text?; }
        }
      }
      assert SomeText(rest) ==> SomeText(parts) by {
        if i :| 0 <= i < |rest| && rest[i].Text? { assert parts[i + 1].Text?; }
      }
    }
  }

  /** Parts without a result between them leave in one message, or in none if there is neither text nor a
    * call: its content is all the text in order, null if there is no text part, and its calls are the calls
    * in order. */
  lemma {:induction false} RunIsOneMessage(role: Role, parts: seq<Part>) returns (calls: seq<WireCall>)
    requires forall i | 0 <= i < |parts| :: !parts[i].Result?
    ensures AreCallsOf(parts, calls)
    ensures Wire([Message(role, parts)]) ==
            if !SomeText(parts) && calls == [] then [] else [Chat(role, if SomeText(parts) then Some(Flat(parts)) else None, calls)]
  {
    calls := FanOfRunFrom(role, parts, [], []);
    assert [] + calls == calls && "" + Flat(parts) == Flat(parts);
    assert [Message(role, parts)][1..] == [];
    assert Wire([Message(role, parts)]) == Fan(role, parts, [], []) + [];
  }

  lemma {:induction false} FanAcross(role: Role, a: seq<Part>, result: Part, b: seq<Part>, text: seq<string>, calls: seq<WireCall>)
    requires result.Result?
    ensures Fan(role, a + [result] + b, text, calls)
         == Fan(role, a, text, calls) + [Tool(result.id, Flat(result.content))] + Fan(role, b, [], [])
    decreases |a|
  {
    var all, tool := a + [result] + b, [Tool(result.id, Flat(result.content))];
    if a == [] {
      assert all[0] == result && all[1..] == b;
    } else {
      var rest := a[1..];
      assert all[0] == a[0] && all[1..] == rest + [result] + b;
      if a[0].Result? {
        FanAcross(role, rest, result, b, [], []);
        var front := Flushed(role, text, calls) + [Tool(a[0].id, Flat(a[0].content))];
        assert front + (Fan(role, rest, [], []) + tool + Fan(role, b, [], [])) == (front + Fan(role, rest, [], [])) + tool + Fan(role, b, [], []);
      } else {
        FanAcross(role, rest, result, b, Texts(text, a[0]), Calls(calls, a[0]));
      }
    }
  }

  /** A result leaves on its own, between what its message says before it and what it says after it. */
  lemma {:induction false} ResultStandsAlone(role: Role, a: seq<Part>, result: Part, b: seq<Part>)
    requires result.Result?
    ensures Wire([Message(role, a + [result] + b)])
         == Wire([Message(role, a)]) + [Tool(result.id, Flat(result.content))] + Wire([Message(role, b)])
  {
    FanAcross(role, a, result, b, [], []);
    OneMessage(role, a);
    OneMessage(role, b);
    OneMessage(role, a + [result] + b);
  }

  lemma {:induction false} OneMessage(role: Role, parts: seq<Part>)
    ensures Wire([Message(role, parts)]) == Fan(role, parts, [], [])
  {
    assert [Message(role, parts)][1..] == [];
  }

  // ---------------------------------------------------------------- order

  /** What a conversation says, piece by piece: characters, calls and results. */
  datatype Token =
    | Glyph(role: Role, c: char)
    | Calling(role: Role, call: WireCall)
    | Answer(id: string, text: string)

  function Glyphs(role: Role, s: string): seq<Token> {
    seq(|s|, i requires 0 <= i < |s| => Glyph(role, s[i]))
  }

  function Callings(role: Role, calls: seq<WireCall>): seq<Token> {
    seq(|calls|, i requires 0 <= i < |calls| => Calling(role, calls[i]))
  }

  function PartSays(role: Role, part: Part): seq<Token> {
    match part
    case Text(value) => Glyphs(role, value)
    case Call(id, name, args) => [Calling(role, WireCall(id, name, args))]
    case Result(id, content) => [Answer(id, Flat(content))]
    case _ => []
  }

  function PartsSay(role: Role, parts: seq<Part>): seq<Token> {
    if parts == [] then [] else PartSays(role, parts[0]) + PartsSay(role, parts[1..])
  }

  function Says(messages: seq<Message>): seq<Token> {
    if messages == [] then [] else PartsSay(messages[0].role, messages[0].content) + Says(messages[1..])
  }

  function ChatSays(role: Role, content: Option<string>, calls: seq<WireCall>): seq<Token> {
    (if content.Some? then Glyphs(role, content.value) else []) + Callings(role, calls)
  }

  function MessageSays(m: WireMessage): seq<Token> {
    match m
    case Chat(role, content, calls) => ChatSays(role, content, calls)
    case Tool(id, text) => [Answer(id, text)]
  }

  function WireSays(wire: seq<WireMessage>): seq<Token> {
    if wire == [] then [] else MessageSays(wire[0]) + WireSays(wire[1..])
  }

  predicate LeftOut(t: Token, glyphs: bool) { if glyphs then t.Glyph? else t.Calling? }

  /** Leaves out the tokens of one kind: characters when `glyphs`, calls otherwise. */
  function Without(ts: seq<Token>, glyphs: bool): seq<Token> {
    if ts == [] then []
    else if LeftOut(ts[0], glyphs) then Without(ts[1..], glyphs)
    else [ts[0]] + Without(ts[1..], glyphs)
  }

  lemma {:induction false} WithoutAppend(a: seq<Token>, b: seq<Token>, glyphs: bool)
    ensures Without(a + b, glyphs) == Without(a, glyphs) + Without(b, glyphs)
  {
    if a == [] {
      assert a + b == b;
    } else {
      assert (a + b)[1..] == a[1..] + b;
      WithoutAppend(a[1..], b, glyphs);
    }
  }

  lemma {:induction false} WireSaysAppend(a: seq<WireMessage>, b: seq<WireMessage>)
    ensures WireSays(a + b) == WireSays(a) + WireSays(b)
  {
    if a == [] {
      assert a + b == b;
    } else {
      assert (a + b)[1..] == a[1..] + b;
      WireSaysAppend(a[1..], b);
      Assoc3(MessageSays(a[0]), WireSays(a[1..]), WireSays(b));
    }
  }

  lemma {:induction false} GlyphsAppend(role: Role, a: string, b: string)
    ensures Glyphs(role, a + b) == Glyphs(role, a) + Glyphs(role, b)
  {}

  lemma {:induction false} AllGlyphs(role: Role, s: string)
    ensures Without(Glyphs(role, s), true) == [] && Without(Glyphs(role, s), false) == Glyphs(role, s)
    decreases |s|
  {
    if s != "" {
      assert Glyphs(role, s)[1..] == Glyphs(role, s[1..]);
      AllGlyphs(role, s[1..]);
    }
  }

  lemma {:induction false} AllCallings(role: Role, calls: seq<WireCall>)
    ensures Without(Callings(role, calls), false) == []
    ensures Without(Callings(role, calls), true) == Callings(role, calls)
    decreases |calls|
  {
    if calls != [] {
      assert Callings(role, calls)[1..] == Callings(role, calls[1..]);
      AllCallings(role, calls[1..]);
    }
  }

  /** What waits to be sent, in the order a flush sends it: text first, then calls. */
  function Waiting(role: Role, text: seq<string>, calls: seq<WireCall>): seq<Token> {
    Glyphs(role, Concat(text)) + Callings(role, calls)
  }

  lemma {:induction false} FlushSaysWaiting(role: Role, text: seq<string>, calls: seq<WireCall>)
    ensures WireSays(Flushed(role, text, calls)) == Waiting(role, text, calls)
  {
    if text != [] || calls != [] {
      var m := Chat(role, if text != [] then Some(Concat(text)) else None, calls);
      assert WireSays([m]) == MessageSays(m) + [];
    }
  }

  lemma {:induction false} WaitingText(role: Role, text: seq<string>, value: string)
    ensures Glyphs(role, Concat(text + [value])) == Glyphs(role, Concat(text)) + Glyphs(role, value)
  {
    ConcatSnoc(text, value);
    GlyphsAppend(role, Concat(text), value);
  }

  lemma {:induction false} WaitingCall(role: Role, calls: seq<WireCall>, call: WireCall)
    ensures Callings(role, calls + [call]) == Callings(role, calls) + [Calling(role, call)]
  {}

  /** `s` with characters left out, or with calls left out, of what waits. */
  function Kept(role: Role, text: seq<string>, calls: seq<WireCall>, glyphs: bool): seq<Token> {
    if glyphs then Callings(role, calls) else Glyphs(role, Concat(text))
  }

  lemma {:induction false} WaitingKept(role: Role, text: seq<string>, calls: seq<WireCall>, glyphs: bool)
    ensures Without(Waiting(role, text, calls), glyphs) == Kept(role, text, calls, glyphs)
  {
    AllGlyphs(role, Concat(text));
    AllCallings(role, calls);
    WithoutAppend(Glyphs(role, Concat(text)), Callings(role, calls), glyphs);
  }

  lemma {:induction false} PartKept(role: Role, part: Part, text: seq<string>, calls: seq<WireCall>, glyphs: bool)
    requires !part.Result?
    ensures Kept(role, text, calls, glyphs) + Without(PartSays(role, part), glyphs)
         == Kept(role, Texts(text, part), Calls(calls, part), glyphs)
  {
    if part.Text? {
      WaitingText(role, text, part.value);
      AllGlyphs(role, part.value);
    } else if part.Call? {
      WaitingCall(role, calls, WireCall(part.id, part.name, part.args));
    }
  }

  lemma {:induction false} FanKeeps(role: Role, parts: seq<Part>, text: seq<string>, calls: seq<WireCall>, glyphs: bool)
    ensures Without(WireSays(Fan(role, parts, text, calls)), glyphs)
         == Kept(role, text, calls, glyphs) + Without(PartsSay(role, parts), glyphs)
    decreases |parts|
  {
    hide Kept, Without, Waiting, Flushed, PartSays, Texts, Calls, Flat, WireSays;
    if parts == [] {
      FlushSaysWaiting(role, text, calls);
      WaitingKept(role, text, calls, glyphs);
      NothingKept(role, glyphs);
    } else {
      var later := PartsSay(role, parts[1..]);
      var kept := Kept(role, text, calls, glyphs);
      WithoutAppend(PartSays(role, parts[0]), later, glyphs);
      Assoc3(kept, Without(PartSays(role, parts[0]), glyphs), Without(later, glyphs));
      if parts[0].Result? {
        ResultKeeps(role, parts, text, calls, glyphs);
        FanKeeps(role, parts[1..], [], [], glyphs);
        NothingKept(role, glyphs);
      } else {
        PartKept(role, parts[0], text, calls, glyphs);
        FanKeeps(role, parts[1..], Texts(text, parts[0]), Calls(calls, parts[0]), glyphs);
      }
    }
  }

  lemma {:induction false} NothingKept(role: Role, glyphs: bool)
    ensures Kept(role, [], [], glyphs) == [] && Without([], glyphs) == []
  {}

  lemma {:induction false} FanAtResult(role: Role, parts: seq<Part>, text: seq<string>, calls: seq<WireCall>)
    requires parts != [] && parts[0].Result?
    ensures WireSays(Fan(role, parts, text, calls))
         == Waiting(role, text, calls) + PartSays(role, parts[0]) + WireSays(Fan(role, parts[1..], [], []))
  {
    hide Waiting, Flushed;
    var tool := [Tool(parts[0].id, Flat(parts[0].content))];
    var later := Fan(role, parts[1..], [], []);
    WireSaysAppend(Flushed(role, text, calls) + tool, later);
    WireSaysAppend(Flushed(role, text, calls), tool);
    FlushSaysWaiting(role, text, calls);
    assert tool[1..] == [];
    assert WireSays(tool) == PartSays(role, parts[0]);
  }

  lemma {:induction false} ResultKeeps(role: Role, parts: seq<Part>, text: seq<string>, calls: seq<WireCall>, glyphs: bool)
    requires parts != [] && parts[0].Result?
    ensures Without(WireSays(Fan(role, parts, text, calls)), glyphs)
         == Kept(role, text, calls, glyphs) + Without(PartSays(role, parts[0]), glyphs)
          + Without(WireSays(Fan(role, parts[1..], [], [])), glyphs)
  {
    hide Kept, Waiting, PartSays, Fan;
    FanAtResult(role, parts, text, calls);
    WaitingKept(role, text, calls, glyphs);
    var said := PartSays(role, parts[0]);
    WithoutAppend(Waiting(role, text, calls) + said, WireSays(Fan(role, parts[1..], [], [])), glyphs);
    WithoutAppend(Waiting(role, text, calls), said, glyphs);
  }

  /** On the wire, calls and results come in exactly the order they were given; and so do text
    * and results, character by character. Both keep the speaker's role. */
  lemma {:induction false} WireKeepsOrder(messages: seq<Message>, glyphs: bool)
    ensures Without(WireSays(Wire(messages)), glyphs) == Without(Says(messages), glyphs)
    decreases |messages|
  {
    if messages != [] {
      var m := messages[0];
      var fan := Fan(m.role, m.content, [], []);
      WireSaysAppend(fan, Wire(messages[1..]));
      WithoutAppend(WireSays(fan), WireSays(Wire(messages[1..])), glyphs);
      WithoutAppend(PartsSay(m.role, m.content), Says(messages[1..]), glyphs);
      FanKeeps(m.role, m.content, [], [], glyphs);
      NothingKept(m.role, glyphs);
      WireKeepsOrder(messages[1..], glyphs);
    }
  }

  // Text and calls together.

  predicate Speaks(part: Part) { part.Text? && part.value != "" }

  /** No text follows a call, unless a result stands between them. */
  ghost predicate CallsLast(parts: seq<Part>) {
    forall i, j | 0 <= i < j < |parts| && parts[i].Call? && Speaks(parts[j]) ::
      exists k | i < k < j :: parts[k].Result?
  }

  /** The same, walking the parts; `called` when a call waits. */
  predicate InOrder(parts: seq<Part>, called: bool) {
    if parts == [] then true
    else
      match parts[0]
      case Text(value) => (called ==> value == "") && InOrder(parts[1..], called)
      case Call(_, _, _) => InOrder(parts[1..], true)
      case Result(_, _) => InOrder(parts[1..], false)
      case _ => InOrder(parts[1..], called)
  }

  /** No text stands before the first result. */
  ghost predicate Mute(parts: seq<Part>) {
    forall j | 0 <= j < |parts| && Speaks(parts[j]) ::
      exists k | 0 <= k < j :: parts[k].Result?
  }

  lemma {:induction false} MuteDrop(parts: seq<Part>)
    requires parts != [] && !parts[0].Result? && Mute(parts)
    ensures Mute(parts[1..]) && !Speaks(parts[0])
  {
    var later := parts[1..];
    forall j | 0 <= j < |later| && Speaks(later[j]) ensures exists k | 0 <= k < j :: later[k].Result? {
      assert parts[j + 1] == later[j];
      var k :| 0 <= k < j + 1 && parts[k].Result?;
      assert later[k - 1] == parts[k];
    }
  }

  lemma {:induction false} MuteCons(parts: seq<Part>)
    requires parts != [] && !Speaks(parts[0]) && Mute(parts[1..])
    ensures Mute(parts)
  {
    var later := parts[1..];
    forall j | 0 <= j < |parts| && Speaks(parts[j]) ensures exists k | 0 <= k < j :: parts[k].Result? {
      assert later[j - 1] == parts[j];
      var k :| 0 <= k < j - 1 && later[k].Result?;
      assert parts[k + 1] == later[k];
    }
  }

  lemma {:induction false} MuteStep(parts: seq<Part>)
    requires parts != []
    ensures Mute(parts) <==> parts[0].Result? || (!Speaks(parts[0]) && Mute(parts[1..]))
  {
    if !parts[0].Result? {
      if Mute(parts) { MuteDrop(parts); }
      if !Speaks(parts[0]) && Mute(parts[1..]) { MuteCons(parts); }
    }
  }

  lemma {:induction false} CallsLastStep(parts: seq<Part>)
    requires parts != []
    ensures CallsLast(parts) <==> (parts[0].Call? ==> Mute(parts[1..])) && CallsLast(parts[1..])
  {
    var later := parts[1..];
    assert forall i | 0 <= i < |later| :: later[i] == parts[i + 1];
    if CallsLast(parts) {
      forall i, j | 0 <= i < j < |later| && later[i].Call? && Speaks(later[j])
        ensures exists k | i < k < j :: later[k].Result?
      {
        var k :| i + 1 < k < j + 1 && parts[k].Result?;
        assert later[k - 1] == parts[k];
      }
      if parts[0].Call? {
        forall j | 0 <= j < |later| && Speaks(later[j])
          ensures exists k | 0 <= k < j :: later[k].Result?
        {
          var k :| 0 < k < j + 1 && parts[k].Result?;
          assert later[k - 1] == parts[k];
        }
      }
    }
    if (parts[0].Call? ==> Mute(later)) && CallsLast(later) {
      forall i, j | 0 <= i < j < |parts| && parts[i].Call? && Speaks(parts[j])
        ensures exists k | i < k < j :: parts[k].Result?
      {
        assert later[j - 1] == parts[j];
        if i == 0 {
          var k :| 0 <= k < j - 1 && later[k].Result?;
          assert parts[k + 1] == later[k];
        } else {
          assert later[i - 1] == parts[i];
          var k :| i - 1 < k < j - 1 && later[k].Result?;
          assert parts[k + 1] == later[k];
        }
      }
    }
  }

  lemma {:induction false} InOrderIff(parts: seq<Part>, called: bool)
    ensures InOrder(parts, called) <==> CallsLast(parts) && (called ==> Mute(parts))
    decreases |parts|
  {
    if parts != [] {
      CallsLastStep(parts);
      MuteStep(parts);
      InOrderIff(parts[1..], parts[0].Call? || (called && !parts[0].Result?));
    }
  }

  lemma {:induction false} FanStartsWithText(role: Role, parts: seq<Part>, text: seq<string>, calls: seq<WireCall>)
    ensures Glyphs(role, Concat(text)) <= WireSays(Fan(role, parts, text, calls))
    decreases |parts|
  {
    if parts == [] {
      FlushSaysWaiting(role, text, calls);
    } else {
      if parts[0].Result? {
        FanAtResult(role, parts, text, calls);
      } else {
        FanStartsWithText(role, parts[1..], Texts(text, parts[0]), Calls(calls, parts[0]));
        if parts[0].Text? { WaitingText(role, text, parts[0].value); }
      }
    }
  }

  lemma {:induction false} FanLength(role: Role, parts: seq<Part>, text: seq<string>, calls: seq<WireCall>)
    ensures |WireSays(Fan(role, parts, text, calls))| == |Waiting(role, text, calls)| + |PartsSay(role, parts)|
    decreases |parts|
  {
    if parts == [] {
      FlushSaysWaiting(role, text, calls);
    } else {
      if parts[0].Result? {
        FanAtResult(role, parts, text, calls);
        FanLength(role, parts[1..], [], []);
      } else {
        FanLength(role, parts[1..], Texts(text, parts[0]), Calls(calls, parts[0]));
        if parts[0].Text? { WaitingText(role, text, parts[0].value); }
      }
    }
  }

  lemma {:induction false} FanInOrderIff(role: Role, parts: seq<Part>, text: seq<string>, calls: seq<WireCall>)
    ensures WireSays(Fan(role, parts, text, calls)) == Waiting(role, text, calls) + PartsSay(role, parts)
       <==> InOrder(parts, calls != [])
    decreases |parts|
  {
    if parts == [] {
      FlushSaysWaiting(role, text, calls);
    } else {
      var later := PartsSay(role, parts[1..]);
      if parts[0].Result? {
        FanAtResult(role, parts, text, calls);
        FanInOrderIff(role, parts[1..], [], []);
        NothingWaits(role);
        assert [] + later == later;
        Assoc3(Waiting(role, text, calls), PartSays(role, parts[0]), later);
        SameTail(Waiting(role, text, calls) + PartSays(role, parts[0]),
                 WireSays(Fan(role, parts[1..], [], [])), later);
      } else if parts[0].Text? && parts[0].value != "" && calls != [] {
        LateTextOvertakes(role, parts, text, calls);
      } else {
        FanInOrderIff(role, parts[1..], Texts(text, parts[0]), Calls(calls, parts[0]));
        JoinsWaiting(role, parts[0], text, calls);
        Assoc3(Waiting(role, text, calls), PartSays(role, parts[0]), later);
      }
    }
  }

  lemma {:induction false} JoinsWaiting(role: Role, part: Part, text: seq<string>, calls: seq<WireCall>)
    requires !part.Result? && (part.Text? ==> part.value == "" || calls == [])
    ensures Waiting(role, Texts(text, part), Calls(calls, part))
         == Waiting(role, text, calls) + PartSays(role, part)
  {
    if part.Text? {
      WaitingText(role, text, part.value);
    } else if part.Call? {
      WaitingCall(role, calls, WireCall(part.id, part.name, part.args));
    }
  }

  lemma {:induction false} LateTextOvertakes(role: Role, parts: seq<Part>, text: seq<string>, calls: seq<WireCall>)
    requires parts != [] && parts[0].Text? && parts[0].value != "" && calls != []
    ensures WireSays(Fan(role, parts, text, calls)) != Waiting(role, text, calls) + PartsSay(role, parts)
  {
    var g, c, v := Glyphs(role, Concat(text)), Callings(role, calls), Glyphs(role, parts[0].value);
    WaitingText(role, text, parts[0].value);
    FanStartsWithText(role, parts[1..], Texts(text, parts[0]), calls);
    var wire := WireSays(Fan(role, parts, text, calls));
    assert wire[|g|] == (g + v)[|g|] == v[0];
    assert (g + c + PartsSay(role, parts))[|g|] == c[0];
  }

  lemma {:induction false} SameTail<T>(front: seq<T>, a: seq<T>, b: seq<T>)
    ensures front + a == front + b <==> a == b
  {
    assert (front + a)[|front|..] == a && (front + b)[|front|..] == b;
  }

  lemma {:induction false} SameHalves<T>(a: seq<T>, b: seq<T>, a': seq<T>, b': seq<T>)
    requires |a| == |a'|
    ensures a + b == a' + b' <==> a == a' && b == b'
  {
    assert (a + b)[..|a|] == a && (a + b)[|a|..] == b;
    assert (a' + b')[..|a|] == a' && (a' + b')[|a|..] == b';
  }

  /** The wire says exactly what the conversation says, token for token, if and only if no
    * message has text after a call with no result between: the wire puts a message's text first. */
  lemma {:induction false} WireIsVerbatimIff(messages: seq<Message>)
    ensures WireSays(Wire(messages)) == Says(messages)
       <==> forall k | 0 <= k < |messages| :: CallsLast(messages[k].content)
    decreases |messages|
  {
    hide WireSays, PartsSay, Fan, CallsLast;
    if messages == [] {
      NothingSaid();
    } else {
      var m, later := messages[0], messages[1..];
      MessageIsVerbatimIff(m);
      WireSaysAppend(Fan(m.role, m.content, [], []), Wire(later));
      SameHalves(WireSays(Fan(m.role, m.content, [], [])), WireSays(Wire(later)),
                 PartsSay(m.role, m.content), Says(later));
      WireIsVerbatimIff(later);
      assert messages == [m] + later;
    }
  }

  lemma {:induction false} NothingSaid()
    ensures WireSays([]) == []
  {}

  lemma {:induction false} MessageIsVerbatimIff(m: Message)
    ensures var wire := WireSays(Fan(m.role, m.content, [], [])); var said := PartsSay(m.role, m.content);
            |wire| == |said| && (wire == said <==> CallsLast(m.content))
  {
    hide WireSays, PartsSay, Fan, CallsLast, Waiting;
    FanLength(m.role, m.content, [], []);
    FanInOrderIff(m.role, m.content, [], []);
    InOrderIff(m.content, false);
    NothingWaits(m.role);
    assert [] + PartsSay(m.role, m.content) == PartsSay(m.role, m.content);
  }

  // ---------------------------------------------------------------- results follow calls

  ghost predicate Carries(wire: seq<WireMessage>, t: Token, i: nat) {
    i < |wire| && t in MessageSays(wire[i])
  }

  lemma {:induction false} SaidAt(wire: seq<WireMessage>, k: nat)
    requires k < |WireSays(wire)|
    ensures wire != []
    ensures var head, tail := MessageSays(wire[0]), WireSays(wire[1..]);
            if k < |head| then WireSays(wire)[k] == head[k]
            else k - |head| < |tail| && WireSays(wire)[k] == tail[k - |head|]
  {}

  lemma {:induction false} CarriedLater(wire: seq<WireMessage>, t: Token, i: nat)
    requires wire != [] && Carries(wire[1..], t, i)
    ensures Carries(wire, t, i + 1) && wire[1..][i] == wire[i + 1]
  {}

  /** Of two tokens in order, the first is carried by the same or an earlier message. */
  lemma {:induction false} CarriedInOrder(wire: seq<WireMessage>, a: nat, b: nat) returns (i: nat, j: nat)
    requires a < b < |WireSays(wire)|
    ensures i <= j && Carries(wire, WireSays(wire)[a], i) && Carries(wire, WireSays(wire)[b], j)
    ensures i == j ==> |MessageSays(wire[i])| > 1
    decreases |wire|
  {
    hide MessageSays, WireSays;
    SaidAt(wire, a);
    SaidAt(wire, b);
    var n := |MessageSays(wire[0])|;
    if b < n {
      i, j := 0, 0;
    } else if a >= n {
      var i', j' := CarriedInOrder(wire[1..], a - n, b - n);
      i, j := i' + 1, j' + 1;
      CarriedLater(wire, WireSays(wire)[a], i');
      CarriedLater(wire, WireSays(wire)[b], j');
    } else {
      i := 0;
      var j' := CarriedAt(wire[1..], b - n);
      j := j' + 1;
      CarriedLater(wire, WireSays(wire)[b], j');
    }
  }

  lemma {:induction false} CarriedAt(wire: seq<WireMessage>, b: nat) returns (j: nat)
    requires b < |WireSays(wire)|
    ensures Carries(wire, WireSays(wire)[b], j)
    decreases |wire|
  {
    hide MessageSays, WireSays;
    SaidAt(wire, b);
    var n := |MessageSays(wire[0])|;
    if b < n {
      j := 0;
    } else {
      var j' := CarriedAt(wire[1..], b - n);
      j := j' + 1;
      CarriedLater(wire, WireSays(wire)[b], j');
    }
  }

  /** Two tokens of a filtered list stand in the same order in the list itself. */
  lemma {:induction false} WithoutPositions(ts: seq<Token>, glyphs: bool, a: nat, b: nat) returns (i: nat, j: nat)
    requires a < b < |Without(ts, glyphs)|
    ensures i < j < |ts| && ts[i] == Without(ts, glyphs)[a] && ts[j] == Without(ts, glyphs)[b]
    decreases |ts|
  {
    hide LeftOut;
    if LeftOut(ts[0], glyphs) {
      var i', j' := WithoutPositions(ts[1..], glyphs, a, b);
      i, j := i' + 1, j' + 1;
    } else if a == 0 {
      i := 0;
      var j' := WithoutPosition(ts[1..], glyphs, b - 1);
      j := j' + 1;
    } else {
      var i', j' := WithoutPositions(ts[1..], glyphs, a - 1, b - 1);
      i, j := i' + 1, j' + 1;
    }
  }

  lemma {:induction false} WithoutPosition(ts: seq<Token>, glyphs: bool, b: nat) returns (j: nat)
    requires b < |Without(ts, glyphs)|
    ensures j < |ts| && ts[j] == Without(ts, glyphs)[b]
    decreases |ts|
  {
    hide LeftOut;
    if LeftOut(ts[0], glyphs) {
      var j' := WithoutPosition(ts[1..], glyphs, b);
      j := j' + 1;
    } else if b == 0 {
      j := 0;
    } else {
      var j' := WithoutPosition(ts[1..], glyphs, b - 1);
      j := j' + 1;
    }
  }

  /** A result given after its call is sent in a later message than the one carrying the call. */
  lemma {:induction false} ResultFollowsItsCall(messages: seq<Message>, a: nat, b: nat) returns (i: nat, j: nat)
    requires var said := Without(Says(messages), true);
             a < b < |said| && said[a].Calling? && said[b].Answer?
    ensures i < j < |Wire(messages)|
    ensures var said := Without(Says(messages), true); var wire := Wire(messages);
            && wire[i].Chat? && wire[i].role == said[a].role && said[a].call in wire[i].calls
            && wire[j] == Tool(said[b].id, said[b].text)
  {
    var wire := Wire(messages);
    var said := Without(Says(messages), true);
    WireKeepsOrder(messages, true);
    var p, q := WithoutPositions(WireSays(wire), true, a, b);
    i, j := CarriedInOrder(wire, p, q);
    CarriedCall(wire[i], said[a]);
    CarriedAnswer(wire[j], said[b]);
  }

  lemma {:induction false} CarriedCall(m: WireMessage, t: Token)
    requires t in MessageSays(m) && t.Calling?
    ensures m.Chat? && m.role == t.role && t.call in m.calls
  {}

  lemma {:induction false} CarriedAnswer(m: WireMessage, t: Token)
    requires t in MessageSays(m) && t.Answer?
    ensures m == Tool(t.id, t.text) && |MessageSays(m)| == 1
  {}

  // ---------------------------------------------------------------- counting

  /** What the token estimate counts of a part. */
  function Counted(part: Part): string
    decreases part
  {
    match part
    case Text(value) => value
    case Valued(value) => value
    case Call(_, name, args) => name + args
    case CallLike(name, args) => name + args
    case Result(_, content) => Extracted(content)
    case Nested(content) => Extracted(content)
    case Dataless => ""
  }

  function Extracted(parts: seq<Part>): string
    decreases parts
  {
    if parts == [] then "" else Counted(parts[0]) + Extracted(parts[1..])
  }

  method ExtractText(parts: seq<Part>) returns (text: string)
    ensures text == Extracted(parts)
    decreases parts
  {
    text := "";
    for i := 0 to |parts|
      invariant text + Extracted(parts[i..]) == Extracted(parts)
    {
      ghost var was := text;
      match parts[i] {
        case Text(value) => text := text + value;
        case Valued(value) => text := text + value;
        case Call(_, name, args) => text := text + name + args;
        case CallLike(name, args) => text := text + name + args;
        case Result(_, content) => var inner := ExtractText(content); text := text + inner;
        case Nested(content) => var inner := ExtractText(content); text := text + inner;
        case Dataless =>
      }
      assert text == was + Counted(parts[i]);
      Assoc3(was, Counted(parts[i]), Extracted(parts[i + 1..]));
    }
  }

  /** Counting is part by part, in order. */
  lemma {:induction false} ExtractedJoins(a: seq<Part>, b: seq<Part>)
    ensures Extracted(a + b) == Extracted(a) + Extracted(b)
    ensures |a| == 1 ==> Extracted(a) == Counted(a[0])
  {
    if a == [] {
      assert a + b == b;
    } else {
      assert (a + b)[1..] == a[1..] + b;
      ExtractedJoins(a[1..], b);
      Assoc3(Counted(a[0]), Extracted(a[1..]), Extracted(b));
    }
  }

  function TokenSize(t: Token): nat {
    match t
    case Glyph(_, _) => 1
    case Calling(_, call) => |call.name| + |call.args|
    case Answer(_, text) => |text|
  }

  /** Characters of text, call names, call arguments and result text. */
  function Size(ts: seq<Token>): nat {
    if ts == [] then 0 else TokenSize(ts[0]) + Size(ts[1..])
  }

  /** What a part counts for and does not send. */
  function Dropped(part: Part): nat
    decreases part
  {
    match part
    case Valued(value) => |value|
    case CallLike(name, args) => |name| + |args|
    case Nested(content) => |Extracted(content)|
    case Result(_, content) => DroppedInResult(content)
    case _ => 0
  }

  /** A result sends its text items only. */
  function DroppedInResult(content: seq<Part>): nat {
    if content == [] then 0
    else (if content[0].Text? then 0 else |Counted(content[0])|) + DroppedInResult(content[1..])
  }

  function DroppedIn(parts: seq<Part>): nat {
    if parts == [] then 0 else Dropped(parts[0]) + DroppedIn(parts[1..])
  }

  lemma {:induction false} SizeAppend(a: seq<Token>, b: seq<Token>)
    ensures Size(a + b) == Size(a) + Size(b)
  {
    if a == [] {
      assert a + b == b;
    } else {
      assert (a + b)[1..] == a[1..] + b;
      SizeAppend(a[1..], b);
    }
  }

  lemma {:induction false} GlyphsSize(role: Role, s: string)
    ensures Size(Glyphs(role, s)) == |s|
    decreases |s|
  {
    if s != "" {
      assert Glyphs(role, s)[1..] == Glyphs(role, s[1..]);
      GlyphsSize(role, s[1..]);
    }
  }

  lemma {:induction false} WaitingGrows(role: Role, text: seq<string>, calls: seq<WireCall>, part: Part)
    requires !part.Result?
    ensures Size(Waiting(role, text, calls)) + Size(PartSays(role, part))
         == Size(Waiting(role, Texts(text, part), Calls(calls, part)))
  {
    var g, c := Glyphs(role, Concat(text)), Callings(role, calls);
    SizeAppend(g, c);
    if part.Text? {
      WaitingText(role, text, part.value);
      SizeAppend(g, Glyphs(role, part.value));
      SizeAppend(g + Glyphs(role, part.value), c);
    } else if part.Call? {
      var call := WireCall(part.id, part.name, part.args);
      WaitingCall(role, calls, call);
      SizeAppend(c, [Calling(role, call)]);
      SizeAppend(g, c + [Calling(role, call)]);
    }
  }

  lemma {:induction false} FanSize(role: Role, parts: seq<Part>, text: seq<string>, calls: seq<WireCall>)
    ensures Size(WireSays(Fan(role, parts, text, calls)))
         == Size(Waiting(role, text, calls)) + Size(PartsSay(role, parts))
    decreases |parts|
  {
    hide Waiting, PartSays;
    if parts == [] {
      FlushSaysWaiting(role, text, calls);
    } else {
      SizeAppend(PartSays(role, parts[0]), PartsSay(role, parts[1..]));
      if parts[0].Result? {
        FanAtResult(role, parts, text, calls);
        var later := WireSays(Fan(role, parts[1..], [], []));
        SizeAppend(Waiting(role, text, calls) + PartSays(role, parts[0]), later);
        SizeAppend(Waiting(role, text, calls), PartSays(role, parts[0]));
        FanSize(role, parts[1..], [], []);
        NothingWaits(role);
      } else {
        WaitingGrows(role, text, calls, parts[0]);
        FanSize(role, parts[1..], Texts(text, parts[0]), Calls(calls, parts[0]));
      }
    }
  }

  lemma {:induction false} NothingWaits(role: Role)
    ensures Waiting(role, [], []) == []
  {}

  lemma {:induction false} ResultCounted(content: seq<Part>)
    ensures |Extracted(content)| == |Flat(content)| + DroppedInResult(content)
    decreases |content|
  {
    if content != [] { ResultCounted(content[1..]); }
  }

  lemma {:induction false} PartCounted(role: Role, part: Part)
    ensures |Counted(part)| == Size(PartSays(role, part)) + Dropped(part)
  {
    match part
    case Text(value) => GlyphsSize(role, value);
    case Result(_, content) => ResultCounted(content);
    case _ =>
  }

  lemma {:induction false} PartsCounted(role: Role, parts: seq<Part>)
    ensures |Extracted(parts)| == Size(PartsSay(role, parts)) + DroppedIn(parts)
    decreases |parts|
  {
    hide PartSays, Dropped, Counted;
    if parts != [] {
      PartCounted(role, parts[0]);
      PartsCounted(role, parts[1..]);
      SizeAppend(PartSays(role, parts[0]), PartsSay(role, parts[1..]));
    }
  }

  function TotalCounted(messages: seq<Message>): nat {
    if messages == [] then 0 else |Extracted(messages[0].content)| + TotalCounted(messages[1..])
  }

  function TotalDropped(messages: seq<Message>): nat {
    if messages == [] then 0 else DroppedIn(messages[0].content) + TotalDropped(messages[1..])
  }

  /** Conservation: what is counted is what is sent plus what the mapping drops. */
  lemma {:induction false} CountedIsSentPlusDropped(messages: seq<Message>)
    ensures TotalCounted(messages) == Size(WireSays(Wire(messages))) + TotalDropped(messages)
    decreases |messages|
  {
    hide Waiting, Extracted, DroppedIn, PartsSay;
    if messages != [] {
      var m := messages[0];
      var fan := Fan(m.role, m.content, [], []);
      WireSaysAppend(fan, Wire(messages[1..]));
      SizeAppend(WireSays(fan), WireSays(Wire(messages[1..])));
      FanSize(m.role, m.content, [], []);
      NothingWaits(m.role);
      PartsCounted(m.role, m.content);
      CountedIsSentPlusDropped(messages[1..]);
    }
  }

  /** Every counted character of the part goes on the wire. */
  predicate SentWhole(part: Part) {
    match part
    case Valued(value) => value == ""
    case CallLike(name, args) => name == "" && args == ""
    case Nested(content) => Extracted(content) == ""
    case Result(_, content) => forall i | 0 <= i < |content| :: content[i].Text? || Counted(content[i]) == ""
    case _ => true
  }

  lemma {:induction false} ResultSentWhole(content: seq<Part>)
    ensures DroppedInResult(content) == 0
       <==> forall i | 0 <= i < |content| :: content[i].Text? || Counted(content[i]) == ""
    decreases |content|
  {
    if content != [] {
      ResultSentWhole(content[1..]);
      assert content == [content[0]] + content[1..];
    }
  }

  lemma {:induction false} PartsSentWhole(parts: seq<Part>)
    ensures DroppedIn(parts) == 0 <==> forall i | 0 <= i < |parts| :: SentWhole(parts[i])
    decreases |parts|
  {
    if parts != [] {
      PartsSentWhole(parts[1..]);
      assert parts == [parts[0]] + parts[1..];
      if parts[0].Result? { ResultSentWhole(parts[0].content); }
    }
  }

  /** The count never falls short of the wire, and it is exact if and only if every part's
    * counted text is sent: no foreign part carries text, and results hold text items only. */
  lemma {:induction false} CountIsExactIff(messages: seq<Message>)
    ensures TotalCounted(messages) >= Size(WireSays(Wire(messages)))
    ensures TotalCounted(messages) == Size(WireSays(Wire(messages)))
       <==> forall k | 0 <= k < |messages| ::
              forall i | 0 <= i < |messages[k].content| :: SentWhole(messages[k].content[i])
    decreases |messages|
  {
    hide SentWhole;
    CountedIsSentPlusDropped(messages);
    NoneDropped(messages);
  }

  lemma {:induction false} NoneDropped(messages: seq<Message>)
    ensures TotalDropped(messages) == 0
       <==> forall k | 0 <= k < |messages| ::
              forall i | 0 <= i < |messages[k].content| :: SentWhole(messages[k].content[i])
    decreases |messages|
  {
    hide SentWhole;
    if messages != [] {
      NoneDropped(messages[1..]);
      assert messages == [messages[0]] + messages[1..];
      PartsSentWhole(messages[0].content);
    }
  }

  /** `Math.ceil(length / 3.5)`: the least number of 3.5-character tokens that holds the text. */
  function EstimateTokens(length: nat): (tokens: nat)
    ensures 2 * length <= 7 * tokens
    ensures forall fewer: nat | fewer < tokens :: 7 * fewer < 2 * length
  {
    (2 * length + 6) / 7
  }

  function TotalEstimate(messages: seq<Message>): nat {
    if messages == [] then 0
    else EstimateTokens(|Extracted(messages[0].content)|) + TotalEstimate(messages[1..])
  }

  lemma {:induction false} EstimateCoversCount(messages: seq<Message>)
    ensures 2 * TotalCounted(messages) <= 7 * TotalEstimate(messages)
    decreases |messages|
  {
    if messages != [] { EstimateCoversCount(messages[1..]); }
  }

  /** Message by message, the estimate never under-counts what the whole request sends. */
  lemma {:induction false} EstimateCoversTheWire(messages: seq<Message>)
    ensures 2 * Size(WireSays(Wire(messages))) <= 7 * TotalEstimate(messages)
  {
    EstimateCoversCount(messages);
    CountedIsSentPlusDropped(messages);
  }

  /** The failing case: a part with a text value that is not a text part is counted and not sent. */
  lemma {:induction false} CountedAndNotSent(role: Role, value: string)
    requires value != ""
    ensures var messages := [Message(role, [Valued(value)])];
            TotalCounted(messages) == |value| && Wire(messages) == []
  {
    var part, m := Valued(value), Message(role, [Valued(value)]);
    assert [part][1..] == [] && Extracted([part]) == value + Extracted([]);
    assert [m][1..] == [];
    assert Texts([], part) == [] && Calls([], part) == [];
    assert Fan(role, [part], [], []) == Fan(role, [], [], []);
  }
}
