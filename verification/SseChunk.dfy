/** What the redactor reads of a parsed SSE chunk and how it writes a field back
  * (crates/governance-redact/src/streaming/mod.rs). */
module SseChunk {
  import opened Common
  import opened RedactEngine

  datatype ContentField = Content | ToolCallArguments(index: nat)

  datatype Key = Key(choice: nat, field: ContentField)

  /** A JSON string. `written` is history: whether a release has put the text there. */
  datatype Value = Value(text: Text, written: bool)

  /** `arguments` is absent unless it is a string; an absent `index` counts as 0. */
  datatype Call = Call(index: nat, arguments: Option<Value>)

  datatype Choice = Choice(index: nat, content: Option<Value>, calls: seq<Call>)

  type Chunk = seq<Choice>

  // ---------- Writing one field back ----------

  /** The first call with the index, whether or not it has arguments to set. */
  function SetCall(calls: seq<Call>, index: nat, text: Text): seq<Call> {
    if calls == [] then []
    else if calls[0].index != index then [calls[0]] + SetCall(calls[1..], index, text)
    else if calls[0].arguments.None? then calls
    else [Call(index, Some(Value(text, true)))] + calls[1..]
  }

  function SetField(c: Choice, field: ContentField, text: Text): Choice {
    match field
    case Content => if c.content.Some? then c.(content := Some(Value(text, true))) else c
    case ToolCallArguments(index) => c.(calls := SetCall(c.calls, index, text))
  }

  /** The first choice with the index, whether or not it has the field. */
  function SetDeltaContent(chunk: Chunk, key: Key, text: Text): Chunk {
    if chunk == [] then []
    else if chunk[0].index != key.choice then [chunk[0]] + SetDeltaContent(chunk[1..], key, text)
    else [SetField(chunk[0], key.field, text)] + chunk[1..]
  }

  // ---------- Reading the fields ----------

  /** One field of a chunk. It is `reachable` when writing its key reaches it: no earlier choice has
    * its choice index and no earlier call of its choice has its call index. */
  datatype Slot = Slot(key: Key, value: Value, reachable: bool)

  function CallSlot(choice: nat, call: Call, reachable: bool): seq<Slot> {
    match call.arguments
    case None => []
    case Some(v) => [Slot(Key(choice, ToolCallArguments(call.index)), v, reachable)]
  }

  function CallSlots(choice: nat, calls: seq<Call>, open: bool, seen: set<nat>): seq<Slot> {
    if calls == [] then []
    else
      CallSlot(choice, calls[0], open && calls[0].index !in seen)
      + CallSlots(choice, calls[1..], open, seen + {calls[0].index})
  }

  function ContentSlots(c: Choice, open: bool): seq<Slot> {
    if c.content.Some? then [Slot(Key(c.index, Content), c.content.value, open)] else []
  }

  function ChoiceSlots(c: Choice, open: bool): seq<Slot> {
    ContentSlots(c, open) + CallSlots(c.index, c.calls, open, {})
  }

  function SlotsFrom(chunk: Chunk, seen: set<nat>): seq<Slot> {
    if chunk == [] then []
    else ChoiceSlots(chunk[0], chunk[0].index !in seen) + SlotsFrom(chunk[1..], seen + {chunk[0].index})
  }

  function Slots(chunk: Chunk): seq<Slot> { SlotsFrom(chunk, {}) }

  datatype Contribution = Contribution(key: Key, text: Text)

  /** `delta_contents`: the fields in order, each with its key and text. */
  function DeltaContents(chunk: Chunk): seq<Contribution> {
    var slots := Slots(chunk);
    seq(|slots|, i requires 0 <= i < |slots| => Contribution(slots[i].key, slots[i].value.text))
  }

  // ---------- The fields are the strings of the chunk ----------

  /** No choice before it, in the chunk or before that, has its index. */
  predicate FirstChoice(chunk: Chunk, seen: set<nat>, i: nat)
    requires i < |chunk|
  {
    chunk[i].index !in seen && forall k | 0 <= k < i :: chunk[k].index != chunk[i].index
  }

  predicate FirstCall(calls: seq<Call>, seen: set<nat>, j: nat)
    requires j < |calls|
  {
    calls[j].index !in seen && forall k | 0 <= k < j :: calls[k].index != calls[j].index
  }

  /** The content of choice `i`. */
  predicate ContentOf(chunk: Chunk, seen: set<nat>, i: nat, s: Slot) {
    i < |chunk| && chunk[i].content.Some? && s == Slot(Key(chunk[i].index, Content), chunk[i].content.value, FirstChoice(chunk, seen, i))
  }

  /** The arguments of call `j`, its choice being writable if `open`. */
  predicate ArgumentsIn(choice: nat, calls: seq<Call>, open: bool, seen: set<nat>, j: nat, s: Slot) {
    && j < |calls| && calls[j].arguments.Some?
    && s == Slot(Key(choice, ToolCallArguments(calls[j].index)), calls[j].arguments.value, open && FirstCall(calls, seen, j))
  }

  predicate ArgumentsOf(chunk: Chunk, seen: set<nat>, i: nat, j: nat, s: Slot) {
    i < |chunk| && ArgumentsIn(chunk[i].index, chunk[i].calls, FirstChoice(chunk, seen, i), {}, j, s)
  }

  ghost predicate IsCallField(choice: nat, calls: seq<Call>, open: bool, seen: set<nat>, s: Slot) {
    exists j: nat :: ArgumentsIn(choice, calls, open, seen, j, s)
  }

  ghost predicate IsField(chunk: Chunk, seen: set<nat>, s: Slot) {
    (exists i: nat :: ContentOf(chunk, seen, i, s)) || exists i: nat, j: nat :: ArgumentsOf(chunk, seen, i, j, s)
  }

  lemma {:induction false} ArgumentsLater(choice: nat, calls: seq<Call>, open: bool, seen: set<nat>, j: nat, s: Slot)
    requires calls != []
    ensures ArgumentsIn(choice, calls[1..], open, seen + {calls[0].index}, j, s) <==> ArgumentsIn(choice, calls, open, seen, j + 1, s)
  {
    var rest := calls[1..];
    if j < |rest| {
      assert rest[j] == calls[j + 1];
      assert FirstCall(rest, seen + {calls[0].index}, j) <==> FirstCall(calls, seen, j + 1) by {
        if FirstCall(rest, seen + {calls[0].index}, j) {
          forall k | 0 <= k < j + 1 ensures calls[k].index != calls[j + 1].index { if k > 0 { assert calls[k] == rest[k - 1]; } }
        }
        if FirstCall(calls, seen, j + 1) {
          forall k | 0 <= k < j ensures rest[k].index != rest[j].index { assert rest[k] == calls[k + 1]; }
        }
      }
    }
  }

  lemma {:induction false} CallFields(choice: nat, calls: seq<Call>, open: bool, seen: set<nat>, s: Slot)
    ensures s in CallSlots(choice, calls, open, seen) <==> IsCallField(choice, calls, open, seen, s)
    decreases |calls|
  {
    if calls != [] {
      var rest, later := calls[1..], seen + {calls[0].index};
      CallFields(choice, rest, open, later, s);
      assert s in CallSlot(choice, calls[0], open && calls[0].index !in seen) <==> ArgumentsIn(choice, calls, open, seen, 0, s);
      if j: nat :| ArgumentsIn(choice, rest, open, later, j, s) {
        ArgumentsLater(choice, calls, open, seen, j, s);
        assert ArgumentsIn(choice, calls, open, seen, j + 1, s);
      }
      if j: nat :| ArgumentsIn(choice, calls, open, seen, j, s) {
        if j > 0 { ArgumentsLater(choice, calls, open, seen, j - 1, s); }
      }
    }
  }

  lemma {:induction false} FieldsLater(chunk: Chunk, seen: set<nat>, s: Slot)
    requires chunk != []
    ensures forall i: nat :: ContentOf(chunk[1..], seen + {chunk[0].index}, i, s) <==> ContentOf(chunk, seen, i + 1, s)
    ensures forall i: nat, j: nat :: ArgumentsOf(chunk[1..], seen + {chunk[0].index}, i, j, s) <==> ArgumentsOf(chunk, seen, i + 1, j, s)
  {
    var rest, later := chunk[1..], seen + {chunk[0].index};
    forall i: nat | i < |rest| ensures rest[i] == chunk[i + 1] && (FirstChoice(rest, later, i) <==> FirstChoice(chunk, seen, i + 1)) {
      if FirstChoice(rest, later, i) {
        forall k | 0 <= k < i + 1 ensures chunk[k].index != chunk[i + 1].index { if k > 0 { assert chunk[k] == rest[k - 1]; } }
      }
      if FirstChoice(chunk, seen, i + 1) {
        forall k | 0 <= k < i ensures rest[k].index != rest[i].index { assert rest[k] == chunk[k + 1]; }
      }
    }
  }

  lemma {:induction false} FieldsFrom(chunk: Chunk, seen: set<nat>, s: Slot)
    ensures s in SlotsFrom(chunk, seen) <==> IsField(chunk, seen, s)
    decreases |chunk|
  {
    hide FirstChoice, CallSlots;
    if chunk != [] {
      var c, rest, later := chunk[0], chunk[1..], seen + {chunk[0].index};
      FieldsFrom(rest, later, s);
      FieldsLater(chunk, seen, s);
      CallFields(c.index, c.calls, c.index !in seen, {}, s);
      FirstIsFirst(chunk, seen);
      hide ContentOf, ArgumentsOf;
      ChoiceFields(chunk, seen, s);
      if i: nat :| ContentOf(rest, later, i, s) { assert ContentOf(chunk, seen, i + 1, s); }
      if i: nat, j: nat :| ArgumentsOf(rest, later, i, j, s) { assert ArgumentsOf(chunk, seen, i + 1, j, s); }
      if i: nat :| ContentOf(chunk, seen, i, s) && i > 0 { assert ContentOf(rest, later, i - 1, s); }
      if i: nat, j: nat :| ArgumentsOf(chunk, seen, i, j, s) && i > 0 { assert ArgumentsOf(rest, later, i - 1, j, s); }
    }
  }

  lemma {:induction false} FirstIsFirst(chunk: Chunk, seen: set<nat>)
    requires chunk != []
    ensures FirstChoice(chunk, seen, 0) <==> chunk[0].index !in seen
  {}

  lemma {:induction false} ChoiceFields(chunk: Chunk, seen: set<nat>, s: Slot)
    requires chunk != []
    ensures s in ChoiceSlots(chunk[0], chunk[0].index !in seen) <==>
            ContentOf(chunk, seen, 0, s) || exists j: nat :: ArgumentsOf(chunk, seen, 0, j, s)
  {
    var c, open := chunk[0], chunk[0].index !in seen;
    CallFields(c.index, c.calls, open, {}, s);
    FirstIsFirst(chunk, seen);
    hide FirstChoice;
    forall j: nat ensures ArgumentsOf(chunk, seen, 0, j, s) <==> ArgumentsIn(c.index, c.calls, open, {}, j, s) {}
  }

  /** How many strings a chunk holds in the places a client reads. */
  function Strings(chunk: Chunk): nat {
    if chunk == [] then 0 else (if chunk[0].content.Some? then 1 else 0) + StringsIn(chunk[0].calls) + Strings(chunk[1..])
  }

  function StringsIn(calls: seq<Call>): nat {
    if calls == [] then 0 else (if calls[0].arguments.Some? then 1 else 0) + StringsIn(calls[1..])
  }

  lemma {:induction false} CountCalls(choice: nat, calls: seq<Call>, open: bool, seen: set<nat>)
    ensures |CallSlots(choice, calls, open, seen)| == StringsIn(calls)
    decreases |calls|
  {
    if calls != [] { CountCalls(choice, calls[1..], open, seen + {calls[0].index}); }
  }

  lemma {:induction false} CountFrom(chunk: Chunk, seen: set<nat>)
    ensures |SlotsFrom(chunk, seen)| == Strings(chunk)
    decreases |chunk|
  {
    if chunk != [] {
      CountCalls(chunk[0].index, chunk[0].calls, chunk[0].index !in seen, {});
      CountFrom(chunk[1..], seen + {chunk[0].index});
    }
  }

  /** What the redactor takes for the fields of a chunk: the content of every choice and the arguments of
    * every call that has them as a string, each once, under the index given; and reachable is what neither
    * an earlier choice of that index nor an earlier call of that choice and index hides. */
  lemma {:induction false} FieldsAreTheStrings(chunk: Chunk, s: Slot)
    ensures s in Slots(chunk) <==> IsField(chunk, {}, s)
    ensures |Slots(chunk)| == Strings(chunk)
  {
    FieldsFrom(chunk, {}, s);
    CountFrom(chunk, {});
  }

  // ---------- Writing reaches exactly the reachable fields ----------

  function Write(s: Slot, key: Key, text: Text): Slot {
    if s.key == key && s.reachable then s.(value := Value(text, true)) else s
  }

  function Written(slots: seq<Slot>, key: Key, text: Text): seq<Slot> {
    seq(|slots|, i requires 0 <= i < |slots| => Write(slots[i], key, text))
  }

  predicate Reaches(slots: seq<Slot>, key: Key) { exists s :: s in slots && s.key == key && s.reachable }

  lemma {:induction false} WrittenAppend(a: seq<Slot>, b: seq<Slot>, key: Key, text: Text)
    ensures Written(a + b, key, text) == Written(a, key, text) + Written(b, key, text)
  {}

  lemma {:induction false} WrittenNowhere(slots: seq<Slot>, key: Key, text: Text)
    requires !Reaches(slots, key)
    ensures Written(slots, key, text) == slots
  {
    forall i | 0 <= i < |slots| ensures Write(slots[i], key, text) == slots[i] {
      assert slots[i] in slots;
    }
  }

  lemma {:induction false} CallsElsewhere(choice: nat, calls: seq<Call>, open: bool, seen: set<nat>, key: Key)
    requires !open || key.choice != choice || key.field.Content? || key.field.index in seen
    ensures !Reaches(CallSlots(choice, calls, open, seen), key)
    decreases |calls|
  {
    if calls != [] {
      CallsElsewhere(choice, calls[1..], open, seen + {calls[0].index}, key);
    }
  }

  lemma {:induction false} ChoicesElsewhere(chunk: Chunk, seen: set<nat>, key: Key)
    requires key.choice in seen
    ensures !Reaches(SlotsFrom(chunk, seen), key)
    decreases |chunk|
  {
    if chunk != [] {
      ChoicesElsewhere(chunk[1..], seen + {chunk[0].index}, key);
      CallsElsewhere(chunk[0].index, chunk[0].calls, chunk[0].index !in seen, {}, key);
    }
  }

  lemma {:induction false} SetCallSlots(choice: nat, calls: seq<Call>, seen: set<nat>, index: nat, text: Text)
    requires index !in seen
    ensures CallSlots(choice, SetCall(calls, index, text), true, seen)
         == Written(CallSlots(choice, calls, true, seen), Key(choice, ToolCallArguments(index)), text)
    decreases |calls|
  {
    var key := Key(choice, ToolCallArguments(index));
    if calls != [] {
      var rest := CallSlots(choice, calls[1..], true, seen + {calls[0].index});
      var head := CallSlot(choice, calls[0], calls[0].index !in seen);
      WrittenAppend(head, rest, key, text);
      if calls[0].index == index {
        CallsElsewhere(choice, calls[1..], true, seen + {index}, key);
        WrittenNowhere(rest, key, text);
      } else {
        SetCallSlots(choice, calls[1..], seen + {calls[0].index}, index, text);
        var set' := SetCall(calls, index, text);
        assert set'[0] == calls[0] && set'[1..] == SetCall(calls[1..], index, text);
        assert Written(head, key, text) == head;
      }
    }
  }

  lemma {:induction false} SetFieldSlots(c: Choice, field: ContentField, text: Text)
    ensures ChoiceSlots(SetField(c, field, text), true) == Written(ChoiceSlots(c, true), Key(c.index, field), text)
  {
    var key := Key(c.index, field);
    var calls := CallSlots(c.index, c.calls, true, {});
    WrittenAppend(ContentSlots(c, true), calls, key, text);
    match field
    case Content =>
      CallsElsewhere(c.index, c.calls, true, {}, key);
      WrittenNowhere(calls, key, text);
    case ToolCallArguments(index) =>
      SetCallSlots(c.index, c.calls, {}, index, text);
      assert Written(ContentSlots(c, true), key, text) == ContentSlots(c, true);
  }

  lemma {:induction false} SetSlotsFrom(chunk: Chunk, seen: set<nat>, key: Key, text: Text)
    requires key.choice !in seen
    ensures SlotsFrom(SetDeltaContent(chunk, key, text), seen) == Written(SlotsFrom(chunk, seen), key, text)
    decreases |chunk|
  {
    if chunk != [] {
      var c := chunk[0];
      var head, rest := ChoiceSlots(c, c.index !in seen), SlotsFrom(chunk[1..], seen + {c.index});
      var after := SetDeltaContent(chunk, key, text);
      WrittenAppend(head, rest, key, text);
      if c.index == key.choice {
        assert after[0] == SetField(c, key.field, text) && after[1..] == chunk[1..];
        SetFieldSlots(c, key.field, text);
        ChoicesElsewhere(chunk[1..], seen + {c.index}, key);
        WrittenNowhere(rest, key, text);
      } else {
        assert after[0] == c && after[1..] == SetDeltaContent(chunk[1..], key, text);
        SetSlotsFrom(chunk[1..], seen + {c.index}, key, text);
        OtherChoice(c, c.index !in seen, key);
        WrittenNowhere(head, key, text);
      }
    }
  }

  lemma {:induction false} OtherChoice(c: Choice, open: bool, key: Key)
    requires c.index != key.choice
    ensures !Reaches(ChoiceSlots(c, open), key)
  {
    CallsElsewhere(c.index, c.calls, open, {}, key);
  }

  /** Writing a key changes the reachable field of that key, if there is one, and nothing else. */
  lemma {:induction false} WriteReachesItsField(chunk: Chunk, key: Key, text: Text)
    ensures Slots(SetDeltaContent(chunk, key, text)) == Written(Slots(chunk), key, text)
  {
    SetSlotsFrom(chunk, {}, key, text);
  }

  ghost predicate ReachedOnce(slots: seq<Slot>) {
    forall i, j | 0 <= i < j < |slots| && slots[i].reachable && slots[j].reachable :: slots[i].key != slots[j].key
  }

  lemma {:induction false} OnceEach(a: seq<Slot>, b: seq<Slot>)
    requires ReachedOnce(a) && ReachedOnce(b)
    requires forall s | s in a && s.reachable :: !Reaches(b, s.key)
    ensures ReachedOnce(a + b)
  {
    var all := a + b;
    forall i, j | 0 <= i < j < |all| && all[i].reachable && all[j].reachable ensures all[i].key != all[j].key {
      if i < |a| <= j {
        assert all[i] in a && all[j] in b;
        assert !Reaches(b, all[i].key);
      } else if j < |a| {
        assert all[i] == a[i] && all[j] == a[j];
      } else {
        assert all[i] == b[i - |a|] && all[j] == b[j - |a|];
      }
    }
  }

  lemma {:induction false} CallsReachedOnce(choice: nat, calls: seq<Call>, open: bool, seen: set<nat>)
    ensures ReachedOnce(CallSlots(choice, calls, open, seen))
    decreases |calls|
  {
    if calls != [] {
      CallsReachedOnce(choice, calls[1..], open, seen + {calls[0].index});
      CallsElsewhere(choice, calls[1..], open, seen + {calls[0].index}, Key(choice, ToolCallArguments(calls[0].index)));
      var head := CallSlot(choice, calls[0], open && calls[0].index !in seen);
      OnceEach(head, CallSlots(choice, calls[1..], open, seen + {calls[0].index}));
    }
  }

  lemma {:induction false} CallKeys(choice: nat, calls: seq<Call>, open: bool, seen: set<nat>)
    ensures forall s | s in CallSlots(choice, calls, open, seen) :: s.key.choice == choice && !s.key.field.Content?
    decreases |calls|
  {
    if calls != [] { CallKeys(choice, calls[1..], open, seen + {calls[0].index}); }
  }

  lemma {:induction false} SlotsReachedOnce(chunk: Chunk, seen: set<nat>)
    ensures ReachedOnce(SlotsFrom(chunk, seen))
    decreases |chunk|
  {
    if chunk != [] {
      var c, open := chunk[0], chunk[0].index !in seen;
      var rest := SlotsFrom(chunk[1..], seen + {c.index});
      SlotsReachedOnce(chunk[1..], seen + {c.index});
      CallsReachedOnce(c.index, c.calls, open, {});
      CallKeys(c.index, c.calls, open, {});
      OnceEach(ContentSlots(c, open), CallSlots(c.index, c.calls, open, {}));
      forall s | s in ChoiceSlots(c, open) && s.reachable ensures !Reaches(rest, s.key) {
        ChoicesElsewhere(chunk[1..], seen + {c.index}, s.key);
      }
      OnceEach(ChoiceSlots(c, open), rest);
    }
  }

  /** Of the fields that share a key, at most one can be written. */
  lemma {:induction false} OneFieldPerKey(chunk: Chunk)
    ensures ReachedOnce(Slots(chunk))
  {
    SlotsReachedOnce(chunk, {});
  }

  // ---------- What may happen to a frame's fields ----------

  /** The same fields; one that cannot be reached is as it was. */
  ghost predicate Evolves(a: seq<Slot>, b: seq<Slot>) {
    |a| == |b| && forall i | 0 <= i < |a| :: MayBecome(a[i], b[i])
  }

  predicate MayBecome(s: Slot, t: Slot) {
    s.key == t.key && s.reachable == t.reachable && (s == t || (s.reachable && t.value.written))
  }

  lemma {:induction false} EvolvesTwice(a: seq<Slot>, b: seq<Slot>, c: seq<Slot>)
    requires Evolves(a, b) && Evolves(b, c)
    ensures Evolves(a, c)
  {
    forall i | 0 <= i < |a| ensures MayBecome(a[i], c[i]) {
      assert MayBecome(a[i], b[i]) && MayBecome(b[i], c[i]);
    }
  }

  lemma {:induction false} WriteEvolves(slots: seq<Slot>, key: Key, text: Text)
    ensures Evolves(slots, Written(slots, key, text))
  {}

  /** Every field of the key can be written; there is at most one then. */
  ghost predicate Clear(slots: seq<Slot>, key: Key) {
    forall i | 0 <= i < |slots| && slots[i].key == key :: slots[i].reachable
  }

  ghost predicate Names(slots: seq<Slot>, key: Key) {
    exists i :: 0 <= i < |slots| && slots[i].key == key
  }

  lemma {:induction false} EvolutionKeepsNames(a: seq<Slot>, b: seq<Slot>, key: Key)
    requires Evolves(a, b)
    ensures (Names(a, key) <==> Names(b, key)) && (Clear(a, key) <==> Clear(b, key))
  {
    if Names(a, key) {
      var i :| 0 <= i < |a| && a[i].key == key;
      assert MayBecome(a[i], b[i]);
    }
    if Names(b, key) {
      var i :| 0 <= i < |b| && b[i].key == key;
      assert MayBecome(a[i], b[i]);
    }
    assert forall i | 0 <= i < |a| :: MayBecome(a[i], b[i]);
  }

  /** What the fields of a key say once written. */
  function SaidIn(slots: seq<Slot>, key: Key): Text {
    if slots == [] then []
    else (if slots[0].key == key && slots[0].value.written then slots[0].value.text else []) + SaidIn(slots[1..], key)
  }

  ghost predicate WrittenAt(slots: seq<Slot>, key: Key) {
    exists i :: 0 <= i < |slots| && slots[i].key == key && slots[i].value.written
  }

  lemma {:induction false} SaysNothing(slots: seq<Slot>, key: Key)
    requires !WrittenAt(slots, key)
    ensures SaidIn(slots, key) == []
  {
    if slots != [] {
      assert !(slots[0].key == key && slots[0].value.written);
      forall i | 0 <= i < |slots[1..]| ensures !(slots[1..][i].key == key && slots[1..][i].value.written) {
        assert slots[1..][i] == slots[i + 1];
      }
      SaysNothing(slots[1..], key);
    }
  }

  lemma {:induction false} SaysOne(slots: seq<Slot>, key: Key, i: nat)
    requires i < |slots| && slots[i].key == key && slots[i].value.written
    requires forall j | 0 <= j < |slots| && j != i :: slots[j].key != key
    ensures SaidIn(slots, key) == slots[i].value.text
  {
    var rest := slots[1..];
    if i == 0 {
      forall j | 0 <= j < |rest| ensures rest[j].key != key { assert rest[j] == slots[j + 1]; }
      SaysNothing(rest, key);
    } else {
      forall j | 0 <= j < |rest| && j != i - 1 ensures rest[j].key != key { assert rest[j] == slots[j + 1]; }
      SaysOne(rest, key, i - 1);
    }
  }

  /** A clear field that is written says the text. */
  lemma {:induction false} WrittenIsSaid(slots: seq<Slot>, key: Key, text: Text)
    requires ReachedOnce(slots) && Clear(slots, key) && Names(slots, key)
    ensures SaidIn(Written(slots, key, text), key) == text && WrittenAt(Written(slots, key, text), key)
  {
    var i :| 0 <= i < |slots| && slots[i].key == key;
    var after := Written(slots, key, text);
    assert slots[i].reachable && after[i] == Write(slots[i], key, text);
    forall j | 0 <= j < |after| && j != i ensures after[j].key != key {
      assert slots[j].reachable || slots[j].key != key;
    }
    SaysOne(after, key, i);
  }

  /** Writing one key leaves the others' fields alone. */
  lemma {:induction false} WrittenOthers(slots: seq<Slot>, key: Key, text: Text, other: Key)
    requires other != key
    ensures SaidIn(Written(slots, key, text), other) == SaidIn(slots, other)
    ensures WrittenAt(Written(slots, key, text), other) <==> WrittenAt(slots, other)
  {
    var after := Written(slots, key, text);
    forall i | 0 <= i < |slots| && slots[i].key == other ensures after[i] == slots[i] {}
    SaidSame(slots, after, other);
    if WrittenAt(slots, other) {
      var i :| 0 <= i < |slots| && slots[i].key == other && slots[i].value.written;
      assert after[i] == slots[i];
    }
    if WrittenAt(after, other) {
      var i :| 0 <= i < |after| && after[i].key == other && after[i].value.written;
      assert after[i] == slots[i];
    }
  }

  lemma {:induction false} SaidSame(a: seq<Slot>, b: seq<Slot>, key: Key)
    requires |a| == |b|
    requires forall i | 0 <= i < |a| :: a[i].key == b[i].key && (a[i].key == key ==> a[i] == b[i])
    ensures SaidIn(a, key) == SaidIn(b, key)
  {
    if a != [] {
      forall i | 0 <= i < |a[1..]|
        ensures a[1..][i].key == b[1..][i].key && (a[1..][i].key == key ==> a[1..][i] == b[1..][i])
      {
        assert a[1..][i] == a[i + 1] && b[1..][i] == b[i + 1];
      }
      SaidSame(a[1..], b[1..], key);
    }
  }
}
