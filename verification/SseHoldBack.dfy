/** Incremental, frame-aware redaction: what every run of the protocol of `SseFrames` keeps, and what a
  * finished stream says (crates/governance-redact/src/sse/mod.rs). */
module SseHoldBack {
  import opened Common
  import opened RedactEngine
  import opened SseChunk
  import opened SseFrames
  import F = FieldRedactor
  import HoldBack
  import Utf8

  // ---------- What was given for each key ----------

  function Given(heard: seq<Contribution>, key: Key): Text {
    if heard == [] then [] else (if heard[0].key == key then heard[0].text else []) + Given(heard[1..], key)
  }

  function Times(heard: seq<Contribution>, key: Key): nat {
    if heard == [] then 0 else (if heard[0].key == key then 1 else 0) + Times(heard[1..], key)
  }

  /** The text last given for the key. */
  function LastGiven(heard: seq<Contribution>, key: Key): Text
    decreases |heard|
  {
    if heard == [] then []
    else
      var last := heard[|heard| - 1];
      if last.key == key then last.text else LastGiven(heard[..|heard| - 1], key)
  }

  lemma {:induction false} GivenSnoc(heard: seq<Contribution>, c: Contribution, key: Key)
    ensures Given(heard + [c], key) == Given(heard, key) + (if c.key == key then c.text else [])
    ensures Times(heard + [c], key) == Times(heard, key) + (if c.key == key then 1 else 0)
    ensures LastGiven(heard + [c], key) == if c.key == key then c.text else LastGiven(heard, key)
  {
    assert (heard + [c])[..|heard|] == heard;
    if heard == [] {
      assert heard + [c] == [c] && [c][1..] == [];
    } else {
      assert (heard + [c])[1..] == heard[1..] + [c];
      GivenSnoc(heard[1..], c, key);
    }
  }

  // ---------- The invariant of one redactor ----------

  /** The foreign parts of one run, and the laws they are taken to obey. */
  datatype Env = Env(sc: Scanner, window: nat, D: Text -> seq<Span>, rewrite: (Entity, Text) -> Text, lookahead: nat)

  ghost predicate LawfulEnv(env: Env) {
    LawfulScanner(env.sc, env.D, env.rewrite, env.lookahead) && env.lookahead <= env.window
  }

  /** Said so far, plus the redaction of what is held and of anything that may follow, is the
    * redaction of all that was given and of anything that may follow. */
  ghost predicate FaithfulAt(env: Env, given: Text, said: Text, held: Text, count: nat, more: Text) {
    Utf8.WellFormed(more) ==> HoldBack.Carries(env.D, env.rewrite, said, count, given + more, held + more)
  }

  ghost predicate Faithful(env: Env, given: Text, said: Text, held: Text, count: nat) {
    forall more :: FaithfulAt(env, given, said, held, count, more)
  }

  lemma {:induction false} FaithfulStart(env: Env)
    ensures Faithful(env, [], [], [], 0)
  {}

  lemma {:induction false} FaithfulHears(env: Env, given: Text, said: Text, held: Text, count: nat, text: Text)
    requires Faithful(env, given, said, held, count) && Utf8.WellFormed(text)
    ensures Faithful(env, given + text, said, held + text, count)
  {
    hide Utf8.WellFormed, HoldBack.Carries;
    forall more ensures FaithfulAt(env, given + text, said, held + text, count, more) {
      if Utf8.WellFormed(more) {
        Utf8.WellFormedAppend(text, more);
        assert FaithfulAt(env, given, said, held, count, text + more);
        Assoc3(given, text, more);
        Assoc3(held, text, more);
      }
    }
  }

  lemma {:induction false} CarriesTwice(env: Env, a: Text, m: nat, b: Text, n: nat, whole: Text, mid: Text, rest: Text)
    requires HoldBack.Carries(env.D, env.rewrite, a, m, whole, mid)
    requires HoldBack.Carries(env.D, env.rewrite, b, n, mid, rest)
    ensures HoldBack.Carries(env.D, env.rewrite, a + b, m + n, whole, rest)
  {
    hide Woven, BlockingEntities;
    Assoc3(a, b, Woven(env.rewrite, rest, env.D(rest)));
  }

  lemma {:induction false} AdvanceFaithful(env: Env, q: seq<F.Piece>, redactions: nat, given: Text, said: Text)
    requires LawfulEnv(env) && F.Whole(q)
    requires F.Proceeds(F.Advance(env.sc, env.window, F.FieldOf(q, redactions), false))
    requires Faithful(env, given, said, F.Join(q), redactions)
    ensures var step := F.Advance(env.sc, env.window, F.FieldOf(q, redactions), false);
            && F.Taken(step) <= |q|
            && Faithful(env, given, said + F.Out(step), F.Join(q[F.Taken(step)..]), step.field.redactions)
  {
    hide F.Advance, F.Join, F.FieldOf, Utf8.WellFormed, HoldBack.Carries, LawfulScanner;
    var step := F.Advance(env.sc, env.window, F.FieldOf(q, redactions), false);
    F.AdvanceTakes(env.sc, env.window, q, redactions, false);
    var rest := F.Join(q[F.Taken(step)..]);
    forall more ensures FaithfulAt(env, given, said + F.Out(step), rest, step.field.redactions, more) {
      if Utf8.WellFormed(more) {
        assert FaithfulAt(env, given, said, F.Join(q), redactions, more);
        F.AdvanceCarries(env.sc, env.D, env.rewrite, env.lookahead, env.window, q, redactions, more);
        CarriesTwice(env, said, redactions, F.Out(step), step.field.redactions - redactions,
                     given + more, F.Join(q) + more, rest + more);
      }
    }
  }

  /** An occurrence that fits the window and blocks whenever it is wholly held has not begun to leave. */
  ghost predicate KeepsClearAt(env: Env, left: Text, given: Text, whole: Text, i: nat, j: nat) {
    given <= whole && HoldBack.BlocksWhenPresent(env.sc, whole, i, j) && j - i <= env.window ==> |left| <= i
  }

  ghost predicate KeepsClear(env: Env, left: Text, given: Text) {
    forall whole: Text, i: nat, j: nat :: KeepsClearAt(env, left, given, whole, i, j)
  }

  lemma {:induction false} KeepsClearHears(env: Env, left: Text, given: Text, text: Text)
    requires KeepsClear(env, left, given)
    ensures KeepsClear(env, left, given + text)
  {
    forall whole: Text, i: nat, j: nat ensures KeepsClearAt(env, left, given + text, whole, i, j) {
      assert KeepsClearAt(env, left, given, whole, i, j);
      if given + text <= whole { assert given <= given + text; }
    }
  }

  lemma {:induction false} KeepsClearLeaves(env: Env, left: Text, q: seq<F.Piece>, redactions: nat, n: nat)
    requires KeepsClear(env, left, left + F.Join(q))
    requires var step := F.Advance(env.sc, env.window, F.FieldOf(q, redactions), false);
             F.Proceeds(step) && n == F.Taken(step)
    ensures n <= |q| && KeepsClear(env, left + F.Join(q[..n]), left + F.Join(q))
  {
    hide F.FrameCut, F.Marks, F.Advance, F.Join, F.FieldOf;
    F.AdvanceTakes(env.sc, env.window, q, redactions, false);
    var given, head := left + F.Join(q), F.Join(q[..n]);
    forall whole: Text, i: nat, j: nat ensures KeepsClearAt(env, left + head, given, whole, i, j) {
      assert KeepsClearAt(env, left, given, whole, i, j);
      if n == 0 {
        F.JoinNothing(q[..n]);
      } else if given <= whole && HoldBack.BlocksWhenPresent(env.sc, whole, i, j) && j - i <= env.window {
        assert whole[|left|..|given|] == F.Join(q);
        assert |left| + |head| + env.window <= |given|;
        assert BlockingEntities(env.sc.detect(whole[|left|..|given|]).value) == {};
      }
    }
  }

  /** What holds of a redactor between the lines: it holds the rest of what was given, and what it let
    * go was scanned, head by head. */
  ghost predicate KeyInv(env: Env, field: F.Field, q: seq<F.Piece>, heads: seq<Text>, heard: seq<Contribution>, key: Key) {
    var given := Given(heard, key);
    && field == F.FieldOf(q, field.redactions)
    && F.Whole(q)
    && Concat(heads) + F.Join(q) == given
    && (given == [] ==> |q| == Times(heard, key))
    && (given != [] && env.window > 0 ==> F.Join(q) != [])
    && KeepsClear(env, Concat(heads), given)
    && (LawfulEnv(env) ==>
          && Faithful(env, given, HoldBack.Forwarded(env.sc, heads), F.Join(q), field.redactions)
          && (env.window == 0 ==> F.Join(q) == [] && (q == [] <==> Times(heard, key) == 0 || LastGiven(heard, key) != [])))
  }

  /** What a step lets go. */
  function HeadsAfter(q: seq<F.Piece>, heads: seq<Text>, step: F.Stepped): seq<Text>
    requires F.Proceeds(step)
  {
    var n := F.Taken(step);
    if 0 < n <= |q| then heads + [F.Join(q[..n])] else heads
  }

  lemma {:induction false} ForwardedSnoc(sc: Scanner, heads: seq<Text>, head: Text)
    requires sc.scan(head).Some? && !sc.scan(head).value.Blocked?
    ensures HoldBack.Forwarded(sc, heads + [head]) == HoldBack.Forwarded(sc, heads) + TextOf(sc.scan(head).value, head)
  {
    if heads == [] {
      assert heads + [head] == [head] && [head][1..] == [];
    } else {
      assert (heads + [head])[1..] == heads[1..] + [head];
      ForwardedSnoc(sc, heads[1..], head);
    }
  }

  /** The heads after a step: their texts and what the scanner made of them. */
  lemma {:induction false} HeadsGrow(sc: Scanner, window: nat, q: seq<F.Piece>, redactions: nat, final: bool, heads: seq<Text>)
    requires F.Proceeds(F.Advance(sc, window, F.FieldOf(q, redactions), final))
    ensures var step := F.Advance(sc, window, F.FieldOf(q, redactions), final);
            var n, after := F.Taken(step), HeadsAfter(q, heads, step);
            && n <= |q|
            && Concat(after) == Concat(heads) + F.Join(q[..n])
            && Concat(after) + F.Join(q[n..]) == Concat(heads) + F.Join(q)
            && HoldBack.Forwarded(sc, after) == HoldBack.Forwarded(sc, heads) + F.Out(step)
  {
    hide F.Advance, F.Join, F.FieldOf, F.FrameCut, F.Marks, Concat, HoldBack.Forwarded;
    var step := F.Advance(sc, window, F.FieldOf(q, redactions), final);
    F.AdvanceTakes(sc, window, q, redactions, final);
    var n := F.Taken(step);
    assert q == q[..n] + q[n..];
    F.JoinAppend(q[..n], q[n..]);
    Assoc3(Concat(heads), F.Join(q[..n]), F.Join(q[n..]));
    if n > 0 {
      ConcatSnoc(heads, F.Join(q[..n]));
      ForwardedSnoc(sc, heads, F.Join(q[..n]));
    } else {
      F.JoinNothing(q[..n]);
      assert Concat(heads) + [] == Concat(heads);
      assert HoldBack.Forwarded(sc, heads) + [] == HoldBack.Forwarded(sc, heads);
    }
  }

  /** What a step leaves of a queue that holds text is not empty, thanks to the window. */
  lemma {:induction false} SomethingStays(sc: Scanner, window: nat, q: seq<F.Piece>, redactions: nat)
    requires F.Proceeds(F.Advance(sc, window, F.FieldOf(q, redactions), false))
    ensures var n := F.Taken(F.Advance(sc, window, F.FieldOf(q, redactions), false));
            && n <= |q|
            && (window > 0 && F.Join(q) != [] ==> F.Join(q[n..]) != [])
            && (F.Join(q) == [] ==> n == 0)
  {
    hide F.FrameCut, F.Marks;
    F.AdvanceTakes(sc, window, q, redactions, false);
    var n := F.Taken(F.Advance(sc, window, F.FieldOf(q, redactions), false));
    assert q == q[..n] + q[n..];
    F.JoinAppend(q[..n], q[n..]);
  }

  /** Without a window every step lets go of everything, unless there is no text. */
  lemma {:induction false} NoWindowKeepsNothing(env: Env, q: seq<F.Piece>, redactions: nat)
    requires LawfulEnv(env) && env.window == 0 && F.Whole(q)
    requires F.Proceeds(F.Advance(env.sc, env.window, F.FieldOf(q, redactions), false))
    ensures F.Taken(F.Advance(env.sc, env.window, F.FieldOf(q, redactions), false)) == if F.Join(q) == [] then 0 else |q|
  {
    var field := F.FieldOf(q, redactions);
    assert F.Advance(env.sc, 0, field, false) == F.Advance(env.sc, 0, field, true);
    F.FlushTakesAll(env.sc, env.D, env.rewrite, env.lookahead, 0, q, redactions);
  }

  lemma {:induction false} WholeSnoc(q: seq<F.Piece>, p: F.Piece)
    requires F.Whole(q) && Utf8.WellFormed(p.text)
    ensures F.Whole(q + [p]) && F.Join(q + [p]) == F.Join(q) + p.text
  {
    F.JoinAppend(q, [p]);
    assert [p][1..] == [] && F.Join([p]) == p.text + F.Join([]);
    assert forall i | 0 <= i < |q| :: Utf8.WellFormed(q[i].text);
  }

  lemma {:induction false} WholeDrop(q: seq<F.Piece>, n: nat)
    requires F.Whole(q) && n <= |q|
    ensures F.Whole(q[n..])
  {
    forall i | 0 <= i < |q[n..]| ensures Utf8.WellFormed(q[n..][i].text) {
      assert q[n..][i] == q[n + i];
    }
  }

  /** The key a contribution belongs to: its redactor's invariant is kept. */
  lemma {:induction false} KeyHears(env: Env, field: F.Field, q: seq<F.Piece>, heads: seq<Text>, heard: seq<Contribution>,
                                    c: Contribution, id: nat)
    requires KeyInv(env, field, q, heads, heard, c.key) && Utf8.WellFormed(c.text)
    requires F.Proceeds(F.Advance(env.sc, env.window, F.Pushed(field, id, c.text), false))
    ensures var step := F.Advance(env.sc, env.window, F.Pushed(field, id, c.text), false);
            var q1 := q + [F.Piece(id, c.text)];
            && F.Pushed(field, id, c.text) == F.FieldOf(q1, field.redactions)
            && F.Taken(step) <= |q1|
            && KeyInv(env, step.field, q1[F.Taken(step)..], HeadsAfter(q1, heads, step), heard + [c], c.key)
  {
    hide F.Advance, F.Join, F.Marks, F.Whole, Utf8.WellFormed, Faithful, KeepsClear, LawfulScanner, Concat;
    var red, given := field.redactions, Given(heard, c.key);
    var q1 := q + [F.Piece(id, c.text)];
    F.PushedPiece(q, red, id, c.text);
    WholeSnoc(q, F.Piece(id, c.text));
    GivenSnoc(heard, c, c.key);
    var step := F.Advance(env.sc, env.window, F.FieldOf(q1, red), false);
    var n := F.Taken(step);
    F.AdvanceTakes(env.sc, env.window, q1, red, false);
    HeadsGrow(env.sc, env.window, q1, red, false, heads);
    Assoc3(Concat(heads), F.Join(q), c.text);
    SomethingStays(env.sc, env.window, q1, red);
    WholeDrop(q1, n);
    KeepsClearHears(env, Concat(heads), given, c.text);
    KeepsClearLeaves(env, Concat(heads), q1, red, n);
    assert q1[0..] == q1;
    if LawfulEnv(env) {
      FaithfulHears(env, given, HoldBack.Forwarded(env.sc, heads), F.Join(q), red, c.text);
      AdvanceFaithful(env, q1, red, given + c.text, HoldBack.Forwarded(env.sc, heads));
      if env.window == 0 {
        NoWindowKeepsNothing(env, q1, red);
        F.JoinNothing([]);
        assert q1[|q1|..] == [];
      }
    }
  }

  // ---------- The invariant of the whole ----------

  /** History: the debts outstanding, and what each redactor has let go. */
  datatype Ledger = Ledger(debts: seq<Debt>, heads: map<Key, seq<Text>>)

  const Blank := Ledger([], map[])

  function HeadsOf(g: Ledger, key: Key): seq<Text> { if key in g.heads then g.heads[key] else [] }

  function Last(frames: seq<Frame>): nat { if frames == [] then 0 else |frames| - 1 }

  function DebtsOf(id: nat, cs: seq<Contribution>): seq<Debt> {
    seq(|cs|, i requires 0 <= i < |cs| => Debt(id, cs[i].key, cs[i].text))
  }

  ghost predicate InTodo(todo: seq<Contribution>, key: Key) {
    exists i :: 0 <= i < |todo| && todo[i].key == key
  }

  ghost predicate OnceIn(todo: seq<Contribution>, key: Key) {
    forall i, j | 0 <= i < j < |todo| && todo[i].key == key :: todo[j].key != key
  }

  /** A key still to be handed over is held only for earlier frames, and not written in this one. */
  ghost predicate Unhanded(frames: seq<Frame>, q: seq<F.Piece>, todo: seq<Contribution>, key: Key) {
    && OnceIn(todo, key)
    && (InTodo(todo, key) ==>
          frames != [] && !WrittenAt(Slots(frames[|frames| - 1].chunk), key) && forall p | p in q :: p.frame < |frames| - 1)
  }

  /** For a key that every frame names clearly: the frames say what its redactor let go. */
  ghost predicate FrameInv(sc: Scanner, frames: seq<Frame>, q: seq<F.Piece>, heads: seq<Text>, todo: seq<Contribution>, key: Key) {
    ClearFrames(frames, key) ==>
      && SaidBy(frames, key) == HoldBack.Forwarded(sc, heads)
      && Rising(q) && Behind(frames, key, q) && Unhanded(frames, q, todo, key)
  }

  ghost predicate KeyPart(env: Env, st: State, g: Ledger, heard: seq<Contribution>, todo: seq<Contribution>, key: Key) {
    && KeyInv(env, FieldAt(st, key), Pieces(g.debts, key), HeadsOf(g, key), heard, key)
    && FrameInv(env.sc, st.frames, Pieces(g.debts, key), HeadsOf(g, key), todo, key)
  }

  ghost predicate Inv(env: Env, st: State, g: Ledger, heard: seq<Contribution>, todo: seq<Contribution>) {
    && (todo != [] ==> st.frames != [])
    && Books(st.frames, g.debts + DebtsOf(Last(st.frames), todo))
    && forall key :: KeyPart(env, st, g, heard, todo, key)
  }

  /** A step's payment. */
  function Settled(g: Ledger, key: Key, step: F.Stepped): Ledger
    requires F.Proceeds(step)
  {
    Ledger(PaidTimes(g.debts, key, F.Taken(step)), g.heads[key := HeadsAfter(Pieces(g.debts, key), HeadsOf(g, key), step)])
  }

  lemma {:induction false} StartInv(env: Env)
    ensures Inv(env, Start, Blank, [], [])
  {
    forall key ensures KeyPart(env, Start, Blank, [], [], key) {
      FaithfulStart(env);
      assert F.FieldOf([], 0) == F.Empty;
      assert Concat<Utf8.Byte>([]) == [];
    }
  }

  /** A step of the key's own redactor: books, frames and debts. */
  lemma {:induction false} StepOwn(sc: Scanner, window: nat, st: State, g: Ledger, todo: seq<Contribution>, key: Key,
                                   red: nat, final: bool)
    requires Books(st.frames, g.debts + DebtsOf(Last(st.frames), todo))
    requires FrameInv(sc, st.frames, Pieces(g.debts, key), HeadsOf(g, key), todo, key)
    requires ClearFrames(st.frames, key) ==> !InTodo(todo, key)
    requires Absorb(st, key, F.Advance(sc, window, F.FieldOf(Pieces(g.debts, key), red), final)).Going?
    ensures var step := F.Advance(sc, window, F.FieldOf(Pieces(g.debts, key), red), final);
            var st', g' := Absorb(st, key, step).st, Settled(g, key, step);
            && F.Proceeds(step) && F.Taken(step) <= |Pieces(g.debts, key)|
            && Books(st'.frames, g'.debts + DebtsOf(Last(st'.frames), todo)) && Still(st.frames, st'.frames)
            && FieldAt(st', key) == step.field
            && Pieces(g'.debts, key) == Pieces(g.debts, key)[F.Taken(step)..]
            && HeadsOf(g', key) == HeadsAfter(Pieces(g.debts, key), HeadsOf(g, key), step)
            && FrameInv(sc, st'.frames, Pieces(g'.debts, key), HeadsOf(g', key), todo, key)
  {
    hide F.Advance, F.FieldOf, Books, Still, Pieces, InTodo, OnceIn, Behind, Rising, ClearFrames, SaidBy, WrittenAt,
         HoldBack.Forwarded, Concat, PaidTimes;
    var q, heads := Pieces(g.debts, key), HeadsOf(g, key);
    var step := F.Advance(sc, window, F.FieldOf(q, red), final);
    F.AdvanceTakes(sc, window, q, red, final);
    HeadsGrow(sc, window, q, red, final, heads);
    var n, rest := F.Taken(step), DebtsOf(Last(st.frames), todo);
    var texts := if n == 0 then [] else Batch(step.push.value.text, n);
    if n > 0 { BatchSaysText(step.push.value.text, n); }
    ReleasePaid(st.frames, g.debts, rest, key, n, texts);
    var after := Absorb(st, key, step).st.frames;
    assert after == Apply(st.frames, key, F.FrameIds(q[..n]), texts);
    StillKeepsClear(st.frames, after, key);
    if ClearFrames(st.frames, key) {
      LeadingPieces(g.debts, rest, key);
      ReleaseSaid(st.frames, g.debts + rest, key, q, n, texts);
      if n == 0 { NothingJoined(); }
    }
  }

  lemma {:induction false} NothingJoined()
    ensures Concat<Utf8.Byte>([]) == []
  {}

  lemma {:induction false} LeadingPieces(base: seq<Debt>, rest: seq<Debt>, key: Key)
    ensures Pieces(base, key) <= Pieces(base + rest, key)
  {
    PiecesAppend(base, rest, key);
  }

  lemma {:induction false} FrameInvMoves(sc: Scanner, a: seq<Frame>, b: seq<Frame>, q: seq<F.Piece>, heads: seq<Text>,
                                         todo: seq<Contribution>, key: Key)
    requires FrameInv(sc, a, q, heads, todo, key)
    requires Still(a, b) && SaidBy(a, key) == SaidBy(b, key)
    requires forall i | 0 <= i < |a| :: WrittenAt(Slots(b[i].chunk), key) <==> WrittenAt(Slots(a[i].chunk), key)
    ensures FrameInv(sc, b, q, heads, todo, key)
  {
    hide SaidBy, WrittenAt, InTodo, OnceIn, ClearFrames, SameFrame;
    StillKeepsClear(a, b, key);
  }

  /** The same step, seen by any other key. */
  lemma {:induction false} StepOther(sc: Scanner, st: State, g: Ledger, todo: seq<Contribution>, key: Key, step: F.Stepped, other: Key)
    requires other != key && Absorb(st, key, step).Going? && F.Taken(step) <= |Pieces(g.debts, key)|
    requires Still(st.frames, Absorb(st, key, step).st.frames)
    requires FrameInv(sc, st.frames, Pieces(g.debts, other), HeadsOf(g, other), todo, other)
    ensures var st', g' := Absorb(st, key, step).st, Settled(g, key, step);
            && FieldAt(st', other) == FieldAt(st, other)
            && Pieces(g'.debts, other) == Pieces(g.debts, other) && HeadsOf(g', other) == HeadsOf(g, other)
            && FrameInv(sc, st'.frames, Pieces(g'.debts, other), HeadsOf(g', other), todo, other)
  {
    hide Pieces, PaidTimes, SaidBy, WrittenAt, FrameInv, SameFrame;
    PaidTimesOther(g.debts, key, F.Taken(step), other);
    var after := Absorb(st, key, step).st.frames;
    if step.push.value.Release? {
      ReleaseOthers(st.frames, key, step.push.value.frames, Batch(step.push.value.text, |step.push.value.frames|), other);
    }
    FrameInvMoves(sc, st.frames, after, Pieces(g.debts, other), HeadsOf(g, other), todo, other);
  }

  function WithDebt(g: Ledger, d: Debt): Ledger { g.(debts := g.debts + [d]) }

  /** Handing a field over turns it into a debt; the books do not notice. */
  lemma {:induction false} HandedBooks(frames: seq<Frame>, g: Ledger, todo: seq<Contribution>)
    requires todo != [] && Books(frames, g.debts + DebtsOf(Last(frames), todo))
    ensures Books(frames, WithDebt(g, Debt(Last(frames), todo[0].key, todo[0].text)).debts + DebtsOf(Last(frames), todo[1..]))
  {
    hide Books;
    var id := Last(frames);
    assert g.debts + DebtsOf(id, todo) == g.debts + [Debt(id, todo[0].key, todo[0].text)] + DebtsOf(id, todo[1..]);
  }

  lemma {:induction false} HandedFrame(sc: Scanner, frames: seq<Frame>, g: Ledger, todo: seq<Contribution>, key: Key)
    requires frames != [] && todo != []
    requires FrameInv(sc, frames, Pieces(g.debts, key), HeadsOf(g, key), todo, key)
    ensures var g' := WithDebt(g, Debt(Last(frames), todo[0].key, todo[0].text));
            && FrameInv(sc, frames, Pieces(g'.debts, key), HeadsOf(g', key), todo[1..], key)
            && (ClearFrames(frames, key) && todo[0].key == key ==> !InTodo(todo[1..], key))
  {
    hide SaidBy, WrittenAt, ClearFrames, Pieces;
    var d := Debt(Last(frames), todo[0].key, todo[0].text);
    PiecesSnoc(g.debts, d, key);
    var q, q', rest := Pieces(g.debts, key), Pieces(g.debts + [d], key), todo[1..];
    if ClearFrames(frames, key) {
      forall i, j | 0 <= i < j < |rest| && rest[i].key == key ensures rest[j].key != key {
        assert todo[i + 1].key == key && rest[j] == todo[j + 1];
      }
      if InTodo(rest, key) {
        var i :| 0 <= i < |rest| && rest[i].key == key;
        assert todo[i + 1].key == key;
        assert InTodo(todo, key) && todo[0].key != key;
      }
      if d.key == key {
        assert todo[0].key == key && InTodo(todo, key);
        assert forall i | 0 <= i < |q| :: q[i] in q;
        assert forall i | 0 <= i < |frames| && WrittenAt(Slots(frames[i].chunk), key) :: i < |frames| - 1;
      }
    }
  }

  lemma {:induction false} ContributeOwn(env: Env, st: State, g: Ledger, heard: seq<Contribution>, todo: seq<Contribution>)
    requires todo != [] && st.frames != [] && Utf8.WellFormed(todo[0].text)
    requires Books(st.frames, g.debts + DebtsOf(Last(st.frames), todo)) && KeyPart(env, st, g, heard, todo, todo[0].key)
    requires Contribute(env.sc, env.window, st, todo[0]).Going?
    ensures var c, id := todo[0], Last(st.frames);
            var step := F.Advance(env.sc, env.window, F.Pushed(FieldAt(st, c.key), id, c.text), false);
            var handed := WithDebt(g, Debt(id, c.key, c.text));
            var st' := Contribute(env.sc, env.window, st, c).st;
            && F.Proceeds(step) && F.Taken(step) <= |Pieces(handed.debts, c.key)|
            && Books(st'.frames, Settled(handed, c.key, step).debts + DebtsOf(Last(st'.frames), todo[1..]))
            && Still(st.frames, st'.frames)
            && KeyPart(env, st', Settled(handed, c.key, step), heard + [c], todo[1..], c.key)
  {
    hide F.Advance, F.FieldOf, Utf8.WellFormed, Books, Still, Pieces, FrameInv, InTodo, KeyInv;
    var c, rest, id := todo[0], todo[1..], Last(st.frames);
    var field := FieldAt(st, c.key);
    var handed := WithDebt(g, Debt(id, c.key, c.text));
    HandedBooks(st.frames, g, todo);
    HandedFrame(env.sc, st.frames, g, todo, c.key);
    PiecesSnoc(g.debts, Debt(id, c.key, c.text), c.key);
    KeyHears(env, field, Pieces(g.debts, c.key), HeadsOf(g, c.key), heard, c, id);
    StepOwn(env.sc, env.window, st, handed, rest, c.key, field.redactions, false);
  }

  /** One field of the last frame, handed to its redactor: everything is kept. */
  lemma {:induction false} ContributeKeeps(env: Env, st: State, g: Ledger, heard: seq<Contribution>, todo: seq<Contribution>)
    returns (g': Ledger)
    requires Inv(env, st, g, heard, todo) && todo != [] && st.frames != [] && Utf8.WellFormed(todo[0].text)
    requires Contribute(env.sc, env.window, st, todo[0]).Going?
    ensures var st' := Contribute(env.sc, env.window, st, todo[0]).st;
            Inv(env, st', g', heard + [todo[0]], todo[1..]) && Still(st.frames, st'.frames)
  {
    hide F.Advance, Utf8.WellFormed, Books, Still, Pieces, FrameInv, KeyInv;
    var c, rest, id := todo[0], todo[1..], Last(st.frames);
    var handed := WithDebt(g, Debt(id, c.key, c.text));
    assert KeyPart(env, st, g, heard, todo, c.key);
    ContributeOwn(env, st, g, heard, todo);
    var step := F.Advance(env.sc, env.window, F.Pushed(FieldAt(st, c.key), id, c.text), false);
    g' := Settled(handed, c.key, step);
    var st' := Contribute(env.sc, env.window, st, c).st;
    forall other | other != c.key ensures KeyPart(env, st', g', heard + [c], rest, other) {
      assert KeyPart(env, st, g, heard, todo, other);
      HandedFrame(env.sc, st.frames, g, todo, other);
      PiecesSnoc(g.debts, Debt(id, c.key, c.text), other);
      assert Pieces(g.debts, other) + [] == Pieces(g.debts, other);
      StepOther(env.sc, st, handed, rest, c.key, step, other);
      KeyElsewhere(env, FieldAt(st, other), Pieces(g.debts, other), HeadsOf(g, other), heard, c, other);
    }
  }

  lemma {:induction false} KeyElsewhere(env: Env, field: F.Field, q: seq<F.Piece>, heads: seq<Text>, heard: seq<Contribution>,
                                         c: Contribution, key: Key)
    requires KeyInv(env, field, q, heads, heard, key) && c.key != key
    ensures KeyInv(env, field, q, heads, heard + [c], key)
  {
    GivenSnoc(heard, c, key);
    assert Given(heard, key) + [] == Given(heard, key);
  }

  lemma {:induction false} ContributeAllKeeps(env: Env, st: State, g: Ledger, heard: seq<Contribution>, todo: seq<Contribution>)
    returns (g': Ledger)
    requires Inv(env, st, g, heard, todo) && st.frames != []
    requires forall i | 0 <= i < |todo| :: Utf8.WellFormed(todo[i].text)
    requires ContributeAll(env.sc, env.window, st, todo).Going?
    ensures var st' := ContributeAll(env.sc, env.window, st, todo).st;
            Inv(env, st', g', heard + todo, []) && Still(st.frames, st'.frames)
    decreases |todo|
  {
    hide Inv, Contribute, Utf8.WellFormed, SameFrame;
    if todo == [] {
      g' := g;
      assert heard + todo == heard;
      forall i | 0 <= i < |st.frames| ensures SameFrame(st.frames[i], st.frames[i]) { Itself(st.frames[i]); }
    } else {
      var next := Contribute(env.sc, env.window, st, todo[0]).st;
      var mid := ContributeKeeps(env, st, g, heard, todo);
      g' := ContributeAllKeeps(env, next, mid, heard + [todo[0]], todo[1..]);
      assert heard + [todo[0]] + todo[1..] == heard + todo;
      StillTwice(st.frames, next.frames, ContributeAll(env.sc, env.window, next, todo[1..]).st.frames);
    }
  }

  // ---------- Lines and frames ----------

  function ChunkOf(fmt: Format, line: Text): Chunk {
    match fmt.classify(line) case Data(chunk) => chunk case _ => []
  }

  function Heard(fmt: Format, lines: seq<Text>): seq<Contribution> {
    if lines == [] then [] else DeltaContents(ChunkOf(fmt, lines[0])) + Heard(fmt, lines[1..])
  }

  /** JSON strings are text, and nothing has been written yet. */
  ghost predicate Parsed(chunk: Chunk) {
    forall s | s in Slots(chunk) :: !s.value.written && Utf8.WellFormed(s.value.text)
  }

  ghost predicate ParsedLines(fmt: Format, lines: seq<Text>) {
    forall i | 0 <= i < |lines| :: Parsed(ChunkOf(fmt, lines[i]))
  }

  /** The frame a line becomes: itself, its scanned form, or its fields, some of them written. */
  ghost predicate Stands(fmt: Format, sc: Scanner, line: Text, f: Frame) {
    match fmt.classify(line)
    case Passthrough => f == RawFrame(line)
    case Unparseable =>
      sc.scan(line).Some? && !sc.scan(line).value.Blocked? && f == RawFrame(TextOf(sc.scan(line).value, line))
    case Data(chunk) => f.line == line && f.data && Evolves(Slots(chunk), Slots(f.chunk))
  }

  lemma {:induction false} StandsStill(fmt: Format, sc: Scanner, line: Text, f: Frame, g: Frame)
    requires Stands(fmt, sc, line, f) && SameFrame(f, g)
    ensures Stands(fmt, sc, line, g)
  {
    if fmt.classify(line).Data? {
      EvolvesTwice(Slots(fmt.classify(line).chunk), Slots(f.chunk), Slots(g.chunk));
    }
  }

  /** Line `i` is frame `from + i`. */
  ghost predicate InPlace(fmt: Format, sc: Scanner, lines: seq<Text>, frames: seq<Frame>, from: nat) {
    |frames| == from + |lines| && forall i | 0 <= i < |lines| :: Stands(fmt, sc, lines[i], frames[from + i])
  }

  lemma {:induction false} DebtsCount(id: nat, cs: seq<Contribution>, i: nat)
    ensures Count(DebtsOf(id, cs), i) == if i == id then |cs| else 0
    decreases |cs|
  {
    if cs != [] {
      assert DebtsOf(id, cs)[1..] == DebtsOf(id, cs[1..]);
      DebtsCount(id, cs[1..], i);
    }
  }

  lemma {:induction false} NoDebts(id: nat)
    ensures DebtsOf(id, []) == []
  {}

  lemma {:induction false} AddedBooks(frames: seq<Frame>, ds: seq<Debt>, f: Frame)
    requires Books(frames, ds) && f.waiting == |DeltaContents(f.chunk)|
    ensures Books(frames + [f], ds + DebtsOf(|frames|, DeltaContents(f.chunk)))
  {
    var cs, n := DeltaContents(f.chunk), |frames|;
    var added, after := DebtsOf(n, cs), frames + [f];
    var all := ds + added;
    forall i | 0 <= i < |after| ensures after[i].waiting == Count(all, i) && Accounted(after[i], i, all) {
      CountAppend(ds, added, i);
      DebtsCount(n, cs, i);
      if i < n {
        assert Accounted(frames[i], i, ds);
        forall s | s in Slots(after[i].chunk) && s.reachable && !s.value.written ensures Owed(all, i, s.key) {
          assert Owed(ds, i, s.key);
        }
      } else {
        forall d | d in ds ensures d.frame != n { assert Named(frames, d); }
        CountZeroIff(ds, n);
        forall s | s in Slots(f.chunk) && s.reachable && !s.value.written ensures Owed(all, n, s.key) {
          var j :| 0 <= j < |Slots(f.chunk)| && Slots(f.chunk)[j] == s;
          assert added[j] in all;
        }
      }
    }
    forall d | d in all ensures Named(after, d) {
      if d in ds {
        assert Named(frames, d);
      } else {
        var j :| 0 <= j < |added| && added[j] == d;
        assert Slots(f.chunk)[j].key == d.key;
      }
    }
  }

  lemma {:induction false} PieceIsOwed(ds: seq<Debt>, key: Key, p: F.Piece)
    requires p in Pieces(ds, key)
    ensures Owed(ds, p.frame, key)
  {
    if ds[0].key == key && p == F.Piece(ds[0].frame, ds[0].text) {
      assert ds[0] in ds;
    } else {
      PieceIsOwed(ds[1..], key, p);
      var d :| d in ds[1..] && d.frame == p.frame && d.key == key;
      assert d in ds;
    }
  }

  lemma {:induction false} AddedFrame(sc: Scanner, frames: seq<Frame>, ds: seq<Debt>, f: Frame, q: seq<F.Piece>, heads: seq<Text>, key: Key)
    requires Books(frames, ds) && q == Pieces(ds, key) && Parsed(f.chunk)
    requires FrameInv(sc, frames, q, heads, [], key)
    ensures FrameInv(sc, frames + [f], q, heads, DeltaContents(f.chunk), key)
  {
    hide SaidBy, Evolves, Clear, Pieces;
    var after, slots, cs := frames + [f], Slots(f.chunk), DeltaContents(f.chunk);
    if ClearFrames(after, key) {
      assert forall i | 0 <= i < |frames| :: after[i] == frames[i];
      assert Clear(slots, key) by { assert after[|frames|] == f; }
      SaidAppend(frames, [f], key);
      SaidOne(f, key);
      assert !WrittenAt(slots, key);
      SaysNothing(slots, key);
      assert SaidBy(frames, key) + [] == SaidBy(frames, key);
      forall p | p in q ensures p.frame < |frames| {
        PieceIsOwed(ds, key, p);
        var d :| d in ds && d.frame == p.frame && d.key == key;
        assert Named(frames, d);
      }
      NamedOnce(f.chunk, key);
    }
  }

  lemma {:induction false} NamedOnce(chunk: Chunk, key: Key)
    requires Clear(Slots(chunk), key)
    ensures OnceIn(DeltaContents(chunk), key)
  {
    OneFieldPerKey(chunk);
    var slots, cs := Slots(chunk), DeltaContents(chunk);
    forall i, j | 0 <= i < j < |cs| && cs[i].key == key ensures cs[j].key != key {
      assert slots[i].reachable;
      assert slots[j].reachable || slots[j].key != key;
    }
  }

  lemma {:induction false} AddFrameKeeps(env: Env, st: State, g: Ledger, heard: seq<Contribution>, f: Frame, more: nat)
    requires Inv(env, st, g, heard, []) && f.waiting == |DeltaContents(f.chunk)| && Parsed(f.chunk)
    ensures Inv(env, AddFrame(st, f).(unparsed := more), g, heard, DeltaContents(f.chunk))
  {
    hide Books, FrameInv, KeyInv, Pieces, Parsed;
    NoDebts(Last(st.frames));
    assert g.debts + [] == g.debts;
    AddedBooks(st.frames, g.debts, f);
    var st' := AddFrame(st, f).(unparsed := more);
    forall key ensures KeyPart(env, st', g, heard, DeltaContents(f.chunk), key) {
      assert KeyPart(env, st, g, heard, [], key);
      AddedFrame(env.sc, st.frames, g.debts, f, Pieces(g.debts, key), HeadsOf(g, key), key);
    }
  }

  lemma {:induction false} IngestKeeps(env: Env, fmt: Format, st: State, g: Ledger, heard: seq<Contribution>, line: Text)
    returns (g': Ledger)
    requires Inv(env, st, g, heard, []) && Parsed(ChunkOf(fmt, line))
    requires Ingest(fmt, env.sc, env.window, st, line).Going?
    ensures var st' := Ingest(fmt, env.sc, env.window, st, line).st; var n := |st.frames|;
            && Inv(env, st', g', heard + DeltaContents(ChunkOf(fmt, line)), [])
            && |st'.frames| == n + 1 && Still(st.frames, st'.frames[..n])
            && Stands(fmt, env.sc, line, st'.frames[n])
  {
    hide Inv, ContributeAll, Utf8.WellFormed, SameFrame, Evolves;
    var chunk := ChunkOf(fmt, line);
    assert Slots([]) == [] && DeltaContents([]) == [];
    assert heard + [] == heard;
    forall i | 0 <= i < |st.frames| ensures SameFrame(st.frames[i], st.frames[i]) { Itself(st.frames[i]); }
    match fmt.classify(line)
    case Passthrough =>
      AddFrameKeeps(env, st, g, heard, RawFrame(line), st.unparsed);
      g' := g;
    case Unparseable =>
      var v := env.sc.scan(line).value;
      AddFrameKeeps(env, st, g, heard, RawFrame(TextOf(v, line)), st.unparsed + CountOf(v));
      g' := g;
    case Data(_) =>
      var f, added := DataFrame(line, chunk), AddFrame(st, DataFrame(line, chunk));
      AddFrameKeeps(env, st, g, heard, f, st.unparsed);
      ContributionsWellFormed(chunk);
      g' := ContributeAllKeeps(env, added, g, heard, DeltaContents(chunk));
      var after := ContributeAll(env.sc, env.window, added, DeltaContents(chunk)).st.frames;
      assert SameFrame(added.frames[|st.frames|], after[|st.frames|]);
      EvolvesFrom(f, after[|st.frames|]);
      forall i | 0 <= i < |st.frames| ensures SameFrame(st.frames[i], after[i]) {
        assert SameFrame(added.frames[i], after[i]);
      }
  }

  lemma {:induction false} EvolvesFrom(f: Frame, g: Frame)
    requires SameFrame(f, g)
    ensures f.line == g.line && f.data == g.data && Evolves(Slots(f.chunk), Slots(g.chunk))
  {}

  lemma {:induction false} ContributionsWellFormed(chunk: Chunk)
    requires Parsed(chunk)
    ensures forall i | 0 <= i < |DeltaContents(chunk)| :: Utf8.WellFormed(DeltaContents(chunk)[i].text)
  {
    forall i | 0 <= i < |DeltaContents(chunk)| ensures Utf8.WellFormed(DeltaContents(chunk)[i].text) {
      assert Slots(chunk)[i] in Slots(chunk);
    }
  }

  lemma {:induction false} IngestAllKeeps(env: Env, fmt: Format, st: State, g: Ledger, heard: seq<Contribution>, lines: seq<Text>)
    returns (g': Ledger)
    requires Inv(env, st, g, heard, []) && ParsedLines(fmt, lines)
    requires IngestAll(fmt, env.sc, env.window, st, lines).Going?
    ensures var st' := IngestAll(fmt, env.sc, env.window, st, lines).st;
            && Inv(env, st', g', heard + Heard(fmt, lines), [])
            && InPlace(fmt, env.sc, lines, st'.frames, |st.frames|)
            && Still(st.frames, st'.frames[..|st.frames|])
    decreases |lines|
  {
    hide Inv, Ingest, Stands, SameFrame, Parsed;
    if lines == [] {
      g' := g;
      assert heard + Heard(fmt, lines) == heard;
      assert st.frames[..|st.frames|] == st.frames;
      forall i | 0 <= i < |st.frames| ensures SameFrame(st.frames[i], st.frames[i]) { Itself(st.frames[i]); }
    } else {
      var next := Ingest(fmt, env.sc, env.window, st, lines[0]).st;
      var mid := IngestKeeps(env, fmt, st, g, heard, lines[0]);
      g' := IngestAllKeeps(env, fmt, next, mid, heard + DeltaContents(ChunkOf(fmt, lines[0])), lines[1..]);
      var end := IngestAll(fmt, env.sc, env.window, next, lines[1..]).st.frames;
      var n := |st.frames|;
      Assoc3(heard, DeltaContents(ChunkOf(fmt, lines[0])), Heard(fmt, lines[1..]));
      forall i | 0 <= i < |lines| ensures Stands(fmt, env.sc, lines[i], end[n + i]) {
        if i == 0 {
          assert SameFrame(next.frames[n], end[..n + 1][n]);
          StandsStill(fmt, env.sc, lines[0], next.frames[n], end[n]);
        } else {
          assert Stands(fmt, env.sc, lines[1..][i - 1], end[n + 1 + (i - 1)]);
        }
      }
      forall i | 0 <= i < n ensures SameFrame(st.frames[i], end[..n][i]) {
        assert SameFrame(st.frames[i], next.frames[..n][i]);
        assert SameFrame(next.frames[i], end[..n + 1][i]);
        SameFrameTwice(st.frames[i], next.frames[i], end[i]);
      }
    }
  }

  // ---------- The end of the stream ----------

  /** Whether a field leaves the redactor in the end. Behind a window: some text was given. Without
    * one: the last text given was not empty. A field never given anything holds nothing up. */
  predicate Leaves(window: nat, heard: seq<Contribution>, key: Key) {
    Times(heard, key) > 0 ==> if window > 0 then Given(heard, key) != [] else LastGiven(heard, key) != []
  }

  /** The redactor has let go of all it was given, redacted as a batch scan would; what may still be
    * held is without text. */
  ghost predicate KeyDone(env: Env, field: F.Field, q: seq<F.Piece>, heads: seq<Text>, heard: seq<Contribution>, key: Key) {
    var given := Given(heard, key);
    && field == F.FieldOf(q, field.redactions) && F.Join(q) == []
    && (q == [] <==> Leaves(env.window, heard, key))
    && HoldBack.Forwarded(env.sc, heads) == Woven(env.rewrite, given, env.D(given))
    && field.redactions == |env.D(given)|
    && BlockingEntities(env.D(given)) == {}
  }

  lemma {:induction false} NothingMore(env: Env, given: Text, said: Text, held: Text, count: nat)
    requires Faithful(env, given, said, held, count)
    ensures HoldBack.Carries(env.D, env.rewrite, said, count, given, held)
  {
    hide HoldBack.Carries;
    Utf8.EmptyIsWellFormed();
    assert FaithfulAt(env, given, said, held, count, []);
    assert given + [] == given && held + [] == held;
  }

  /** A last step leaves the key done. */
  lemma {:induction false} FlushedIsDone(env: Env, field: F.Field, q: seq<F.Piece>, heads: seq<Text>, heard: seq<Contribution>, key: Key)
    requires LawfulEnv(env) && KeyInv(env, field, q, heads, heard, key)
    requires F.Proceeds(F.Advance(env.sc, env.window, field, true))
    ensures var step := F.Advance(env.sc, env.window, field, true);
            && F.Taken(step) <= |q|
            && KeyDone(env, step.field, q[F.Taken(step)..], HeadsAfter(q, heads, step), heard, key)
  {
    hide F.Advance, F.Marks, F.Whole, Woven, LawfulScanner, Faithful, KeepsClear, Concat;
    var red := field.redactions;
    var step := F.Advance(env.sc, env.window, field, true);
    F.AdvanceTakes(env.sc, env.window, q, red, true);
    F.FlushTakesAll(env.sc, env.D, env.rewrite, env.lookahead, env.window, q, red);
    HeadsGrow(env.sc, env.window, q, red, true, heads);
    NothingMore(env, Given(heard, key), HoldBack.Forwarded(env.sc, heads), F.Join(q), red);
    assert q[0..] == q && q[|q|..] == [];
    F.JoinNothing([]);
    NothingOnly(heads, q);
    if Times(heard, key) == 0 { NeverGiven(heard, key); }
  }

  lemma {:induction false} NothingOnly(heads: seq<Text>, q: seq<F.Piece>)
    ensures F.Join(q) != [] ==> Concat(heads) + F.Join(q) != []
  {}

  lemma {:induction false} NeverGiven(heard: seq<Contribution>, key: Key)
    requires Times(heard, key) == 0
    ensures Given(heard, key) == []
  {
    if heard != [] { NeverGiven(heard[1..], key); }
  }

  /** A key with no redactor has nothing to flush. */
  lemma {:induction false} IdleIsDone(env: Env, q: seq<F.Piece>, heads: seq<Text>, heard: seq<Contribution>, key: Key)
    requires LawfulEnv(env) && KeyInv(env, F.Empty, q, heads, heard, key)
    ensures KeyDone(env, F.Empty, q, heads, heard, key)
  {
    hide F.Whole, Woven, Faithful, KeepsClear, LawfulScanner;
    F.MarksShape(q, 0);
    assert q == [];
    F.JoinNothing(q);
    NothingMore(env, Given(heard, key), HoldBack.Forwarded(env.sc, heads), F.Join(q), 0);
    F.ScannerLaws(env.sc, env.D, env.rewrite, env.lookahead, []);
    F.NothingIsNothing(env.D, env.rewrite);
    assert HoldBack.Forwarded(env.sc, heads) + [] == HoldBack.Forwarded(env.sc, heads);
    if Times(heard, key) == 0 { NeverGiven(heard, key); }
  }

  /** The books and the frames, without what was given: all that flushing needs. */
  ghost predicate Ledgered(sc: Scanner, st: State, g: Ledger) {
    Books(st.frames, g.debts) && forall key :: LedgeredAt(sc, st, g, key)
  }

  ghost predicate LedgeredAt(sc: Scanner, st: State, g: Ledger, key: Key) {
    && FieldAt(st, key) == F.FieldOf(Pieces(g.debts, key), FieldAt(st, key).redactions)
    && FrameInv(sc, st.frames, Pieces(g.debts, key), HeadsOf(g, key), [], key)
  }

  ghost predicate KeyInvAt(env: Env, st: State, g: Ledger, heard: seq<Contribution>, key: Key) {
    KeyInv(env, FieldAt(st, key), Pieces(g.debts, key), HeadsOf(g, key), heard, key)
  }

  ghost predicate KeyDoneAt(env: Env, st: State, g: Ledger, heard: seq<Contribution>, key: Key) {
    KeyDone(env, FieldAt(st, key), Pieces(g.debts, key), HeadsOf(g, key), heard, key)
  }

  lemma {:induction false} InvIsLedgered(env: Env, st: State, g: Ledger, heard: seq<Contribution>)
    requires Inv(env, st, g, heard, [])
    ensures Ledgered(env.sc, st, g) && forall key :: KeyInvAt(env, st, g, heard, key)
  {
    hide Books, FrameInv;
    NoDebts(Last(st.frames));
    assert g.debts + [] == g.debts;
    forall key ensures LedgeredAt(env.sc, st, g, key) && KeyInvAt(env, st, g, heard, key) {
      assert KeyPart(env, st, g, heard, [], key);
    }
  }

  /** Nothing about the key differs. */
  ghost predicate SameKey(st: State, g: Ledger, st': State, g': Ledger, key: Key) {
    FieldAt(st', key) == FieldAt(st, key) && Pieces(g'.debts, key) == Pieces(g.debts, key) && HeadsOf(g', key) == HeadsOf(g, key)
  }

  /** One final step of one redactor, whatever the scanner. */
  lemma {:induction false} FlushStepKeeps(env: Env, st: State, g: Ledger, heard: seq<Contribution>, key: Key) returns (g': Ledger)
    requires Ledgered(env.sc, st, g)
    requires Absorb(st, key, F.Advance(env.sc, env.window, FieldAt(st, key), true)).Going?
    ensures var st' := Absorb(st, key, F.Advance(env.sc, env.window, FieldAt(st, key), true)).st;
            && Ledgered(env.sc, st', g') && Still(st.frames, st'.frames)
            && (forall other | other != key :: SameKey(st, g, st', g', other))
            && (LawfulEnv(env) && (KeyInvAt(env, st, g, heard, key) || KeyDoneAt(env, st, g, heard, key)) ==>
                  KeyDoneAt(env, st', g', heard, key))
  {
    hide F.Advance, F.FieldOf, Books, Still, Pieces, FrameInv, KeyInv, LawfulEnv;
    var field := FieldAt(st, key);
    var step := F.Advance(env.sc, env.window, field, true);
    assert LedgeredAt(env.sc, st, g, key);
    NoDebts(Last(st.frames));
    assert g.debts + [] == g.debts && !InTodo([], key);
    StepOwn(env.sc, env.window, st, g, [], key, field.redactions, true);
    g' := Settled(g, key, step);
    var st' := Absorb(st, key, step).st;
    NoDebts(Last(st'.frames));
    assert g'.debts + [] == g'.debts;
    F.AdvanceTakes(env.sc, env.window, Pieces(g.debts, key), field.redactions, true);
    forall other | other != key ensures SameKey(st, g, st', g', other) && LedgeredAt(env.sc, st', g', other) {
      assert LedgeredAt(env.sc, st, g, other);
      StepOther(env.sc, st, g, [], key, step, other);
    }
    if LawfulEnv(env) {
      if KeyInvAt(env, st, g, heard, key) {
        FlushedIsDone(env, field, Pieces(g.debts, key), HeadsOf(g, key), heard, key);
      } else if KeyDoneAt(env, st, g, heard, key) {
        DoneIsEmpty(env, field, Pieces(g.debts, key), HeadsOf(g, key), heard, key);
        NothingToFlush(env.sc, env.window, field);
        assert Pieces(g.debts, key)[0..] == Pieces(g.debts, key);
      }
    }
  }

  lemma {:induction false} DoneIsEmpty(env: Env, field: F.Field, q: seq<F.Piece>, heads: seq<Text>, heard: seq<Contribution>, key: Key)
    requires KeyDone(env, field, q, heads, heard, key)
    ensures field.pending == []
  {}

  lemma {:induction false} NothingToFlush(sc: Scanner, window: nat, field: F.Field)
    requires field.pending == []
    ensures F.Advance(sc, window, field, true) == F.Stepped(field, Some(F.Nothing))
  {}

  lemma {:induction false} FlushKeyKeeps(env: Env, st: State, g: Ledger, heard: seq<Contribution>, key: Key) returns (g': Ledger)
    requires Ledgered(env.sc, st, g) && FlushKey(env.sc, env.window, st, key).Going?
    ensures var st' := FlushKey(env.sc, env.window, st, key).st;
            && Ledgered(env.sc, st', g') && Still(st.frames, st'.frames)
            && (forall other | other != key :: SameKey(st, g, st', g', other))
            && (LawfulEnv(env) && (KeyInvAt(env, st, g, heard, key) || KeyDoneAt(env, st, g, heard, key)) ==>
                  KeyDoneAt(env, st', g', heard, key))
    decreases |FieldAt(st, key).pending|
  {
    hide F.Advance, Ledgered, Still, LawfulEnv, KeyInvAt, KeyDoneAt;
    var step := F.Advance(env.sc, env.window, FieldAt(st, key), true);
    g' := FlushStepKeeps(env, st, g, heard, key);
    if step.push.value.Release? {
      var mid, next := g', Absorb(st, key, step).st;
      g' := FlushKeyKeeps(env, next, mid, heard, key);
      var end := FlushKey(env.sc, env.window, next, key).st;
      StillTwice(st.frames, next.frames, end.frames);
      forall other | other != key ensures SameKey(st, g, end, g', other) {
        assert SameKey(st, g, next, mid, other) && SameKey(next, mid, end, g', other);
      }
    }
  }

  /** Flushing the redactors, in whatever order. */
  lemma {:induction false} FlushAllKeeps(env: Env, st: State, g: Ledger, heard: seq<Contribution>, keys: seq<Key>) returns (g': Ledger)
    requires Ledgered(env.sc, st, g) && FlushAll(env.sc, env.window, st, keys).Going?
    ensures var st' := FlushAll(env.sc, env.window, st, keys).st;
            && Ledgered(env.sc, st', g') && Still(st.frames, st'.frames)
            && (LawfulEnv(env) ==> forall key ::
                  KeyDoneAt(env, st, g, heard, key) || (key in keys && KeyInvAt(env, st, g, heard, key)) ==>
                  KeyDoneAt(env, st', g', heard, key))
    decreases |keys|
  {
    hide FlushKey, Ledgered, SameFrame, LawfulEnv, KeyInv, KeyDone, Pieces;
    if keys == [] {
      g' := g;
      forall i | 0 <= i < |st.frames| ensures SameFrame(st.frames[i], st.frames[i]) { Itself(st.frames[i]); }
    } else {
      var next := FlushKey(env.sc, env.window, st, keys[0]).st;
      var mid := FlushKeyKeeps(env, st, g, heard, keys[0]);
      g' := FlushAllKeeps(env, next, mid, heard, keys[1..]);
      StillTwice(st.frames, next.frames, FlushAll(env.sc, env.window, next, keys[1..]).st.frames);
      assert keys == [keys[0]] + keys[1..];
      forall key | LawfulEnv(env) && (KeyDoneAt(env, st, g, heard, key) || (key in keys && KeyInvAt(env, st, g, heard, key)))
        ensures KeyDoneAt(env, next, mid, heard, key) || (key in keys[1..] && KeyInvAt(env, next, mid, heard, key))
      {
        if key != keys[0] { assert SameKey(st, g, next, mid, key); }
      }
    }
  }

  /** A whole stream: every line, then a flush of every key that has a redactor. */
  function Whole(fmt: Format, sc: Scanner, window: nat, lines: seq<Text>, keys: seq<Key>): Outcome {
    var fed := IngestAll(fmt, sc, window, Start, lines);
    if fed.Going? then FlushAll(sc, window, fed.st, keys) else fed
  }

  /** `keys` lists the redactors there are when the lines are in. */
  ghost predicate ListsRedactors(fmt: Format, sc: Scanner, window: nat, lines: seq<Text>, keys: seq<Key>) {
    var fed := IngestAll(fmt, sc, window, Start, lines);
    fed.Going? ==> forall key :: key in fed.st.fields <==> key in keys
  }

  /** Where a stream that finished stands. */
  lemma {:induction false} Finishes(env: Env, fmt: Format, lines: seq<Text>, keys: seq<Key>) returns (g: Ledger)
    requires ParsedLines(fmt, lines) && ListsRedactors(fmt, env.sc, env.window, lines, keys)
    requires Whole(fmt, env.sc, env.window, lines, keys).Going?
    ensures var st := Whole(fmt, env.sc, env.window, lines, keys).st;
            && Ledgered(env.sc, st, g) && InPlace(fmt, env.sc, lines, st.frames, 0)
            && (LawfulEnv(env) ==> forall key :: KeyDoneAt(env, st, g, Heard(fmt, lines), key))
  {
    hide KeyInv, KeyDone, LawfulEnv, IngestAll, FlushAll, Stands, ParsedLines, Ledgered, Inv, Pieces;
    StartInv(env);
    var fedLedger := IngestAllKeeps(env, fmt, Start, Blank, [], lines);
    var fed, heard := IngestAll(fmt, env.sc, env.window, Start, lines).st, Heard(fmt, lines);
    assert [] + heard == heard;
    InvIsLedgered(env, fed, fedLedger, heard);
    g := FlushAllKeeps(env, fed, fedLedger, heard, keys);
    forall key | LawfulEnv(env)
      ensures KeyDoneAt(env, fed, fedLedger, heard, key) || (key in keys && KeyInvAt(env, fed, fedLedger, heard, key))
    {
      assert KeyInvAt(env, fed, fedLedger, heard, key);
      assert key in fed.fields <==> key in keys;
      if key !in keys { IdleIsDone(env, Pieces(fedLedger.debts, key), HeadsOf(fedLedger, key), heard, key); }
    }
    var frames := FlushAll(env.sc, env.window, fed, keys).st.frames;
    forall i | 0 <= i < |lines| ensures Stands(fmt, env.sc, lines[i], frames[0 + i]) {
      assert Stands(fmt, env.sc, lines[i], fed.frames[0 + i]) && SameFrame(fed.frames[i], frames[i]);
      StandsStill(fmt, env.sc, lines[i], fed.frames[i], frames[i]);
    }
  }

  // ---------- Main results ----------

  /** No line of the stream names the key where a write would not reach it. */
  ghost predicate ClearLines(fmt: Format, lines: seq<Text>, key: Key) {
    forall i | 0 <= i < |lines| :: Clear(Slots(ChunkOf(fmt, lines[i])), key)
  }

  lemma {:induction false} ClearLinesClearFrames(fmt: Format, sc: Scanner, lines: seq<Text>, frames: seq<Frame>, key: Key)
    requires InPlace(fmt, sc, lines, frames, 0) && ClearLines(fmt, lines, key)
    ensures ClearFrames(frames, key)
  {
    hide Evolves, Clear;
    forall i | 0 <= i < |frames| ensures Clear(Slots(frames[i].chunk), key) {
      assert Stands(fmt, sc, lines[i], frames[0 + i]) && Clear(Slots(ChunkOf(fmt, lines[i])), key);
      if fmt.classify(lines[i]).Data? {
        EvolutionKeepsNames(Slots(ChunkOf(fmt, lines[i])), Slots(frames[i].chunk), key);
      } else {
        assert frames[i].chunk == ChunkOf(fmt, lines[i]);
      }
    }
  }

  /** Streaming a completion refines the batch scan, field by field, and keeps every line's place: what
    * the frames say for a field is the batch redaction of all it was given, with its count. */
  lemma {:induction false} EveryFieldRefinesBatch(env: Env, fmt: Format, lines: seq<Text>, keys: seq<Key>, key: Key)
    requires LawfulEnv(env) && ParsedLines(fmt, lines) && ListsRedactors(fmt, env.sc, env.window, lines, keys)
    requires Whole(fmt, env.sc, env.window, lines, keys).Going? && ClearLines(fmt, lines, key)
    ensures var st := Whole(fmt, env.sc, env.window, lines, keys).st; var given := Given(Heard(fmt, lines), key);
            && SaidBy(st.frames, key) == Woven(env.rewrite, given, env.D(given))
            && FieldAt(st, key).redactions == |env.D(given)|
            && BlockingEntities(env.D(given)) == {}
            && InPlace(fmt, env.sc, lines, st.frames, 0)
  {
    hide Whole, LawfulEnv, ListsRedactors, InPlace, SaidBy, Woven, BlockingEntities, HoldBack.Forwarded, Pieces;
    var g := Finishes(env, fmt, lines, keys);
    var st := Whole(fmt, env.sc, env.window, lines, keys).st;
    assert KeyDoneAt(env, st, g, Heard(fmt, lines), key) && LedgeredAt(env.sc, st, g, key);
    ClearLinesClearFrames(fmt, env.sc, lines, st.frames, key);
  }

  lemma {:induction false} GivenWellFormed(heard: seq<Contribution>, key: Key)
    requires forall i | 0 <= i < |heard| :: Utf8.WellFormed(heard[i].text)
    ensures Utf8.WellFormed(Given(heard, key))
  {
    hide Utf8.WellFormed;
    Utf8.EmptyIsWellFormed();
    if heard != [] {
      assert Utf8.WellFormed(heard[0].text);
      GivenWellFormed(heard[1..], key);
      Utf8.WellFormedAppend(if heard[0].key == key then heard[0].text else [], Given(heard[1..], key));
    }
  }

  lemma {:induction false} HeardWellFormed(fmt: Format, lines: seq<Text>)
    requires ParsedLines(fmt, lines)
    ensures forall i | 0 <= i < |Heard(fmt, lines)| :: Utf8.WellFormed(Heard(fmt, lines)[i].text)
  {
    hide Parsed;
    if lines != [] {
      assert Parsed(ChunkOf(fmt, lines[0]));
      ContributionsWellFormed(ChunkOf(fmt, lines[0]));
      forall i | 0 <= i < |lines[1..]| ensures Parsed(ChunkOf(fmt, lines[1..][i])) {
        assert lines[1..][i] == lines[i + 1];
      }
      HeardWellFormed(fmt, lines[1..]);
    }
  }

  /** In the scanner's own terms: a batch scan of all a field was given would not have blocked, and
    * forwards exactly the text, with the count, that the frames say. */
  lemma {:induction false} FieldsSayTheBatchScan(env: Env, fmt: Format, lines: seq<Text>, keys: seq<Key>, key: Key)
    requires LawfulEnv(env) && ParsedLines(fmt, lines) && ListsRedactors(fmt, env.sc, env.window, lines, keys)
    requires Whole(fmt, env.sc, env.window, lines, keys).Going? && ClearLines(fmt, lines, key)
    requires env.sc.scan(Given(Heard(fmt, lines), key)).Some?
    ensures var st := Whole(fmt, env.sc, env.window, lines, keys).st;
            var given := Given(Heard(fmt, lines), key);
            var batch := env.sc.scan(given).value;
            && !batch.Blocked?
            && SaidBy(st.frames, key) == TextOf(batch, given)
            && FieldAt(st, key).redactions == CountOf(batch)
  {
    hide Whole, ListsRedactors, Woven, BlockingEntities, SaidBy;
    var given := Given(Heard(fmt, lines), key);
    EveryFieldRefinesBatch(env, fmt, lines, keys, key);
    HeardWellFormed(fmt, lines);
    GivenWellFormed(Heard(fmt, lines), key);
    F.ScannerLaws(env.sc, env.D, env.rewrite, env.lookahead, given);
  }

  predicate Ready(f: Frame) { f.waiting == 0 }

  ghost predicate AllReady(frames: seq<Frame>) { forall i | 0 <= i < |frames| :: Ready(frames[i]) }

  /** No field holds its frames back for ever. */
  ghost predicate NoneMute(window: nat, heard: seq<Contribution>) { forall key :: Leaves(window, heard, key) }

  lemma {:induction false} ReadyIffNothingOwed(frames: seq<Frame>, ds: seq<Debt>)
    requires Books(frames, ds)
    ensures AllReady(frames) <==> ds == []
  {
    if ds != [] {
      assert ds[0] in ds && Named(frames, ds[0]);
      CountZeroIff(ds, ds[0].frame);
      assert !Ready(frames[ds[0].frame]);
    }
  }

  predicate NothingHeld(g: Ledger, key: Key) { Pieces(g.debts, key) == [] }

  lemma {:induction false} NothingOwedIff(g: Ledger)
    ensures g.debts == [] <==> forall key :: NothingHeld(g, key)
  {
    if g.debts != [] { assert !NothingHeld(g, g.debts[0].key); }
  }

  /** Every line leaves, if and only if no field is mute: given no text at all or, without a window,
    * nothing but empty text since its last release. Such a field stays unsettled, and its frame holds
    * back everything behind it. */
  lemma {:induction false} EveryLineLeavesIff(env: Env, fmt: Format, lines: seq<Text>, keys: seq<Key>)
    requires LawfulEnv(env) && ParsedLines(fmt, lines) && ListsRedactors(fmt, env.sc, env.window, lines, keys)
    requires Whole(fmt, env.sc, env.window, lines, keys).Going?
    ensures AllReady(Whole(fmt, env.sc, env.window, lines, keys).st.frames) <==> NoneMute(env.window, Heard(fmt, lines))
  {
    hide Whole, LawfulEnv, ListsRedactors, Ready, Leaves, Pieces, Woven, FrameInv;
    var g := Finishes(env, fmt, lines, keys);
    var st, heard := Whole(fmt, env.sc, env.window, lines, keys).st, Heard(fmt, lines);
    ReadyIffNothingOwed(st.frames, g.debts);
    NothingOwedIff(g);
    forall key ensures NothingHeld(g, key) <==> Leaves(env.window, heard, key) {
      assert KeyDoneAt(env, st, g, heard, key);
    }
    if NoneMute(env.window, heard) {
      forall key ensures NothingHeld(g, key) { assert Leaves(env.window, heard, key); }
    }
  }

  // ---------- Fields a write does not reach ----------

  ghost predicate AllReachable(chunk: Chunk) { forall s | s in Slots(chunk) :: s.reachable }

  /** Every field of the frame holds text that its redactor released. */
  ghost predicate AllWritten(f: Frame) { forall s | s in Slots(f.chunk) :: s.value.written }

  /** A field named twice is not reachable both times. */
  lemma {:induction false} NamedTwiceIsUnreachable(chunk: Chunk, i: nat, j: nat)
    requires i < j < |Slots(chunk)| && Slots(chunk)[i].key == Slots(chunk)[j].key
    ensures !AllReachable(chunk)
  {
    OneFieldPerKey(chunk);
    var slots := Slots(chunk);
    assert slots[i] in slots && slots[j] in slots;
  }

  /** A frame that may leave holds nothing but released text if and only if a write reaches every field
    * its line names: no choice repeats the index of an earlier one, and no tool call that of an earlier
    * call of its choice. */
  lemma {:induction false} WrittenIff(fmt: Format, sc: Scanner, line: Text, f: Frame, id: nat, ds: seq<Debt>)
    requires Stands(fmt, sc, line, f) && Accounted(f, id, ds) && Count(ds, id) == 0 && Parsed(ChunkOf(fmt, line))
    ensures AllWritten(f) <==> AllReachable(ChunkOf(fmt, line))
  {
    var before, after := Slots(ChunkOf(fmt, line)), Slots(f.chunk);
    assert Evolves(before, after);
    CountZeroIff(ds, id);
    if AllWritten(f) {
      forall s | s in before ensures s.reachable {
        var i :| 0 <= i < |before| && before[i] == s;
        assert MayBecome(before[i], after[i]) && after[i] in after;
      }
    }
    if AllReachable(ChunkOf(fmt, line)) {
      forall s | s in after ensures s.value.written {
        var i :| 0 <= i < |after| && after[i] == s;
        assert before[i] in before && MayBecome(before[i], after[i]);
        assert !s.value.written ==> Owed(ds, id, s.key);
      }
    }
  }

  /** A field that a write does not reach leaves as it came. */
  lemma {:induction false} UnreachableLeavesAsItCame(fmt: Format, sc: Scanner, line: Text, f: Frame, i: nat)
    requires Stands(fmt, sc, line, f)
    requires i < |Slots(ChunkOf(fmt, line))| && !Slots(ChunkOf(fmt, line))[i].reachable
    ensures i < |Slots(f.chunk)| && Slots(f.chunk)[i] == Slots(ChunkOf(fmt, line))[i]
  {
    assert MayBecome(Slots(ChunkOf(fmt, line))[i], Slots(f.chunk)[i]);
  }

  /** At any point of any stream, whatever the scanner: the frames that may leave are safe exactly where
    * their lines are. */
  lemma {:induction false} SentIsRedactedIff(env: Env, fmt: Format, lines: seq<Text>, i: nat)
    requires ParsedLines(fmt, lines) && i < |lines|
    requires IngestAll(fmt, env.sc, env.window, Start, lines).Going?
    ensures var frames := IngestAll(fmt, env.sc, env.window, Start, lines).st.frames;
            && |frames| == |lines|
            && (Ready(frames[i]) ==> (AllWritten(frames[i]) <==> AllReachable(ChunkOf(fmt, lines[i]))))
  {
    hide Inv, IngestAll, Stands, Parsed, Books, AllWritten, AllReachable, Evolves;
    StartInv(env);
    var g := IngestAllKeeps(env, fmt, Start, Blank, [], lines);
    var st := IngestAll(fmt, env.sc, env.window, Start, lines).st;
    assert [] + Heard(fmt, lines) == Heard(fmt, lines);
    InvIsLedgered(env, st, g, Heard(fmt, lines));
    LedgerWrittenIff(env.sc, fmt, st, g, lines, i);
  }

  lemma {:induction false} LedgerWrittenIff(sc: Scanner, fmt: Format, st: State, g: Ledger, lines: seq<Text>, i: nat)
    requires Ledgered(sc, st, g) && InPlace(fmt, sc, lines, st.frames, 0) && ParsedLines(fmt, lines) && i < |lines|
    ensures Ready(st.frames[i]) ==> (AllWritten(st.frames[i]) <==> AllReachable(ChunkOf(fmt, lines[i])))
  {
    hide AllWritten, AllReachable, Stands, Parsed;
    assert Stands(fmt, sc, lines[i], st.frames[0 + i]) && Accounted(st.frames[i], i, g.debts);
    if Ready(st.frames[i]) { WrittenIff(fmt, sc, lines[i], st.frames[i], i, g.debts); }
  }

  /** A chunk with two choices of the same index, as one without indexes reads. */
  function TwoContents(a: Text, b: Text): Chunk {
    [Choice(0, Some(Value(a, false)), []), Choice(0, Some(Value(b, false)), [])]
  }

  lemma {:induction false} TwoContentsSlots(a: Text, b: Text)
    ensures var key := Key(0, Content);
            Slots(TwoContents(a, b)) == [Slot(key, Value(a, false), true), Slot(key, Value(b, false), false)]
  {
    var first, second := Choice(0, Some(Value(a, false)), []), Choice(0, Some(Value(b, false)), []);
    assert TwoContents(a, b)[1..] == [second] && [second][1..] == [];
    assert ChoiceSlots(first, true) == [Slot(Key(0, Content), Value(a, false), true)];
    assert ChoiceSlots(second, false) == [Slot(Key(0, Content), Value(b, false), false)];
    assert SlotsFrom([second], {0}) == ChoiceSlots(second, false) + SlotsFrom([], {0} + {0});
    assert {} + {0} == {0};
    assert Slots(TwoContents(a, b)) == ChoiceSlots(first, true) + SlotsFrom([second], {0});
  }

  lemma {:induction false} TwoContentsHeard(fmt: Format, line: Text, a: Text, b: Text, window: nat)
    requires fmt.classify(line) == Data(TwoContents(a, b)) && window > 0 && a + b != []
    ensures NoneMute(window, Heard(fmt, [line]))
  {
    var key := Key(0, Content);
    var cs := [Contribution(key, a), Contribution(key, b)];
    TwoContentsSlots(a, b);
    assert DeltaContents(TwoContents(a, b)) == cs;
    assert [line][1..] == [] && Heard(fmt, []) == [];
    assert Heard(fmt, [line]) == DeltaContents(ChunkOf(fmt, line)) + [] == cs;
    assert cs[1..] == [cs[1]] && [cs[1]][1..] == [];
    forall other ensures Leaves(window, cs, other) {
      assert Given(cs, key) == a + Given([cs[1]], key) && Given([cs[1]], key) == b + [] == b;
      if other != key { assert Times(cs, other) == Times([cs[1]], other) == 0; }
    }
  }

  /** The failing case, under every lawful scanner that lets the stream finish: both texts go to the
    * same redactor, the frame becomes ready, and the second text stands in it as it came. */
  lemma {:induction false} NamedTwiceLeavesUnredacted(env: Env, fmt: Format, line: Text, a: Text, b: Text)
    requires LawfulEnv(env) && env.window > 0 && a + b != [] && Utf8.WellFormed(a) && Utf8.WellFormed(b)
    requires fmt.classify(line) == Data(TwoContents(a, b))
    requires Whole(fmt, env.sc, env.window, [line], [Key(0, Content)]).Going?
    requires ListsRedactors(fmt, env.sc, env.window, [line], [Key(0, Content)])
    ensures var frames := Whole(fmt, env.sc, env.window, [line], [Key(0, Content)]).st.frames;
            && |frames| == 1 && Ready(frames[0]) && |Slots(frames[0].chunk)| == 2
            && Slots(frames[0].chunk)[1] == Slot(Key(0, Content), Value(b, false), false)
            && !AllWritten(frames[0])
  {
    hide Whole, LawfulEnv, ListsRedactors, Slots, Ledgered, KeyDoneAt, Evolves, NoneMute;
    var lines, keys := [line], [Key(0, Content)];
    TwoContentsSlots(a, b);
    assert ChunkOf(fmt, line) == TwoContents(a, b);
    assert ParsedLines(fmt, lines);
    var g := Finishes(env, fmt, lines, keys);
    var frames := Whole(fmt, env.sc, env.window, lines, keys).st.frames;
    assert Stands(fmt, env.sc, lines[0], frames[0 + 0]);
    UnreachableLeavesAsItCame(fmt, env.sc, line, frames[0], 1);
    assert |Slots(frames[0].chunk)| == 2 by { SlotCount(fmt, env.sc, line, frames[0]); }
    EveryLineLeavesIff(env, fmt, lines, keys);
    TwoContentsHeard(fmt, line, a, b, env.window);
    assert AllReady(frames);
    assert Slots(frames[0].chunk)[1] in Slots(frames[0].chunk);
  }

  lemma {:induction false} SlotCount(fmt: Format, sc: Scanner, line: Text, f: Frame)
    requires Stands(fmt, sc, line, f) && fmt.classify(line).Data?
    ensures |Slots(f.chunk)| == |Slots(ChunkOf(fmt, line))|
  {}

  // ---------- What was rewritten outside the fields ----------

  /** What the scanner counts in the lines that are no chunks it can read. */
  function RewrittenIn(fmt: Format, sc: Scanner, lines: seq<Text>): nat {
    if lines == [] then 0
    else
      (if fmt.classify(lines[0]).Unparseable? && sc.scan(lines[0]).Some? then CountOf(sc.scan(lines[0]).value) else 0)
      + RewrittenIn(fmt, sc, lines[1..])
  }

  lemma {:induction false} ContributeAllCounts(sc: Scanner, window: nat, st: State, cs: seq<Contribution>)
    requires st.frames != [] && ContributeAll(sc, window, st, cs).Going?
    ensures ContributeAll(sc, window, st, cs).st.unparsed == st.unparsed
    decreases |cs|
  {
    hide F.Advance, Apply;
    if cs != [] { ContributeAllCounts(sc, window, Contribute(sc, window, st, cs[0]).st, cs[1..]); }
  }

  lemma {:induction false} IngestAllCounts(fmt: Format, sc: Scanner, window: nat, st: State, lines: seq<Text>)
    requires IngestAll(fmt, sc, window, st, lines).Going?
    ensures IngestAll(fmt, sc, window, st, lines).st.unparsed == st.unparsed + RewrittenIn(fmt, sc, lines)
    decreases |lines|
  {
    hide ContributeAll;
    if lines != [] {
      var line := lines[0];
      if fmt.classify(line).Data? {
        var added := AddFrame(st, DataFrame(line, fmt.classify(line).chunk));
        ContributeAllCounts(sc, window, added, DeltaContents(fmt.classify(line).chunk));
      }
      IngestAllCounts(fmt, sc, window, Ingest(fmt, sc, window, st, line).st, lines[1..]);
    }
  }

  lemma {:induction false} FlushKeyCounts(sc: Scanner, window: nat, st: State, key: Key)
    requires FlushKey(sc, window, st, key).Going?
    ensures FlushKey(sc, window, st, key).st.unparsed == st.unparsed
    decreases |FieldAt(st, key).pending|
  {
    hide F.Advance, Apply;
    var step := F.Advance(sc, window, FieldAt(st, key), true);
    var next := Absorb(st, key, step);
    if next.Going? && step.push.value.Release? { FlushKeyCounts(sc, window, next.st, key); }
  }

  lemma {:induction false} FlushAllCounts(sc: Scanner, window: nat, st: State, keys: seq<Key>)
    requires FlushAll(sc, window, st, keys).Going?
    ensures FlushAll(sc, window, st, keys).st.unparsed == st.unparsed
    decreases |keys|
  {
    hide FlushKey;
    if keys != [] {
      FlushKeyCounts(sc, window, st, keys[0]);
      FlushAllCounts(sc, window, FlushKey(sc, window, st, keys[0]).st, keys[1..]);
    }
  }

  /** The count outside the fields is that of all lines the redactor could not read as chunks, and of no
    * others. */
  lemma {:induction false} UnparsedIsCounted(fmt: Format, sc: Scanner, window: nat, lines: seq<Text>, keys: seq<Key>)
    requires Whole(fmt, sc, window, lines, keys).Going?
    ensures Whole(fmt, sc, window, lines, keys).st.unparsed == RewrittenIn(fmt, sc, lines)
  {
    hide IngestAll, FlushAll;
    IngestAllCounts(fmt, sc, window, Start, lines);
    FlushAllCounts(sc, window, IngestAll(fmt, sc, window, Start, lines).st, keys);
  }
}
