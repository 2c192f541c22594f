/** What a stream has let go of at any moment: a function of the text so far, however it was cut into
  * pushes (crates/governance-redact/src/holdback.rs). */
module PromptRelease {
  import opened Common
  import opened RedactEngine
  import opened HoldBack
  import Utf8

  /** Pushes every chunk; nothing is flushed. */
  function Pushes(sc: Scanner, st: State, chunks: seq<Text>): Trace
    decreases |chunks|
  {
    if chunks == [] then Trace([], [], st, Finished)
    else
      var step := Advance(sc, Pushed(st, chunks[0]), false);
      Then(step, Pushes(sc, step.st, chunks[1..]))
  }

  /** A whole stream is its pushes and, unless they stopped it, the flush. */
  lemma {:induction false} StreamFlushesLast(sc: Scanner, st: State, chunks: seq<Text>)
    ensures var p, s := Pushes(sc, st, chunks), Stream(sc, st, chunks);
            if p.end.Finished? then
              var flush := Stream(sc, p.last, []);
              s == Trace(p.out + flush.out, p.heads + flush.heads, flush.last, flush.end)
            else s == p
    decreases |chunks|
  {
    hide Advance;
    if chunks == [] {
      assert Stream(sc, st, []) == Trace([] + Stream(sc, st, []).out, [] + Stream(sc, st, []).heads,
                                         Stream(sc, st, []).last, Stream(sc, st, []).end);
    } else {
      var step := Advance(sc, Pushed(st, chunks[0]), false);
      StreamFlushesLast(sc, step.st, chunks[1..]);
      if step.emit.Some? && step.emit.value.Release? {
        var p := Pushes(sc, step.st, chunks[1..]);
        var flush := Stream(sc, p.last, []);
        Assoc3(step.emit.value.text, p.out, flush.out);
        Assoc3([step.head], p.heads, flush.heads);
      }
    }
  }

  /** The buffer begins at the best cut of all that came. */
  ghost predicate Held(D: Text -> seq<Span>, st: State, came: Text, at: nat) {
    at <= |came| && st.pending == came[at..] && IsBestCut(came, D(came), Free(|came|, st.window), at)
  }

  /** What left is the redaction of the text before the cut. */
  ghost predicate Said(D: Text -> seq<Span>, rewrite: (Entity, Text) -> Text, out: Text, count: nat, came: Text, at: nat) {
    at <= |came| && out == Woven(rewrite, came[..at], D(came[..at])) && count == |D(came[..at])|
  }

  lemma {:induction false} BoundaryInRest(text: Text, at: nat, k: nat)
    requires at <= |text| && Utf8.IsCharBoundary(text, at) && k <= |text| - at
    ensures Utf8.IsCharBoundary(text[at..], k) <==> Utf8.IsCharBoundary(text, at + k)
  {}

  lemma {:induction false} InsideShift(spans: seq<Span>, offset: nat, k: nat)
    ensures CutOutside(Shift(spans, offset), offset + k) <==> CutOutside(spans, k)
  {
    if spans != [] {
      InsideShift(spans[1..], offset, k);
      assert spans == [spans[0]] + spans[1..];
      assert Inside(Moved(spans[0], offset), offset + k) <==> Inside(spans[0], k);
    }
  }

  /** A cut past `at` is in no detection of the text exactly when it is in none of the rest from `at`. */
  lemma {:induction false} OutsideInRest(D: Text -> seq<Span>, text: Text, at: nat, k: nat)
    requires PlacesWell(D) && Decomposes(D) && Utf8.WellFormed(text) && at <= |text|
    requires Utf8.IsCharBoundary(text, at) && CutOutside(D(text), at)
    ensures CutOutside(D(text), at + k) <==> CutOutside(D(text[at..]), k)
  {
    assert DecomposesAt(D, text, at);
    var left, right := D(text[..at]), D(text[at..]);
    Utf8.BoundarySplits(text, at);
    assert PlacesAt(D, text[..at]);
    InsideShift(right, at, k);
    forall s | s in left ensures !Inside(s, at + k) {}
    assert forall s :: s in left + Shift(right, at) <==> s in left || s in Shift(right, at);
  }

  /** The best cut of the rest from a clean cut is the best cut of the whole. */
  lemma {:induction false} BestInRest(D: Text -> seq<Span>, text: Text, at: nat, limit: nat, k: nat)
    requires PlacesWell(D) && Decomposes(D) && Utf8.WellFormed(text) && at <= limit <= |text|
    requires Utf8.IsCharBoundary(text, at) && CutOutside(D(text), at)
    requires IsBestCut(text[at..], D(text[at..]), limit - at, k)
    ensures IsBestCut(text, D(text), limit, at + k)
  {
    hide CutOutside, Utf8.IsCharBoundary;
    BoundaryInRest(text, at, k);
    OutsideInRest(D, text, at, k);
    forall j | at + k < j <= limit && Utf8.IsCharBoundary(text, j) ensures !CutOutside(D(text), j) {
      BoundaryInRest(text, at, j - at);
      OutsideInRest(D, text, at, j - at);
    }
  }

  /** A best cut stays clean, whatever follows. */
  lemma {:induction false} CutStaysClean(D: Text -> seq<Span>, lookahead: nat, window: nat, came: Text, more: Text, at: nat)
    requires SettlesWithin(D, lookahead) && PlacesWell(D) && lookahead <= window && Utf8.WellFormed(came) && Utf8.WellFormed(more)
    requires IsBestCut(came, D(came), Free(|came|, window), at)
    ensures Utf8.WellFormed(came + more) && at <= |came| && Utf8.IsCharBoundary(came + more, at) && CutOutside(D(came + more), at)
  {
    hide Utf8.WellFormed;
    Utf8.WellFormedAppend(came, more);
    var all := came + more;
    PendingEndIsBoundary(came, more);
    assert all[..|came|] == came;
    if at > 0 {
      CutStaysOutside(D, lookahead, all, |came|, at);
      if at < |came| { assert all[at] == came[at]; }
    }
  }

  /** One push: everything that may leave has left, and nothing else. */
  lemma {:induction false} PushHolds(sc: Scanner, D: Text -> seq<Span>, rewrite: (Entity, Text) -> Text, lookahead: nat,
                                     st: State, came: Text, at: nat, text: Text) returns (next: nat)
    requires LawfulScanner(sc, D, rewrite, lookahead) && AlwaysAnswers(sc) && lookahead <= st.window
    requires Utf8.WellFormed(came) && Utf8.WellFormed(text) && Held(D, st, came, at)
    requires BlockingEntities(D(came + text)) == {}
    ensures var step := Advance(sc, Pushed(st, text), false);
            && Proceeds(step) && step.st.window == st.window
            && Held(D, step.st, came + text, next) && at <= next && step.head == (came + text)[at..next]
  {
    hide Advance, BlockingEntities, IsBestCut, CutOutside, Utf8.WellFormed, Utf8.IsCharBoundary, Woven, LawfulScanner, AlwaysAnswers, Free;
    var all, pending := came + text, st.pending + text;
    LawsOfScanner(sc, D, rewrite, lookahead);
    CutStaysClean(D, lookahead, st.window, came, text, at);
    HeldLimit(D, st, came, at);
    Utf8.BoundarySplits(all, at);
    AppendSlices(came, text, at);
    assert pending == all[at..];
    RedactionSplits(D, rewrite, all, at);
    RestBlocksNothing(BlockingEntities(D(all[..at])), BlockingEntities(D(pending)));
    AnsweredProceeds(sc, D, rewrite, lookahead, Pushed(st, text));
    var cut := PushIsBest(sc, D, rewrite, lookahead, st, text);
    next := at + cut;
    DropThenDrop(all, at, cut);
    TakeThenDrop(all, at, next);
    BestOfAll(D, st.window, came, all, at, cut);
  }

  lemma {:induction false} LawsOfScanner(sc: Scanner, D: Text -> seq<Span>, rewrite: (Entity, Text) -> Text, lookahead: nat)
    requires LawfulScanner(sc, D, rewrite, lookahead)
    ensures PlacesWell(D) && SettlesWithin(D, lookahead) && Decomposes(D)
  {}

  lemma {:induction false} HeldLimit(D: Text -> seq<Span>, st: State, came: Text, at: nat)
    requires Held(D, st, came, at)
    ensures at <= Free(|came|, st.window) && Utf8.IsCharBoundary(came, at)
  {}

  /** What a push keeps, told by the lawful detections of its buffer. */
  lemma {:induction false} PushIsBest(sc: Scanner, D: Text -> seq<Span>, rewrite: (Entity, Text) -> Text, lookahead: nat, st: State, text: Text)
    returns (cut: nat)
    requires LawfulScanner(sc, D, rewrite, lookahead) && AlwaysAnswers(sc) && Utf8.WellFormed(st.pending + text)
    requires Proceeds(Advance(sc, Pushed(st, text), false))
    ensures var pending, step := st.pending + text, Advance(sc, Pushed(st, text), false);
            && step.st.window == st.window && cut <= |pending| && step.head == pending[..cut] && step.st.pending == pending[cut..]
            && IsBestCut(pending, D(pending), Free(|pending|, st.window), cut)
  {
    hide Advance, IsBestCut, Utf8.WellFormed;
    var pending := st.pending + text;
    assert ScansAt(sc, D, rewrite, pending) && PlacesAt(D, pending);
    assert sc.detect(pending).Some?;
    if pending == [] { DetectsNothingInNothing(D); }
    cut := PushKeepsBestRest(sc, st, text);
    AdvanceDrains(sc, Pushed(st, text), false);
  }

  lemma {:induction false} RestBlocksNothing(a: set<Entity>, b: set<Entity>)
    requires a + b == {}
    ensures b == {}
  {
    assert forall x :: x in b ==> x in a + b;
  }

  lemma {:induction false} BestOfAll(D: Text -> seq<Span>, window: nat, came: Text, all: Text, at: nat, cut: nat)
    requires PlacesWell(D) && Decomposes(D) && Utf8.WellFormed(all) && came <= all && at <= |came|
    requires at <= Free(|came|, window) && Utf8.IsCharBoundary(all, at) && CutOutside(D(all), at)
    requires IsBestCut(all[at..], D(all[at..]), Free(|all| - at, window), cut)
    ensures IsBestCut(all, D(all), Free(|all|, window), at + cut)
  {
    if at <= Free(|all|, window) {
      assert Free(|all| - at, window) == Free(|all|, window) - at;
      BestInRest(D, all, at, Free(|all|, window), cut);
    }
  }

  /** With a lawful engine that answers, a push of a text that does not block neither blocks nor fails. */
  lemma {:induction false} AnsweredProceeds(sc: Scanner, D: Text -> seq<Span>, rewrite: (Entity, Text) -> Text, lookahead: nat, st: State)
    requires LawfulScanner(sc, D, rewrite, lookahead) && AlwaysAnswers(sc) && lookahead <= st.window
    requires Utf8.WellFormed(st.pending) && BlockingEntities(D(st.pending)) == {}
    ensures Proceeds(Advance(sc, st, false))
  {
    StepBlocks(sc, D, rewrite, lookahead, st, false);
    AdvanceAnswers(sc, st);
  }

  lemma {:induction false} AdvanceAnswers(sc: Scanner, st: State)
    requires AlwaysAnswers(sc)
    ensures Advance(sc, st, false).emit.Some?
  {}

  /** What a push says, after what was said before it. */
  lemma {:induction false} PushSays(sc: Scanner, D: Text -> seq<Span>, rewrite: (Entity, Text) -> Text, lookahead: nat,
                                    st: State, out: Text, count: nat, came: Text, at: nat, text: Text, next: nat)
    requires LawfulScanner(sc, D, rewrite, lookahead) && Utf8.WellFormed(came + text)
    requires Proceeds(Advance(sc, Pushed(st, text), false)) && Said(D, rewrite, out, count, came, at)
    requires var step := Advance(sc, Pushed(st, text), false);
             at <= next <= |came + text| && step.head == (came + text)[at..next] && Held(D, step.st, came + text, next)
    requires Utf8.IsCharBoundary(came + text, at) && CutOutside(D(came + text), at)
    ensures var step := Advance(sc, Pushed(st, text), false);
            Said(D, rewrite, out + Out(step), count + step.st.redactions - st.redactions, came + text, next)
    ensures Advance(sc, Pushed(st, text), false).st.redactions >= st.redactions
  {
    hide Advance, Woven, BlockingEntities, CutOutside, Utf8.WellFormed, Utf8.IsCharBoundary;
    var all, step := came + text, Advance(sc, Pushed(st, text), false);
    AdvanceDrains(sc, Pushed(st, text), false);
    var before := all[..next];
    NextIsClean(D, step.st, all, next);
    Utf8.BoundarySplits(all, next);
    CutsAgree(D, all, next, at);
    RedactionSplits(D, rewrite, before, at);
    assert before[..at] == came[..at] && before[at..] == step.head;
    if step.emit.value.Release? {
      assert ScansAt(sc, D, rewrite, step.head);
      Utf8.BoundarySplits(before, at);
    } else {
      NothingSaid(D, rewrite, step.head);
    }
  }

  lemma {:induction false} NothingSaid(D: Text -> seq<Span>, rewrite: (Entity, Text) -> Text, head: Text)
    requires PlacesWell(D) && head == []
    ensures Woven(rewrite, head, D(head)) == [] && D(head) == []
  {
    DetectsNothingInNothing(D);
  }

  lemma {:induction false} NextIsClean(D: Text -> seq<Span>, st: State, came: Text, at: nat)
    requires Held(D, st, came, at)
    ensures Utf8.IsCharBoundary(came, at) && CutOutside(D(came), at)
  {}

  /** A clean cut of a text is a clean cut of what comes before a later clean cut. */
  lemma {:induction false} CutsAgree(D: Text -> seq<Span>, text: Text, cut: nat, at: nat)
    requires Decomposes(D) && Utf8.WellFormed(text) && at <= cut <= |text|
    requires Utf8.IsCharBoundary(text, cut) && CutOutside(D(text), cut) && Utf8.IsCharBoundary(text, at) && CutOutside(D(text), at)
    ensures Utf8.IsCharBoundary(text[..cut], at) && CutOutside(D(text[..cut]), at)
  {
    assert DecomposesAt(D, text, cut);
    assert forall s :: s in D(text[..cut]) ==> s in D(text);
  }

  lemma {:induction false} PushesHold(sc: Scanner, D: Text -> seq<Span>, rewrite: (Entity, Text) -> Text, lookahead: nat,
                                      st: State, out: Text, count: nat, came: Text, at: nat, chunks: seq<Text>) returns (cut: nat)
    requires LawfulScanner(sc, D, rewrite, lookahead) && AlwaysAnswers(sc) && lookahead <= st.window
    requires Utf8.WellFormed(came) && AllWellFormed(chunks)
    requires Held(D, st, came, at) && Said(D, rewrite, out, count, came, at)
    requires forall k: nat :: k <= |chunks| ==> BlockingUpTo(D, came, chunks, k) == {}
    ensures var t := Pushes(sc, st, chunks);
            && t.end.Finished? && t.last.redactions >= st.redactions && t.last.window == st.window && Held(D, t.last, came + Concat(chunks), cut)
            && Said(D, rewrite, out + t.out, count + t.last.redactions - st.redactions, came + Concat(chunks), cut)
    decreases |chunks|
  {
    hide Advance, Held, Said, BlockingUpTo, IsBestCut, CutOutside, Utf8.WellFormed, Utf8.IsCharBoundary;
    if chunks == [] {
      cut := at;
      assert came + Concat(chunks) == came && out + [] == out;
    } else {
      var c, rest := chunks[0], chunks[1..];
      assert c in chunks && AllWellFormed(rest);
      assert BlockingUpTo(D, came, chunks, 1) == {};
      UpToOne(D, came, chunks);
      HeldIsClean(D, lookahead, st, came, at, c);
      var next := PushHolds(sc, D, rewrite, lookahead, st, came, at, c);
      HeldBounds(D, Advance(sc, Pushed(st, c), false).st, came + c, next);
      PushSays(sc, D, rewrite, lookahead, st, out, count, came, at, c, next);
      var step := Advance(sc, Pushed(st, c), false);
      forall k: nat | k <= |rest| ensures BlockingUpTo(D, came + c, rest, k) == {} {
        UpToNext(D, came, chunks, k);
        assert BlockingUpTo(D, came, chunks, k + 1) == {};
      }
      cut := PushesHold(sc, D, rewrite, lookahead, step.st, out + Out(step), count + step.st.redactions - st.redactions, came + c, next, rest);
      ConcatStep(came, chunks);
      Assoc3(out, Out(step), Pushes(sc, step.st, rest).out);
      ThenSays(step, Pushes(sc, step.st, rest));
    }
  }

  lemma {:induction false} ThenSays(step: Stepped, rest: Trace)
    requires Proceeds(step)
    ensures Then(step, rest).out == Out(step) + rest.out && Then(step, rest).last == rest.last && Then(step, rest).end == rest.end
  {
    assert [] + rest.out == rest.out;
  }

  lemma {:induction false} HeldBounds(D: Text -> seq<Span>, st: State, came: Text, at: nat)
    requires Held(D, st, came, at)
    ensures at <= |came|
  {}

  lemma {:induction false} HeldIsClean(D: Text -> seq<Span>, lookahead: nat, st: State, came: Text, at: nat, more: Text)
    requires SettlesWithin(D, lookahead) && PlacesWell(D) && lookahead <= st.window && Utf8.WellFormed(came) && Utf8.WellFormed(more)
    requires Held(D, st, came, at)
    ensures Utf8.WellFormed(came + more) && Utf8.IsCharBoundary(came + more, at) && CutOutside(D(came + more), at)
  {
    CutStaysClean(D, lookahead, st.window, came, more, at);
  }

  lemma {:induction false} UpToNext(D: Text -> seq<Span>, came: Text, chunks: seq<Text>, k: nat)
    requires chunks != [] && k <= |chunks[1..]|
    ensures BlockingUpTo(D, came + chunks[0], chunks[1..], k) == BlockingUpTo(D, came, chunks, k + 1)
  {
    var some := chunks[..k + 1];
    assert some[0] == chunks[0] && some[1..] == chunks[1..][..k];
    ConcatStep(came, some);
  }

  /** Prompt, and no more: after any pushes of a text no beginning of which blocks, the client has the batch
    * redaction of everything up to the greatest character boundary, short of the window, that lies in no
    * detection of the text so far; and the rest is held. How the text was cut into pushes makes no
    * difference. */
  lemma {:induction false} ReleasedAtOnce(sc: Scanner, D: Text -> seq<Span>, rewrite: (Entity, Text) -> Text, lookahead: nat,
                                          window: nat, chunks: seq<Text>) returns (cut: nat)
    requires LawfulScanner(sc, D, rewrite, lookahead) && AlwaysAnswers(sc) && lookahead <= window && AllWellFormed(chunks)
    requires forall k: nat :: k <= |chunks| ==> BlockingUpTo(D, [], chunks, k) == {}
    ensures var t, came := Pushes(sc, State(window, [], 0, 0), chunks), Concat(chunks);
            && t.end.Finished? && cut <= |came| && t.last.pending == came[cut..]
            && IsBestCut(came, D(came), Free(|came|, window), cut)
            && t.out == Woven(rewrite, came[..cut], D(came[..cut])) && t.last.redactions == |D(came[..cut])|
  {
    hide BlockingUpTo, Woven, Pushes, IsBestCut, LawfulScanner, AlwaysAnswers, Utf8.WellFormed;
    LawsOfScanner(sc, D, rewrite, lookahead);
    var st := State(window, [], 0, 0);
    ConcatWellFormed([]);
    assert Concat<Utf8.Byte>([]) == [];
    DetectsNothingInNothing(D);
    NothingSaid(D, rewrite, []);
    NothingHeld(D, window);
    cut := PushesHold(sc, D, rewrite, lookahead, st, [], 0, [], 0, chunks);
    assert [] + Concat(chunks) == Concat(chunks) && [] + Pushes(sc, st, chunks).out == Pushes(sc, st, chunks).out;
  }

  lemma {:induction false} NothingHeld(D: Text -> seq<Span>, window: nat)
    requires D([]) == []
    ensures Held(D, State(window, [], 0, 0), [], 0)
  {}
}
