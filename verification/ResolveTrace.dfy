/** What a run of `/internal/v1/resolve` does with each request, told by the actions of the run: who is
  * answered, how, and why (app/lightbridge-governance/src/resolve.rs). */
module ResolveTrace {
  import opened Common
  import opened ResolveCache

  // ---------- The history of one request ----------

  /** What the request brought: the first arrival under its number. */
  function Arrival(actions: seq<Action>, r: nat): Option<Input> {
    if actions == [] then None
    else if actions[0].Arrive? && actions[0].r == r then Some(actions[0].input)
    else Arrival(actions[1..], r)
  }

  /** What the token review said: the first one after the arrival. */
  function Review(actions: seq<Action>, r: nat): Option<bool> {
    if actions == [] then None
    else if actions[0].Arrive? && actions[0].r == r then FirstReview(actions[1..], r)
    else Review(actions[1..], r)
  }

  function FirstReview(actions: seq<Action>, r: nat): Option<bool> {
    if actions == [] then None
    else if actions[0].Begin? && actions[0].r == r then Some(actions[0].tokenOk)
    else FirstReview(actions[1..], r)
  }

  lemma {:induction false} ArrivalSnoc(actions: seq<Action>, a: Action, r: nat)
    ensures Arrival(actions + [a], r) ==
            if Arrival(actions, r).Some? then Arrival(actions, r) else if a.Arrive? && a.r == r then Some(a.input) else None
    ensures Review(actions + [a], r) ==
            if Review(actions, r).Some? then Review(actions, r)
            else if Arrival(actions, r).Some? && a.Begin? && a.r == r then Some(a.tokenOk) else None
    ensures Review(actions, r).Some? ==> Arrival(actions, r).Some?
  {
    if actions == [] {
      assert [a][1..] == [] && [] + [a] == [a];
    } else {
      assert (actions + [a])[1..] == actions[1..] + [a];
      ArrivalSnoc(actions[1..], a, r);
      FirstReviewSnoc(actions[1..], a, r);
    }
  }

  lemma {:induction false} FirstReviewSnoc(actions: seq<Action>, a: Action, r: nat)
    ensures FirstReview(actions + [a], r) ==
            if FirstReview(actions, r).Some? then FirstReview(actions, r) else if a.Begin? && a.r == r then Some(a.tokenOk) else None
  {
    if actions == [] {
      assert [a][1..] == [] && [] + [a] == [a];
    } else {
      assert (actions + [a])[1..] == actions[1..] + [a];
      FirstReviewSnoc(actions[1..], a, r);
    }
  }

  /** The answers to one request. */
  function To(answers: seq<Answer>, r: nat): seq<Answer> {
    if answers == [] then [] else (if answers[0].r == r then [answers[0]] else []) + To(answers[1..], r)
  }

  lemma {:induction false} ToSnoc(answers: seq<Answer>, a: Answer, r: nat)
    ensures To(answers + [a], r) == To(answers, r) + (if a.r == r then [a] else [])
  {
    if answers == [] {
      assert [a][1..] == [] && [] + [a] == [a];
    } else {
      assert (answers + [a])[1..] == answers[1..] + [a];
      ToSnoc(answers[1..], a, r);
    }
  }

  lemma {:induction false} InTo(answers: seq<Answer>, a: Answer)
    requires a in answers
    ensures a in To(answers, a.r)
  {
    if a != answers[0] { InTo(answers[1..], a); }
  }

  lemma {:induction false} RunSnoc(env: Env, s: State, actions: seq<Action>, a: Action)
    ensures Run(env, s, actions + [a]) == Next(env, Run(env, s, actions), a)
  {
    RunAppend(env, s, actions, [a]);
    var end := Run(env, s, actions);
    assert [a][1..] == [] && Run(env, end, [a]) == Run(env, Next(env, end, a), []);
  }

  // ---------- What each step of a request rests on ----------

  /** The caller presented a token, its review succeeded, and the body was the credential. */
  ghost predicate Authenticated(actions: seq<Action>, r: nat, cred: Credential) {
    && Arrival(actions, r).Some? && Arrival(actions, r).value.bearer.Some?
    && Arrival(actions, r).value.body == Some(cred) && Review(actions, r) == Some(true)
  }

  function StateAt(env: Env, actions: seq<Action>, k: nat): State
    requires k <= |actions|
  {
    Run(env, INIT, actions[..k])
  }

  /** The request's review came at this instant. */
  ghost predicate BegunAt(env: Env, actions: seq<Action>, r: nat, at: Time) {
    exists k: nat :: k < |actions| && actions[k] == Begin(r, true) && StateAt(env, actions, k).now == at
  }

  /** The request's query failed, or found no active row. */
  ghost predicate QueriedInVain(env: Env, actions: seq<Action>, r: nat, cred: Credential) {
    exists k: nat :: QueryInVainAt(env, actions, r, cred, k)
  }

  ghost predicate QueryInVainAt(env: Env, actions: seq<Action>, r: nat, cred: Credential, k: nat) {
    && k < |actions| && actions[k].Query? && actions[k].r == r
    && var db, h := StateAt(env, actions, k).db, env.credentialHash(cred);
       actions[k].dbFails || h !in db || db[h].revokedAt.Some?
  }

  /** Why a request is answered as it is. */
  ghost predicate Fits(env: Env, actions: seq<Action>, a: Answer) {
    var input, review := Arrival(actions, a.r), Review(actions, a.r);
    && input.Some? && review.Some?
    && match a
       case Allowed(r, cred, _, _) => Authenticated(actions, r, cred)
       case Denied(r, reason, at) =>
         match reason
         case MissingToken => input.value.bearer.None?
         case TokenReviewFailed => input.value.bearer.Some? && review == Some(false)
         case MalformedBody => input.value.bearer.Some? && review == Some(true) && input.value.body.None?
         case CredentialRejected => exists cred :: Authenticated(actions, r, cred) && QueriedInVain(env, actions, r, cred)
         case Timeout => exists cred: Credential, t: Time :: Authenticated(actions, r, cred) && BegunAt(env, actions, r, t) && t + env.resolveTimeout <= at
  }

  /** Where each request stands. */
  ghost predicate Tracked(env: Env, actions: seq<Action>, s: State, r: nat) {
    var answers := To(s.answers, r);
    if r !in s.requests then Arrival(actions, r).None? && answers == []
    else
      match s.requests[r]
      case Received(input) => Arrival(actions, r) == Some(input) && Review(actions, r).None? && answers == []
      case Looking(cred, startedAt) =>
        Authenticated(actions, r, cred) && BegunAt(env, actions, r, startedAt) && answers == []
      case Returning(cred, startedAt, _, found) =>
        && Authenticated(actions, r, cred) && BegunAt(env, actions, r, startedAt) && answers == []
        && (found.None? ==> QueriedInVain(env, actions, r, cred))
      case Done => |answers| == 1 && Fits(env, actions, answers[0])
  }

  // ---------- History only grows ----------

  lemma {:induction false} AuthenticatedStays(actions: seq<Action>, a: Action, r: nat, cred: Credential)
    requires Authenticated(actions, r, cred)
    ensures Authenticated(actions + [a], r, cred)
  {
    ArrivalSnoc(actions, a, r);
  }

  lemma {:induction false} BegunStays(env: Env, actions: seq<Action>, a: Action, r: nat, at: Time)
    requires BegunAt(env, actions, r, at)
    ensures BegunAt(env, actions + [a], r, at)
  {
    var k: nat :| k < |actions| && actions[k] == Begin(r, true) && StateAt(env, actions, k).now == at;
    assert (actions + [a])[..k] == actions[..k] && (actions + [a])[k] == actions[k];
  }

  lemma {:induction false} InVainStays(env: Env, actions: seq<Action>, a: Action, r: nat, cred: Credential)
    requires QueriedInVain(env, actions, r, cred)
    ensures QueriedInVain(env, actions + [a], r, cred)
  {
    var k: nat :| QueryInVainAt(env, actions, r, cred, k);
    assert (actions + [a])[..k] == actions[..k] && (actions + [a])[k] == actions[k];
    assert QueryInVainAt(env, actions + [a], r, cred, k);
  }

  lemma {:induction false} FitsStays(env: Env, actions: seq<Action>, a: Action, x: Answer)
    requires Fits(env, actions, x)
    ensures Fits(env, actions + [a], x)
  {
    hide Authenticated, BegunAt, QueriedInVain;
    ArrivalSnoc(actions, a, x.r);
    if x.Allowed? {
      AuthenticatedStays(actions, a, x.r, x.cred);
    } else if x.reason.CredentialRejected? {
      var cred :| Authenticated(actions, x.r, cred) && QueriedInVain(env, actions, x.r, cred);
      AuthenticatedStays(actions, a, x.r, cred);
      InVainStays(env, actions, a, x.r, cred);
    } else if x.reason.Timeout? {
      var cred: Credential, t: Time :| Authenticated(actions, x.r, cred) && BegunAt(env, actions, x.r, t) && t + env.resolveTimeout <= x.at;
      AuthenticatedStays(actions, a, x.r, cred);
      BegunStays(env, actions, a, x.r, t);
    }
  }

  /** A request the action does not touch. */
  lemma {:induction false} UntouchedStays(env: Env, actions: seq<Action>, a: Action, s: State, s': State, r: nat)
    requires Tracked(env, actions, s, r)
    requires (r in s.requests <==> r in s'.requests) && (r in s.requests ==> s'.requests[r] == s.requests[r])
    requires To(s'.answers, r) == To(s.answers, r)
    requires a.Arrive? && a.r == r ==> r in s.requests
    requires a.Begin? && a.r == r ==> r !in s.requests || !s.requests[r].Received?
    ensures Tracked(env, actions + [a], s', r)
  {
    hide Authenticated, BegunAt, QueriedInVain, Fits;
    ArrivalSnoc(actions, a, r);
    if r in s.requests {
      match s.requests[r] {
        case Received(_) =>
        case Looking(cred, startedAt) =>
          AuthenticatedStays(actions, a, r, cred);
          BegunStays(env, actions, a, r, startedAt);
        case Returning(cred, startedAt, _, found) =>
          AuthenticatedStays(actions, a, r, cred);
          BegunStays(env, actions, a, r, startedAt);
          if found.None? { InVainStays(env, actions, a, r, cred); }
        case Done => FitsStays(env, actions, a, To(s.answers, r)[0]);
      }
    }
  }

  // ---------- Every step keeps the books ----------

  ghost predicate AllTracked(env: Env, actions: seq<Action>, s: State) {
    s == Run(env, INIT, actions) && forall r: nat :: Tracked(env, actions, s, r)
  }

  lemma {:induction false} BegunNow(env: Env, actions: seq<Action>, r: nat)
    ensures BegunAt(env, actions + [Begin(r, true)], r, Run(env, INIT, actions).now)
  {
    var all := actions + [Begin(r, true)];
    assert all[..|actions|] == actions && all[|actions|] == Begin(r, true);
    assert StateAt(env, all, |actions|) == Run(env, INIT, actions);
  }

  lemma {:induction false} RespondGives(s: State, r: nat, a: Answer)
    requires a.r == r
    ensures To(Respond(s, r, a).answers, r) == To(s.answers, r) + [a]
  {
    ToSnoc(s.answers, a, r);
  }

  lemma {:induction false} BeginTracks(env: Env, actions: seq<Action>, s: State, r: nat, tokenOk: bool)
    requires s == Run(env, INIT, actions) && Tracked(env, actions, s, r) && r in s.requests && s.requests[r].Received?
    ensures Tracked(env, actions + [Begin(r, tokenOk)], Next(env, s, Begin(r, tokenOk)), r)
  {
    hide BegunAt, QueriedInVain, Run, To;
    var a, input := Begin(r, tokenOk), s.requests[r].input;
    var all := actions + [a];
    ArrivalSnoc(actions, a, r);
    assert Arrival(all, r) == Some(input) && Review(all, r) == Some(tokenOk);
    if tokenOk { BegunNow(env, actions, r); }
    hide Arrival, Review;
    var s' := Next(env, s, a);
    assert s' == Started(env, s, r, input, tokenOk);
    if s'.requests[r].Done? {
      var last := s'.answers[|s.answers|];
      assert s' == Respond(s, r, last);
      RespondGives(s, r, last);
    }
  }

  lemma {:induction false} QueryTracks(env: Env, actions: seq<Action>, s: State, r: nat, dbFails: bool)
    requires s == Run(env, INIT, actions) && Tracked(env, actions, s, r) && r in s.requests && s.requests[r].Looking?
    ensures Tracked(env, actions + [Query(r, dbFails)], Next(env, s, Query(r, dbFails)), r)
  {
    hide BegunAt, Run;
    var a, cred := Query(r, dbFails), s.requests[r].cred;
    var all := actions + [a];
    ArrivalSnoc(actions, a, r);
    BegunStays(env, actions, a, r, s.requests[r].startedAt);
    assert all[..|actions|] == actions && all[|actions|] == a;
    if Lookup(env, s.db, cred, dbFails).None? { assert QueryInVainAt(env, all, r, cred, |actions|); }
  }

  lemma {:induction false} ReturnTracks(env: Env, actions: seq<Action>, s: State, r: nat)
    requires Tracked(env, actions, s, r) && r in s.requests && s.requests[r].Returning?
    requires s.now <= s.requests[r].startedAt + env.resolveTimeout
    ensures Tracked(env, actions + [Return(r)], Next(env, s, Return(r)), r)
  {
    hide BegunAt, QueriedInVain, Run;
    var a, q := Return(r), s.requests[r];
    ArrivalSnoc(actions, a, r);
    var s' := Next(env, s, a);
    ToSnoc(s.answers, s'.answers[|s.answers|], r);
    AuthenticatedStays(actions, a, r, q.cred);
    if q.found.None? { InVainStays(env, actions, a, r, q.cred); }
  }

  lemma {:induction false} ExpireTracks(env: Env, actions: seq<Action>, s: State, r: nat)
    requires Tracked(env, actions, s, r) && r in s.requests && (s.requests[r].Looking? || s.requests[r].Returning?)
    requires s.requests[r].startedAt + env.resolveTimeout <= s.now
    ensures Tracked(env, actions + [Expire(r)], Next(env, s, Expire(r)), r)
  {
    hide BegunAt, QueriedInVain, Run;
    var a, q := Expire(r), s.requests[r];
    ArrivalSnoc(actions, a, r);
    ToSnoc(s.answers, Denied(r, Timeout, s.now), r);
    AuthenticatedStays(actions, a, r, q.cred);
    BegunStays(env, actions, a, r, q.startedAt);
  }

  /** Nothing about any other request differs. */
  ghost predicate Concerns(s: State, s': State, r: nat) {
    && (forall x: nat :: x != r ==> (x in s.requests <==> x in s'.requests) && (x in s.requests ==> s'.requests[x] == s.requests[x]))
    && (s'.answers == s.answers || exists a: Answer :: a.r == r && s'.answers == s.answers + [a])
  }

  lemma {:induction false} StartedConcerns(env: Env, s: State, r: nat, input: Input, tokenOk: bool)
    ensures Concerns(s, Started(env, s, r, input, tokenOk), r) && Started(env, s, r, input, tokenOk).db == s.db
  {}

  lemma {:induction false} ReturnedConcerns(env: Env, s: State, r: nat, q: Request)
    requires q.Returning?
    ensures Concerns(s, Returned(env, s, r, q), r) && Returned(env, s, r, q).db == s.db
  {}

  /** An action concerns at most the request it names. */
  lemma {:induction false} OthersUntouched(env: Env, s: State, a: Action, r: nat)
    requires (a.Arrive? || a.Begin? || a.Query? || a.Return? || a.Expire?) ==> a.r != r
    ensures var s' := Next(env, s, a);
            && (r in s.requests <==> r in s'.requests) && (r in s.requests ==> s'.requests[r] == s.requests[r])
            && To(s'.answers, r) == To(s.answers, r)
  {
    hide Started, Returned, Lookup, To;
    var s' := Next(env, s, a);
    if a.Begin? && a.r in s.requests && s.requests[a.r].Received? {
      StartedConcerns(env, s, a.r, s.requests[a.r].input, a.tokenOk);
    } else if a.Return? && a.r in s.requests && s.requests[a.r].Returning? {
      ReturnedConcerns(env, s, a.r, s.requests[a.r]);
    }
    if s'.answers != s.answers { ToSnoc(s.answers, s'.answers[|s.answers|], r); }
  }

  lemma {:induction false} NextTracks(env: Env, actions: seq<Action>, s: State, a: Action)
    requires AllTracked(env, actions, s)
    ensures AllTracked(env, actions + [a], Next(env, s, a))
  {
    hide Tracked, Run;
    RunSnoc(env, INIT, actions, a);
    forall r: nat ensures Tracked(env, actions + [a], Next(env, s, a), r) {
      assert Tracked(env, actions, s, r);
      if (a.Arrive? || a.Begin? || a.Query? || a.Return? || a.Expire?) && a.r == r {
        OwnTracks(env, actions, s, a);
      } else {
        OthersUntouched(env, s, a, r);
        UntouchedStays(env, actions, a, s, Next(env, s, a), r);
      }
    }
  }

  lemma {:induction false} OwnTracks(env: Env, actions: seq<Action>, s: State, a: Action)
    requires s == Run(env, INIT, actions) && (a.Arrive? || a.Begin? || a.Query? || a.Return? || a.Expire?)
    requires Tracked(env, actions, s, a.r)
    ensures Tracked(env, actions + [a], Next(env, s, a), a.r)
  {
    hide Tracked, Run, Started, Returned, Lookup;
    var r := a.r;
    if Next(env, s, a) == s && !(a.Begin? && r in s.requests && s.requests[r].Received?) && !(a.Arrive? && r !in s.requests) {
      UntouchedStays(env, actions, a, s, s, r);
    } else {
      match a
      case Arrive(_, input) => ArriveTracks(env, actions, s, r, input);
      case Begin(_, tokenOk) => BeginTracks(env, actions, s, r, tokenOk);
      case Query(_, dbFails) => QueryTracks(env, actions, s, r, dbFails);
      case Return(_) => ReturnTracks(env, actions, s, r);
      case Expire(_) => ExpireTracks(env, actions, s, r);
    }
  }

  lemma {:induction false} ArriveTracks(env: Env, actions: seq<Action>, s: State, r: nat, input: Input)
    requires Tracked(env, actions, s, r) && r !in s.requests
    ensures Tracked(env, actions + [Arrive(r, input)], Next(env, s, Arrive(r, input)), r)
  {
    ArrivalSnoc(actions, Arrive(r, input), r);
  }

  lemma {:induction false} RunTracks(env: Env, actions: seq<Action>)
    ensures AllTracked(env, actions, Run(env, INIT, actions))
    decreases |actions|
  {
    hide Tracked, Next;
    if actions == [] {
      NothingTracked(env);
    } else {
      var front, last := actions[..|actions| - 1], actions[|actions| - 1];
      RunTracks(env, front);
      NextTracks(env, front, Run(env, INIT, front), last);
      RunSnoc(env, INIT, front, last);
      assert front + [last] == actions;
    }
  }

  lemma {:induction false} NothingTracked(env: Env)
    ensures AllTracked(env, [], Run(env, INIT, []))
  {}

  // ---------- The results ----------

  /** Over every interleaving: a request is answered at most once, and for what it brought and what came of
    * it. It is allowed only to a caller whose token review succeeded, for the credential it presented. */
  lemma {:induction false} AnsweredForCause(env: Env, actions: seq<Action>, a: Answer)
    requires a in Run(env, INIT, actions).answers
    ensures To(Run(env, INIT, actions).answers, a.r) == [a] && Fits(env, actions, a)
  {
    RunTracks(env, actions);
    var s := Run(env, INIT, actions);
    assert Tracked(env, actions, s, a.r);
    InTo(s.answers, a);
  }

  /** The first arrival of the request, and the first review after it, stand in the run in that order. */
  lemma {:induction false} ReviewFollowsArrival(actions: seq<Action>, r: nat) returns (i: nat, j: nat)
    requires Arrival(actions, r).Some? && Review(actions, r).Some?
    ensures i < j < |actions| && actions[i] == Arrive(r, Arrival(actions, r).value) && actions[j] == Begin(r, Review(actions, r).value)
    ensures forall k | 0 <= k < i :: !(actions[k].Arrive? && actions[k].r == r)
    ensures forall k | i < k < j :: !(actions[k].Begin? && actions[k].r == r)
  {
    if actions[0].Arrive? && actions[0].r == r {
      i := 0;
      var k := FirstReviewAt(actions[1..], r);
      j := k + 1;
    } else {
      var i', j' := ReviewFollowsArrival(actions[1..], r);
      i, j := i' + 1, j' + 1;
    }
  }

  lemma {:induction false} FirstReviewAt(actions: seq<Action>, r: nat) returns (j: nat)
    requires FirstReview(actions, r).Some?
    ensures j < |actions| && actions[j] == Begin(r, FirstReview(actions, r).value)
    ensures forall k | 0 <= k < j :: !(actions[k].Begin? && actions[k].r == r)
  {
    if actions[0].Begin? && actions[0].r == r {
      j := 0;
    } else {
      var k := FirstReviewAt(actions[1..], r);
      j := k + 1;
    }
  }

  /** An allowed answer: the request arrived with a bearer token and that credential as its body, and later
    * its token review succeeded. */
  lemma {:induction false} AllowedWasAuthenticated(env: Env, actions: seq<Action>, a: Answer) returns (i: nat, j: nat)
    requires a in Run(env, INIT, actions).answers && a.Allowed?
    ensures i < j < |actions| && actions[i].Arrive? && actions[i].r == a.r && actions[j] == Begin(a.r, true)
    ensures actions[i].input.bearer.Some? && actions[i].input.body == Some(a.cred)
  {
    AnsweredForCause(env, actions, a);
    i, j := ReviewFollowsArrival(actions, a.r);
  }

  ghost predicate OnlyAnswer(answers: seq<Answer>, r: nat, reason: Reason) {
    |To(answers, r)| == 1 && To(answers, r)[0].Denied? && To(answers, r)[0].reason == reason
  }

  /** A request that is begun and is not authenticated, or not readable, has been denied, for just that. */
  lemma {:induction false} RejectedForThat(env: Env, actions: seq<Action>, r: nat)
    requires Arrival(actions, r).Some? && Review(actions, r).Some?
    ensures var input, ok, answers := Arrival(actions, r).value, Review(actions, r).value, Run(env, INIT, actions).answers;
            && (input.bearer.None? <==> OnlyAnswer(answers, r, MissingToken))
            && (input.bearer.Some? && !ok <==> OnlyAnswer(answers, r, TokenReviewFailed))
            && (input.bearer.Some? && ok && input.body.None? <==> OnlyAnswer(answers, r, MalformedBody))
  {
    RunTracks(env, actions);
    var s := Run(env, INIT, actions);
    assert Tracked(env, actions, s, r);
    if r in s.requests && s.requests[r].Done? { AnswerIsTo(s.answers, r); }
  }

  lemma {:induction false} AnswerIsTo(answers: seq<Answer>, r: nat)
    ensures forall a :: a in To(answers, r) ==> a.r == r
  {
    if answers != [] { AnswerIsTo(answers[1..], r); }
  }

  // ---------- The database ----------

  ghost predicate IssuedHere(env: Env, actions: seq<Action>, h: string, row: Row) {
    exists k: nat :: IssuedAtStep(env, actions, h, row, k)
  }

  /** Step `k` issued the row; there was none before. */
  ghost predicate IssuedAtStep(env: Env, actions: seq<Action>, h: string, row: Row, k: nat) {
    && k < |actions| && actions[k].Issue? && env.credentialHash(actions[k].cred) == h && actions[k].identity == row.identity
    && h !in StateAt(env, actions, k).db && StateAt(env, actions, k).now == row.issuedAt
  }

  /** Step `k` revoked the integration of a row that was there. */
  ghost predicate RevokedAtStep(env: Env, actions: seq<Action>, h: string, row: Row, k: nat) {
    k < |actions| && actions[k] == Revoke(row.identity.integration) && h in StateAt(env, actions, k).db
  }

  ghost predicate FirstRevoked(env: Env, actions: seq<Action>, h: string, row: Row, at: Time) {
    exists k: nat :: RevokedAtStep(env, actions, h, row, k) && StateAt(env, actions, k).now == at
                     && forall j: nat :: j < k ==> !RevokedAtStep(env, actions, h, row, j)
  }

  ghost predicate NeverRevoked(env: Env, actions: seq<Action>, h: string, row: Row) {
    forall k: nat :: !RevokedAtStep(env, actions, h, row, k)
  }

  /** A row is what was first issued for its credential, revoked when its own integration first was. */
  ghost predicate RowOfRun(env: Env, actions: seq<Action>, h: string, row: Row) {
    && IssuedHere(env, actions, h, row)
    && match row.revokedAt
       case None => NeverRevoked(env, actions, h, row)
       case Some(at) => FirstRevoked(env, actions, h, row, at)
  }

  lemma {:induction false} StepsStay(env: Env, actions: seq<Action>, a: Action, h: string, row: Row)
    ensures forall k: nat :: k < |actions| ==>
              (RevokedAtStep(env, actions + [a], h, row, k) <==> RevokedAtStep(env, actions, h, row, k))
    ensures forall k: nat :: k < |actions| ==> StateAt(env, actions + [a], k) == StateAt(env, actions, k)
    ensures forall k: nat :: k < |actions| && IssuedAtStep(env, actions, h, row, k) ==> IssuedAtStep(env, actions + [a], h, row, k)
  {
    assert forall k: nat :: k < |actions| ==> (actions + [a])[..k] == actions[..k];
  }

  /** What one step does to one row. */
  lemma {:induction false} RowStep(env: Env, s: State, a: Action, h: string)
    ensures h in Next(env, s, a).db <==> h in s.db || (a.Issue? && env.credentialHash(a.cred) == h)
    ensures h in s.db ==>
              var row, row' := s.db[h], Next(env, s, a).db[h];
              && row'.identity == row.identity && row'.issuedAt == row.issuedAt
              && row'.revokedAt == if row.revokedAt.None? && a == Revoke(row.identity.integration) then Some(s.now) else row.revokedAt
  {
    hide Started, Returned;
    if a.Begin? && a.r in s.requests && s.requests[a.r].Received? {
      StartedConcerns(env, s, a.r, s.requests[a.r].input, a.tokenOk);
    } else if a.Return? && a.r in s.requests && s.requests[a.r].Returning? {
      ReturnedConcerns(env, s, a.r, s.requests[a.r]);
    }
  }

  lemma {:induction false} RowStays(env: Env, actions: seq<Action>, a: Action, h: string)
    requires h in Run(env, INIT, actions).db && RowOfRun(env, actions, h, Run(env, INIT, actions).db[h])
    ensures h in Run(env, INIT, actions + [a]).db && RowOfRun(env, actions + [a], h, Run(env, INIT, actions + [a]).db[h])
  {
    hide Run, StateAt, IssuedAtStep, Next;
    var s, all, n := Run(env, INIT, actions), actions + [a], |actions|;
    RunSnoc(env, INIT, actions, a);
    RowStep(env, s, a, h);
    var row, row' := s.db[h], Next(env, s, a).db[h];
    StepsStay(env, actions, a, h, row);
    StepsStay(env, actions, a, h, row');
    var k: nat :| IssuedAtStep(env, actions, h, row, k);
    StepBounds(env, actions, h, row, k);
    IssuedLike(env, all, h, row, row', k);
    LastStep(env, actions, a);
    if row.revokedAt.Some? {
      var j: nat :| RevokedAtStep(env, actions, h, row, j) && StateAt(env, actions, j).now == row.revokedAt.value
                    && forall i: nat :: i < j ==> !RevokedAtStep(env, actions, h, row, i);
      assert RevokedAtStep(env, all, h, row', j);
    } else if row'.revokedAt.Some? {
      assert RevokedAtStep(env, all, h, row', n);
      forall j: nat | j < n ensures !RevokedAtStep(env, all, h, row', j) { assert !RevokedAtStep(env, actions, h, row, j); }
    } else {
      assert row' == row && a != Revoke(row.identity.integration);
      forall k: nat ensures !RevokedAtStep(env, all, h, row, k) {
        if k < n { assert !RevokedAtStep(env, actions, h, row, k); }
      }
    }
  }

  lemma {:induction false} StepBounds(env: Env, actions: seq<Action>, h: string, row: Row, k: nat)
    requires IssuedAtStep(env, actions, h, row, k)
    ensures k < |actions|
  {}

  lemma {:induction false} IssuedLike(env: Env, actions: seq<Action>, h: string, row: Row, row': Row, k: nat)
    requires IssuedAtStep(env, actions, h, row, k) && row'.identity == row.identity && row'.issuedAt == row.issuedAt
    ensures IssuedAtStep(env, actions, h, row', k)
  {}

  lemma {:induction false} LastStep(env: Env, actions: seq<Action>, a: Action)
    ensures StateAt(env, actions + [a], |actions|) == Run(env, INIT, actions) && (actions + [a])[|actions|] == a
  {
    assert (actions + [a])[..|actions|] == actions;
  }

  /** Over every run: the database holds exactly what was issued, each row revoked at the first revocation
    * of its own integration after it, and no other. */
  lemma {:induction false} RowsAreTheRun(env: Env, actions: seq<Action>, h: string)
    ensures h in Run(env, INIT, actions).db <==>
              exists k: nat :: k < |actions| && actions[k].Issue? && env.credentialHash(actions[k].cred) == h
    ensures h in Run(env, INIT, actions).db ==> RowOfRun(env, actions, h, Run(env, INIT, actions).db[h])
    decreases |actions|
  {
    hide Run, Next, RowOfRun;
    if actions == [] {
      EmptyRun(env);
    } else {
      var front, a := actions[..|actions| - 1], actions[|actions| - 1];
      var n := |front|;
      assert front + [a] == actions;
      RowsAreTheRun(env, front, h);
      RunSnoc(env, INIT, front, a);
      RowStep(env, Run(env, INIT, front), a, h);
      assert forall k: nat :: k < n ==> actions[k] == front[k];
      if h in Run(env, INIT, front).db {
        RowStays(env, front, a, h);
        var k: nat :| k < n && front[k].Issue? && env.credentialHash(front[k].cred) == h;
        assert actions[k] == front[k];
      } else if a.Issue? && env.credentialHash(a.cred) == h {
        NewRowOfRun(env, front, a, h);
        assert actions[n] == a;
      }
    }
  }

  lemma {:induction false} EmptyRun(env: Env)
    ensures Run(env, INIT, []) == INIT
  {}

  lemma {:induction false} NewRowOfRun(env: Env, actions: seq<Action>, a: Action, h: string)
    requires a.Issue? && env.credentialHash(a.cred) == h && h !in Run(env, INIT, actions).db
    ensures h in Run(env, INIT, actions + [a]).db && RowOfRun(env, actions + [a], h, Run(env, INIT, actions + [a]).db[h])
  {
    var all, n := actions + [a], |actions|;
    RunSnoc(env, INIT, actions, a);
    LastStep(env, actions, a);
    var row := Run(env, INIT, all).db[h];
    assert IssuedAtStep(env, all, h, row, n);
    forall k: nat ensures !RevokedAtStep(env, all, h, row, k) {
      if k < n && h in StateAt(env, all, k).db {
        assert all[..k] == actions[..k] && actions == actions[..k] + actions[k..];
        RunAppend(env, INIT, actions[..k], actions[k..]);
        RowsStay(env, StateAt(env, all, k), actions[k..], h);
      }
    }
  }

  lemma {:induction false} RowsStay(env: Env, s: State, actions: seq<Action>, h: string)
    requires h in s.db
    ensures h in Run(env, s, actions).db
    decreases |actions|
  {
    if actions != [] { RowsStay(env, Next(env, s, actions[0]), actions[1..], h); }
  }
}
