/** The model catalogue cache of the editor extension: concurrent callers, one shared fetch per gateway,
  * per-caller cancellation, invalidation. Every interleaving of the event loop is a list of actions. */
module Catalogue {
  import opened Common

  type Time = nat
  type Gateway = string
  type Models = seq<string>

  /** `fetch` is history: which fetch produced the list. */
  datatype Cached = Cached(models: Models, at: Time, gateway: Gateway, fetch: nat)

  datatype Status = Running | Resolved(models: Models, at: Time) | Failed

  /** `settled` once the `finally` handler has run; callers hear from it only then. */
  datatype Fetch = Fetch(gateway: Gateway, status: Status, settled: bool)

  datatype InFlight = InFlight(gateway: Gateway, id: nat)

  datatype Source = Unconfigured | FromCache(fetch: nat, storedAt: Time, ttl: Time) | FromFetch(id: nat)

  /** `id` of a rejection is history: the fetch that failed. */
  datatype Caller =
    | Waiting(gateway: Gateway, id: nat)
    | Served(asked: Option<Gateway>, models: Models, at: Time, source: Source)
    | Rejected(id: nat)
    | Cancelled

  datatype State = State(now: Time, cache: Option<Cached>, inflight: Option<InFlight>, fetches: map<nat, Fetch>, callers: map<nat, Caller>)

  datatype Action =
    | Tick(elapsed: Time)
    | Call(c: nat, gateway: Option<Gateway>, ttl: Time, id: nat)
    | Respond(id: nat, models: Models)
    | Break(id: nat)
    | Finally(id: nat)
    | Deliver(c: nat)
    | Cancel(c: nat)
    | Invalidate

  const INIT := State(0, None, None, map[], map[])

  predicate Hit(s: State, gateway: Gateway, ttl: Time) {
    s.cache.Some? && s.cache.value.gateway == gateway && s.now < s.cache.value.at + ttl
  }

  /** The body of `fetchCatalogue` up to its first await; `id` names the promise it may create. */
  function Called(s: State, c: nat, gateway: Option<Gateway>, ttl: Time, id: nat): State {
    match gateway
    case None => s.(callers := s.callers[c := Served(None, [], s.now, Unconfigured)])
    case Some(g) =>
      if Hit(s, g, ttl) then
        var hit := s.cache.value;
        s.(callers := s.callers[c := Served(gateway, hit.models, s.now, FromCache(hit.fetch, hit.at, ttl))])
      else if s.inflight.Some? && s.inflight.value.gateway == g then
        s.(callers := s.callers[c := Waiting(g, s.inflight.value.id)])
      else
        s.(fetches := s.fetches[id := Fetch(g, Running, false)], inflight := Some(InFlight(g, id)),
           callers := s.callers[c := Waiting(g, id)])
  }

  function Delivered(s: State, c: nat, w: Caller): State
    requires w.Waiting? && w.id in s.fetches
  {
    var f := s.fetches[w.id];
    match f.status
    case Resolved(models, at) => s.(callers := s.callers[c := Served(Some(w.gateway), models, s.now, FromFetch(w.id))])
    case _ => s.(callers := s.callers[c := Rejected(w.id)])
  }

  /** One step; an action that is not enabled changes nothing. */
  function Next(s: State, a: Action): State {
    match a
    case Tick(d) => s.(now := s.now + d)
    case Call(c, gateway, ttl, id) => if c in s.callers || id in s.fetches then s else Called(s, c, gateway, ttl, id)
    case Respond(id, models) =>
      if id in s.fetches && s.fetches[id].status.Running? then
        var g := s.fetches[id].gateway;
        s.(fetches := s.fetches[id := s.fetches[id].(status := Resolved(models, s.now))], cache := Some(Cached(models, s.now, g, id)))
      else s
    case Break(id) =>
      if id in s.fetches && s.fetches[id].status.Running? then s.(fetches := s.fetches[id := s.fetches[id].(status := Failed)]) else s
    case Finally(id) =>
      if id in s.fetches && !s.fetches[id].status.Running? && !s.fetches[id].settled then
        s.(fetches := s.fetches[id := s.fetches[id].(settled := true)],
           inflight := if s.inflight.Some? && s.inflight.value.id == id then None else s.inflight)
      else s
    case Deliver(c) =>
      if c in s.callers && s.callers[c].Waiting? && s.callers[c].id in s.fetches && s.fetches[s.callers[c].id].settled then
        Delivered(s, c, s.callers[c])
      else s
    case Cancel(c) => if c in s.callers && s.callers[c].Waiting? then s.(callers := s.callers[c := Cancelled]) else s
    case Invalidate => s.(cache := None, inflight := None)
  }

  function Run(s: State, actions: seq<Action>): State
    decreases |actions|
  {
    if actions == [] then s else Run(Next(s, actions[0]), actions[1..])
  }

  // ---------- Nobody gets another gateway's models, nor stale ones ----------

  /** `models` is what `gateway` answered to fetch `id` at `at`. */
  predicate Answered(s: State, gateway: Gateway, models: Models, id: nat, at: Time) {
    id in s.fetches && s.fetches[id].gateway == gateway && s.fetches[id].status == Resolved(models, at) && at <= s.now
  }

  ghost predicate CallerOk(s: State, w: Caller) {
    match w
    case Waiting(g, id) => id in s.fetches && s.fetches[id].gateway == g
    case Served(asked, models, at, source) =>
      && at <= s.now
      && (asked.None? <==> source.Unconfigured?) && (asked.None? ==> models == [])
      && (source.FromCache? ==> Answered(s, asked.value, models, source.fetch, source.storedAt)
                                && source.storedAt <= at < source.storedAt + source.ttl)
      && (source.FromFetch? ==> exists when: Time :: Answered(s, asked.value, models, source.id, when) && when <= at)
    case Rejected(id) => id in s.fetches && s.fetches[id].status.Failed?
    case Cancelled => true
  }

  ghost predicate CacheOk(s: State) {
    s.cache.Some? ==> Answered(s, s.cache.value.gateway, s.cache.value.models, s.cache.value.fetch, s.cache.value.at)
  }

  /** What callers join is never a fetch that has settled. */
  ghost predicate InFlightOk(s: State) {
    s.inflight.Some? ==>
      var id := s.inflight.value.id;
      id in s.fetches && s.fetches[id].gateway == s.inflight.value.gateway && !s.fetches[id].settled
  }

  /** Nothing settles while it runs. */
  ghost predicate SettledOk(s: State) {
    forall id :: id in s.fetches && s.fetches[id].settled ==> !s.fetches[id].status.Running?
  }

  ghost predicate AnswersPast(s: State) {
    forall id :: id in s.fetches && s.fetches[id].status.Resolved? ==> s.fetches[id].status.at <= s.now
  }

  ghost predicate SharedOk(s: State) { CacheOk(s) && InFlightOk(s) && AnswersPast(s) && SettledOk(s) }

  ghost predicate Inv(s: State) {
    SharedOk(s) && forall c :: c in s.callers ==> CallerOk(s, s.callers[c])
  }

  /** Fetches are only added, and an answer, once there, stays. */
  ghost predicate Grows(s: State, s': State) {
    s.now <= s'.now && forall id :: id in s.fetches ==>
      && id in s'.fetches && s'.fetches[id].gateway == s.fetches[id].gateway
      && (!s.fetches[id].status.Running? ==> s'.fetches[id].status == s.fetches[id].status)
  }

  lemma {:induction false} CallerStaysOk(s: State, s': State, w: Caller)
    requires Grows(s, s') && CallerOk(s, w)
    ensures CallerOk(s', w)
  {
    if w.Served? && w.source.FromFetch? {
      var when: Time :| Answered(s, w.asked.value, w.models, w.source.id, when) && when <= w.at;
      assert Answered(s', w.asked.value, w.models, w.source.id, when);
    }
  }

  lemma {:induction false} SharedStaysOk(s: State, a: Action)
    requires SharedOk(s)
    ensures SharedOk(Next(s, a)) && Grows(s, Next(s, a))
  {
    hide Next, CacheOk, InFlightOk, AnswersPast, SettledOk, Grows;
    NextGrows(s, a);
    CacheStaysOk(s, a);
    InFlightStaysOk(s, a);
    AnswersStayPast(s, a);
    SettledStaysOk(s, a);
  }

  lemma {:induction false} SettledStaysOk(s: State, a: Action)
    requires SettledOk(s)
    ensures SettledOk(Next(s, a))
  {}

  lemma {:induction false} NextGrows(s: State, a: Action)
    ensures Grows(s, Next(s, a))
  {}

  lemma {:induction false} CacheStaysOk(s: State, a: Action)
    requires CacheOk(s)
    ensures CacheOk(Next(s, a))
  {}

  lemma {:induction false} InFlightStaysOk(s: State, a: Action)
    requires InFlightOk(s)
    ensures InFlightOk(Next(s, a))
  {}

  lemma {:induction false} AnswersStayPast(s: State, a: Action)
    requires AnswersPast(s)
    ensures AnswersPast(Next(s, a))
  {}

  /** The only caller a step can touch is the one it names. */
  lemma {:induction false} CallersUntouched(s: State, a: Action, x: nat)
    requires x in Next(s, a).callers
    ensures (x in s.callers && Next(s, a).callers[x] == s.callers[x])
            || (a.Call? && a.c == x && x !in s.callers) || ((a.Deliver? || a.Cancel?) && a.c == x && x in s.callers && s.callers[x].Waiting?)
  {}

  lemma {:induction false} CallOk(s: State, a: Action)
    requires SharedOk(s) && a.Call? && a.c !in s.callers && a.c in Next(s, a).callers
    ensures CallerOk(Next(s, a), Next(s, a).callers[a.c])
  {}

  lemma {:induction false} DeliverOk(s: State, a: Action)
    requires SharedOk(s) && a.Deliver? && a.c in s.callers && s.callers[a.c].Waiting? && CallerOk(s, s.callers[a.c])
    ensures CallerOk(Next(s, a), Next(s, a).callers[a.c])
  {
    var f := s.fetches[s.callers[a.c].id];
    if f.status.Resolved? { assert Answered(Next(s, a), f.gateway, f.status.models, s.callers[a.c].id, f.status.at); }
  }

  lemma {:induction false} NextKeepsInv(s: State, a: Action)
    requires Inv(s)
    ensures Inv(Next(s, a))
  {
    var s' := Next(s, a);
    SharedStaysOk(s, a);
    hide Next, SharedOk, CallerOk, Grows;
    forall x | x in s'.callers ensures CallerOk(s', s'.callers[x]) {
      CallersUntouched(s, a, x);
      if x in s.callers && s'.callers[x] == s.callers[x] { CallerStaysOk(s, s', s.callers[x]); }
      else if a.Call? { CallOk(s, a); }
      else if a.Deliver? { DeliverOk(s, a); }
      else { CancelOk(s, a); }
    }
  }

  lemma {:induction false} CancelOk(s: State, a: Action)
    requires a.Cancel? && a.c in s.callers && s.callers[a.c].Waiting?
    ensures CallerOk(Next(s, a), Next(s, a).callers[a.c])
  {}

  lemma {:induction false} RunKeepsInv(s: State, actions: seq<Action>)
    requires Inv(s)
    ensures Inv(Run(s, actions))
    decreases |actions|
  {
    hide Next, Inv;
    if actions != [] {
      NextKeepsInv(s, actions[0]);
      RunKeepsInv(Next(s, actions[0]), actions[1..]);
    }
  }

  /** Over every interleaving: a list handed to a caller was answered by the very gateway the caller asked
    * for, and one handed out from the cache is younger than the caller's TTL. */
  lemma {:induction false} ServedFromTheAskedGateway(actions: seq<Action>, c: nat)
    requires c in Run(INIT, actions).callers && Run(INIT, actions).callers[c].Served?
    ensures var s := Run(INIT, actions);
            var w := s.callers[c];
            && (w.asked.None? ==> w.models == [])
            && (w.asked.Some? ==> exists id: nat, when: Time :: Answered(s, w.asked.value, w.models, id, when) && when <= w.at)
            && (w.source.FromCache? ==> w.asked.Some? && w.at < w.source.storedAt + w.source.ttl
                                        && Answered(s, w.asked.value, w.models, w.source.fetch, w.source.storedAt))
  {
    RunKeepsInv(INIT, actions);
    var s := Run(INIT, actions);
    assert CallerOk(s, s.callers[c]);
  }

  /** Without a gateway a caller is answered at once, with nothing, and nothing is fetched. */
  lemma {:induction false} UnconfiguredIsServedNothing(s: State, c: nat, ttl: Time, id: nat)
    requires c !in s.callers && id !in s.fetches
    ensures Next(s, Call(c, None, ttl, id)) == s.(callers := s.callers[c := Served(None, [], s.now, Unconfigured)])
  {}

  /** A caller is turned away only if the fetch it waited for failed, and gives up only if it was told to. */
  lemma {:induction false} TurnedAwayForCause(actions: seq<Action>, c: nat)
    requires c in Run(INIT, actions).callers
    ensures var s := Run(INIT, actions); var w := s.callers[c];
            && (w.Rejected? ==> w.id in s.fetches && s.fetches[w.id].status.Failed?)
            && (w.Cancelled? ==> Cancel(c) in actions)
  {
    RunKeepsInv(INIT, actions);
    var s := Run(INIT, actions);
    assert CallerOk(s, s.callers[c]);
    if s.callers[c].Cancelled? { CancelledWasTold(INIT, actions, c); }
  }

  lemma {:induction false} CancelledWasTold(s: State, actions: seq<Action>, c: nat)
    requires c in Run(s, actions).callers && Run(s, actions).callers[c].Cancelled?
    ensures Cancel(c) in actions || (c in s.callers && s.callers[c].Cancelled?)
    decreases |actions|
  {
    if actions != [] {
      CancelledWasTold(Next(s, actions[0]), actions[1..], c);
      assert actions == [actions[0]] + actions[1..];
      if c in Next(s, actions[0]).callers { CallersUntouched(s, actions[0], c); }
    }
  }

  /** A failure reaches the caller that waits for it. */
  lemma {:induction false} FailureReachesItsCaller(s: State, c: nat)
    requires c in s.callers && s.callers[c].Waiting? && s.callers[c].id in s.fetches && s.fetches[s.callers[c].id].status.Running?
    requires !s.fetches[s.callers[c].id].settled
    ensures var id := s.callers[c].id;
            Run(s, [Break(id), Finally(id), Deliver(c)]).callers == s.callers[c := Rejected(id)]
  {
    var id := s.callers[c].id;
    var calls := [Break(id), Finally(id), Deliver(c)];
    assert calls[1..] == [calls[1], calls[2]] && calls[1..][1..] == [calls[2]];
    var s1 := Next(s, calls[0]);
    var s2 := Next(s1, calls[1]);
    assert Run(s2, [calls[2]]) == Run(Next(s2, calls[2]), []);
    assert Run(s1, [calls[1], calls[2]]) == Run(s2, [calls[2]]);
  }

  /** The cache changes only by an invalidation, or to what a running fetch has just been answered: a failure
    * never empties it. */
  lemma {:induction false} OnlyAnswersAreCached(s: State, a: Action)
    requires Next(s, a).cache != s.cache
    ensures || (a.Invalidate? && Next(s, a).cache.None?)
            || (a.Respond? && a.id in s.fetches && s.fetches[a.id].status.Running?
                && Next(s, a).cache == Some(Cached(a.models, s.now, s.fetches[a.id].gateway, a.id)))
  {}

  predicate KeepsCache(a: Action) { !a.Invalidate? && !a.Respond? }

  lemma {:induction false} CacheStays(s: State, actions: seq<Action>)
    requires forall a :: a in actions ==> KeepsCache(a)
    ensures Run(s, actions).cache == s.cache
    decreases |actions|
  {
    if actions != [] {
      assert actions[0] in actions;
      CacheStays(Next(s, actions[0]), actions[1..]);
    }
  }

  /** Until the TTL is over, what a gateway answered is served without another fetch. */
  lemma {:induction false} FreshIsServed(s: State, id: nat, models: Models, actions: seq<Action>, c: nat, ttl: Time, next: nat)
    requires id in s.fetches && s.fetches[id].status.Running? && forall a :: a in actions ==> KeepsCache(a)
    requires var s' := Run(Next(s, Respond(id, models)), actions); c !in s'.callers && next !in s'.fetches && s'.now < s.now + ttl
    ensures var s' := Run(Next(s, Respond(id, models)), actions);
            var after := Next(s', Call(c, Some(s.fetches[id].gateway), ttl, next));
            && after.fetches == s'.fetches && after.inflight == s'.inflight
            && after.callers == s'.callers[c := Served(Some(s.fetches[id].gateway), models, s'.now, FromCache(id, s.now, ttl))]
  {
    CacheStays(Next(s, Respond(id, models)), actions);
  }

  /** An outage does not stick: whatever happened before, a caller that finds neither a fresh answer nor a
    * fetch to join starts one, and is served what that fetch is answered. */
  lemma {:induction false} OutageDoesNotStick(actions: seq<Action>, c: nat, g: Gateway, ttl: Time, id: nat, models: Models)
    requires var s := Run(INIT, actions);
             && c !in s.callers && id !in s.fetches && !Hit(s, g, ttl)
             && (forall x :: x in s.fetches && s.fetches[x].gateway == g ==> s.fetches[x].settled)
    ensures var s := Run(INIT, actions);
            var s' := Run(s, [Call(c, Some(g), ttl, id), Respond(id, models), Finally(id), Deliver(c)]);
            s'.callers == s.callers[c := Served(Some(g), models, s.now, FromFetch(id))]
  {
    RunKeepsInv(INIT, actions);
    var s := Run(INIT, actions);
    var calls := [Call(c, Some(g), ttl, id), Respond(id, models), Finally(id), Deliver(c)];
    assert calls[1..] == [calls[1], calls[2], calls[3]] && calls[1..][1..] == [calls[2], calls[3]] && calls[1..][1..][1..] == [calls[3]];
    var s1 := Next(s, calls[0]);
    var s2 := Next(s1, calls[1]);
    var s3 := Next(s2, calls[2]);
    assert s1.callers == s.callers[c := Waiting(g, id)] && s1.fetches == s.fetches[id := Fetch(g, Running, false)];
    assert Run(s3, [calls[3]]) == Run(Next(s3, calls[3]), []);
    assert Run(s2, [calls[2], calls[3]]) == Run(s3, [calls[3]]);
    assert Run(s1, [calls[1], calls[2], calls[3]]) == Run(s2, [calls[2], calls[3]]);
  }

  // ---------- Single flight ----------

  /** An action that neither invalidates nor asks for another gateway. */
  predicate Steady(a: Action, g: Gateway) { !a.Invalidate? && (a.Call? ==> a.gateway == Some(g)) }

  /** Every fetch started since `base` that is not settled is the one callers join. */
  ghost predicate SingleFlight(s: State, base: set<nat>, g: Gateway) {
    forall id :: id in s.fetches && id !in base && !s.fetches[id].settled ==> s.inflight == Some(InFlight(g, id))
  }

  predicate UnsettledSince(s: State, s': State, id: nat) {
    id in s'.fetches && id !in s.fetches && !s'.fetches[id].settled
  }

  lemma {:induction false} NextKeepsSingleFlight(s: State, base: set<nat>, g: Gateway, a: Action)
    requires SingleFlight(s, base, g) && Steady(a, g)
    ensures SingleFlight(Next(s, a), base, g)
  {}

  /** Between invalidations and gateway changes at most one fetch is in flight, however many callers come:
    * from any state, of the fetches started since, no two are unsettled at once. */
  lemma {:induction false} AtMostOneFetch(s: State, actions: seq<Action>, g: Gateway)
    requires forall a :: a in actions ==> Steady(a, g)
    ensures var s' := Run(s, actions);
            forall x, y :: UnsettledSince(s, s', x) && UnsettledSince(s, s', y) ==> x == y
  {
    SteadyRun(s, s.fetches.Keys, actions, g);
  }

  lemma {:induction false} SteadyRun(s: State, base: set<nat>, actions: seq<Action>, g: Gateway)
    requires SingleFlight(s, base, g) && forall a :: a in actions ==> Steady(a, g)
    ensures SingleFlight(Run(s, actions), base, g)
    decreases |actions|
  {
    if actions != [] {
      assert actions[0] in actions;
      NextKeepsSingleFlight(s, base, g, actions[0]);
      SteadyRun(Next(s, actions[0]), base, actions[1..], g);
    }
  }

  // ---------- What an invalidation keeps out, exactly when ----------

  /** A caller that arrived after `s` was served the result of a fetch that had started by then. */
  ghost predicate ServedOld(s: State, s': State, c: nat) {
    c in s'.callers && c !in s.callers && s'.callers[c].Served? &&
    match s'.callers[c].source
    case Unconfigured => false
    case FromCache(fetch, _, _) => fetch in s.fetches
    case FromFetch(id) => id in s.fetches
  }

  predicate NoneRunning(s: State) { forall id :: id in s.fetches ==> !s.fetches[id].status.Running? }

  /** Nothing a new caller can reach leads back to a fetch from before. */
  ghost predicate Separate(s: State, s': State) {
    SharedSeparate(s, s') && CallersSeparate(s, s')
  }

  ghost predicate SharedSeparate(s: State, s': State) {
    && (forall id :: id in s.fetches ==> id in s'.fetches && !s'.fetches[id].status.Running?)
    && (s'.cache.Some? ==> s'.cache.value.fetch !in s.fetches)
    && (s'.inflight.Some? ==> s'.inflight.value.id !in s.fetches)
  }

  ghost predicate CallersSeparate(s: State, s': State) {
    && (forall c :: c in s.callers ==> c in s'.callers)
    && (forall c :: c in s'.callers && c !in s.callers && s'.callers[c].Waiting? ==> s'.callers[c].id !in s.fetches)
    && (forall c :: !ServedOld(s, s', c))
  }

  lemma {:induction false} NextKeepsSeparate(s: State, s': State, a: Action)
    requires Separate(s, s')
    ensures Separate(s, Next(s', a))
  {
    hide CallersSeparate;
    SeparateCallers(s, s', a);
  }

  lemma {:induction false} SeparateCallers(s: State, s': State, a: Action)
    requires Separate(s, s')
    ensures CallersSeparate(s, Next(s', a))
  {
    var s'' := Next(s', a);
    forall x ensures !ServedOld(s, s'', x) && (x in s''.callers && x !in s.callers && s''.callers[x].Waiting? ==> s''.callers[x].id !in s.fetches) {
      if x in s''.callers && x !in s.callers {
        CallersUntouched(s', a, x);
        assert !ServedOld(s, s', x);
      }
    }
  }

  lemma {:induction false} RunKeepsSeparate(s: State, s': State, actions: seq<Action>)
    requires Separate(s, s')
    ensures Separate(s, Run(s', actions))
    decreases |actions|
  {
    hide Next, Separate;
    if actions != [] {
      NextKeepsSeparate(s, s', actions[0]);
      RunKeepsSeparate(s, Next(s', actions[0]), actions[1..]);
    }
  }

  ghost predicate KeptOut(s: State, actions: seq<Action>, c: nat) {
    !ServedOld(s, Run(Next(s, Invalidate), actions), c)
  }

  /** Invalidation keeps every result that was already under way from all later callers if and only if no
    * fetch is running at that moment: one that is will still be stored, and then served. */
  lemma {:induction false} InvalidationDiscardsIff(s: State)
    requires Inv(s)
    ensures (forall actions: seq<Action>, c: nat :: KeptOut(s, actions, c)) <==> NoneRunning(s)
  {
    var s0 := Next(s, Invalidate);
    if NoneRunning(s) {
      assert Separate(s, s0);
      forall actions: seq<Action>, c: nat ensures KeptOut(s, actions, c) {
        RunKeepsSeparate(s, s0, actions);
      }
    } else {
      var id :| id in s.fetches && s.fetches[id].status.Running?;
      var c := Unused(s.callers.Keys);
      var spare := Unused(s.fetches.Keys);
      var g := s.fetches[id].gateway;
      var respond, call := Respond(id, []), Call(c, Some(g), 1, spare);
      var s1 := Next(s0, respond);
      var s2 := Next(s1, call);
      assert s1.fetches.Keys == s.fetches.Keys;
      assert Hit(s1, g, 1);
      assert ServedOld(s, s2, c);
      var actions := [respond, call];
      assert actions[1..] == [call] && [call][1..] == [];
      assert Run(s0, actions) == Run(s1, [call]) == Run(s2, []) == s2;
      assert !KeptOut(s, actions, c);
    }
  }

  ghost function Unused(used: set<nat>): (n: nat)
    ensures n !in used
  {
    Above(used)
  }

  ghost function Above(used: set<nat>): (n: nat)
    ensures forall x :: x in used ==> x < n
  {
    if used == {} then 0
    else
      var x :| x in used;
      var n := Above(used - {x});
      assert forall y :: y in used ==> y == x || y in used - {x};
      if x < n then n else x + 1
  }
}
