/** `/internal/v1/resolve`: a time-limited cache in front of revocable credentials, with concurrent
  * lookups, database failures, timeouts and evictions. Every interleaving is a list of actions. */
module ResolveCache {
  import opened Common

  type Time = nat
  type Credential = string

  datatype Identity = Identity(tenant: string, application: string, environment: string, integration: string)

  /** One `integrations` row. `status` is `active` until `revokedAt` is set, and never goes back. */
  datatype Row = Row(identity: Identity, issuedAt: Time, revokedAt: Option<Time>)

  /** `cred` and `readAt` are history: no step reads them. */
  datatype Entry = Entry(identity: Identity, insertedAt: Time, cred: Credential, readAt: Time)

  datatype Input = Input(bearer: Option<string>, body: Option<Credential>)

  datatype Reason = MissingToken | TokenReviewFailed | MalformedBody | CredentialRejected | Timeout

  datatype Request =
    | Received(input: Input)
    | Looking(cred: Credential, startedAt: Time)
    | Returning(cred: Credential, startedAt: Time, readAt: Time, found: Option<Identity>)
    | Done

  /** `r`, the request that is answered, is history: no step reads it. */
  datatype Answer =
    | Allowed(r: nat, cred: Credential, identity: Identity, at: Time)
    | Denied(r: nat, reason: Reason, at: Time)

  /** `cacheKey` and `credentialHash` are the two digests of a presented credential. */
  datatype Env = Env(ttl: Time, resolveTimeout: Time, cacheKey: Credential -> string, credentialHash: Credential -> string)

  ghost predicate Collides(digest: Credential -> string, a: Credential, b: Credential) { a != b && digest(a) == digest(b) }

  ghost predicate CollisionFree(env: Env) {
    forall a: Credential, b: Credential :: !Collides(env.cacheKey, a, b) && !Collides(env.credentialHash, a, b)
  }

  datatype State = State(
    now: Time,
    db: map<string, Row>,
    cache: map<string, Entry>,
    requests: map<nat, Request>,
    answers: seq<Answer>)

  datatype Action =
    | Tick(elapsed: Time)
    | Issue(cred: Credential, identity: Identity)
    | Revoke(integration: string)
    | Arrive(r: nat, input: Input)
    | Begin(r: nat, tokenOk: bool)
    | Query(r: nat, dbFails: bool)
    | Return(r: nat)
    | Expire(r: nat)
    | Evict(key: string)

  const INIT := State(0, map[], map[], map[], [])

  function Respond(s: State, r: nat, a: Answer): State {
    s.(requests := s.requests[r := Done], answers := s.answers + [a])
  }

  predicate Live(env: Env, e: Entry, now: Time) { now < e.insertedAt + env.ttl }

  /** The credential lookup: a row counts only while its status is `active`; an error is a rejection. */
  function Lookup(env: Env, db: map<string, Row>, cred: Credential, dbFails: bool): Option<Identity> {
    var h := env.credentialHash(cred);
    if !dbFails && h in db && db[h].revokedAt.None? then Some(db[h].identity) else None
  }

  /** From the checks on the request to the cache probe and the start of the lookup. */
  function Started(env: Env, s: State, r: nat, input: Input, tokenOk: bool): State {
    if input.bearer.None? then Respond(s, r, Denied(r, MissingToken, s.now))
    else if !tokenOk then Respond(s, r, Denied(r, TokenReviewFailed, s.now))
    else if input.body.None? then Respond(s, r, Denied(r, MalformedBody, s.now))
    else
      var cred := input.body.value;
      var key := env.cacheKey(cred);
      if key in s.cache && Live(env, s.cache[key], s.now) then
        Respond(s, r, Allowed(r, cred, s.cache[key].identity, s.now))
      else s.(requests := s.requests[r := Looking(cred, s.now)])
  }

  /** The lookup's answer is back in time: only a found identity is cached. */
  function Returned(env: Env, s: State, r: nat, q: Request): State
    requires q.Returning?
  {
    match q.found
    case None => Respond(s, r, Denied(r, CredentialRejected, s.now))
    case Some(id) =>
      var cached := s.(cache := s.cache[env.cacheKey(q.cred) := Entry(id, s.now, q.cred, q.readAt)]);
      Respond(cached, r, Allowed(r, q.cred, id, s.now))
  }

  function Revoked(s: State, integration: string): State {
    s.(db := map h | h in s.db ::
      if s.db[h].identity.integration == integration && s.db[h].revokedAt.None? then s.db[h].(revokedAt := Some(s.now))
      else s.db[h])
  }

  /** One step; an action that is not enabled changes nothing. */
  function Next(env: Env, s: State, a: Action): State {
    match a
    case Tick(d) => s.(now := s.now + d)
    case Issue(cred, identity) =>
      var h := env.credentialHash(cred);
      if h in s.db then s else s.(db := s.db[h := Row(identity, s.now, None)])
    case Revoke(integration) => Revoked(s, integration)
    case Arrive(r, input) => if r in s.requests then s else s.(requests := s.requests[r := Received(input)])
    case Begin(r, tokenOk) =>
      if r in s.requests && s.requests[r].Received? then Started(env, s, r, s.requests[r].input, tokenOk) else s
    case Query(r, dbFails) =>
      if r in s.requests && s.requests[r].Looking? then
        var q := s.requests[r];
        s.(requests := s.requests[r := Returning(q.cred, q.startedAt, s.now, Lookup(env, s.db, q.cred, dbFails))])
      else s
    case Return(r) =>
      if r in s.requests && s.requests[r].Returning? && s.now <= s.requests[r].startedAt + env.resolveTimeout then
        Returned(env, s, r, s.requests[r])
      else s
    case Expire(r) =>
      if r in s.requests && (s.requests[r].Looking? || s.requests[r].Returning?)
         && s.requests[r].startedAt + env.resolveTimeout <= s.now then
        Respond(s, r, Denied(r, Timeout, s.now))
      else s
    case Evict(key) => s.(cache := s.cache - {key})
  }

  function Run(env: Env, s: State, actions: seq<Action>): State
    decreases |actions|
  {
    if actions == [] then s else Run(env, Next(env, s, actions[0]), actions[1..])
  }

  // ---------- The invariant ----------

  predicate ActiveAt(row: Row, u: Time) {
    row.issuedAt <= u && (row.revokedAt.Some? ==> u <= row.revokedAt.value)
  }

  /** `cred` resolved to `identity` at the instant `u`. */
  predicate WasActive(env: Env, db: map<string, Row>, cred: Credential, identity: Identity, u: Time) {
    var h := env.credentialHash(cred);
    h in db && db[h].identity == identity && ActiveAt(db[h], u)
  }

  /** How old the knowledge behind an answer may be. */
  predicate WithinBound(env: Env, u: Time, at: Time) {
    u <= at && (at <= u + env.resolveTimeout || at < u + env.resolveTimeout + env.ttl)
  }

  ghost predicate Justified(env: Env, db: map<string, Row>, a: Answer) {
    a.Allowed? ==> exists u: Time :: WasActive(env, db, a.cred, a.identity, u) && WithinBound(env, u, a.at)
  }

  ghost predicate EntryOk(env: Env, s: State, key: string, e: Entry) {
    && key == env.cacheKey(e.cred)
    && e.readAt <= e.insertedAt <= s.now && e.insertedAt <= e.readAt + env.resolveTimeout
    && WasActive(env, s.db, e.cred, e.identity, e.readAt)
  }

  ghost predicate RequestOk(env: Env, s: State, q: Request) {
    match q
    case Looking(_, startedAt) => startedAt <= s.now
    case Returning(cred, startedAt, readAt, found) =>
      startedAt <= readAt <= s.now && (found.Some? ==> WasActive(env, s.db, cred, found.value, readAt))
    case _ => true
  }

  ghost predicate Inv(env: Env, s: State) {
    && (forall h :: h in s.db ==> s.db[h].issuedAt <= s.now && (s.db[h].revokedAt.Some? ==> s.db[h].revokedAt.value <= s.now))
    && (forall k :: k in s.cache ==> EntryOk(env, s, k, s.cache[k]))
    && (forall r :: r in s.requests ==> RequestOk(env, s, s.requests[r]))
    && (forall a :: a in s.answers ==> Justified(env, s.db, a))
  }

  /** A step keeps everything that was ever known: rows only gain a revocation, not before now. */
  ghost predicate KeepsFacts(env: Env, db: map<string, Row>, db': map<string, Row>, now: Time) {
    forall h :: h in db ==>
      && h in db' && db'[h].identity == db[h].identity && db'[h].issuedAt == db[h].issuedAt
      && (db[h].revokedAt.Some? ==> db'[h].revokedAt == db[h].revokedAt)
      && (db[h].revokedAt.None? && db'[h].revokedAt.Some? ==> db'[h].revokedAt.value == now)
  }

  lemma {:induction false} FactsStay(env: Env, db: map<string, Row>, db': map<string, Row>, now: Time, cred: Credential, identity: Identity, u: Time)
    requires KeepsFacts(env, db, db', now) && u <= now && WasActive(env, db, cred, identity, u)
    ensures WasActive(env, db', cred, identity, u)
  {}

  lemma {:induction false} JustifiedStays(env: Env, db: map<string, Row>, db': map<string, Row>, now: Time, a: Answer)
    requires KeepsFacts(env, db, db', now) && Justified(env, db, a) && (a.Allowed? ==> a.at <= now)
    ensures Justified(env, db', a)
  {
    if a.Allowed? {
      var u: Time :| WasActive(env, db, a.cred, a.identity, u) && WithinBound(env, u, a.at);
      FactsStay(env, db, db', now, a.cred, a.identity, u);
    }
  }

  ghost predicate PastAnswers(s: State) {
    forall a :: a in s.answers ==> a.at <= s.now
  }

  /** Steps that only touch the database or the clock. */
  lemma {:induction false} DbStepKeepsInv(env: Env, s: State, s': State)
    requires Inv(env, s) && PastAnswers(s)
    requires s'.cache == s.cache && s'.requests == s.requests && s'.answers == s.answers && s.now <= s'.now
    requires KeepsFacts(env, s.db, s'.db, s.now)
    requires forall h :: h in s'.db ==> s'.db[h].issuedAt <= s'.now && (s'.db[h].revokedAt.Some? ==> s'.db[h].revokedAt.value <= s'.now)
    ensures Inv(env, s') && PastAnswers(s')
  {
    forall k | k in s'.cache ensures EntryOk(env, s', k, s'.cache[k]) {
      var e := s.cache[k];
      assert EntryOk(env, s, k, e);
      FactsStay(env, s.db, s'.db, s.now, e.cred, e.identity, e.readAt);
    }
    forall r | r in s'.requests ensures RequestOk(env, s', s'.requests[r]) {
      var q := s.requests[r];
      assert RequestOk(env, s, q);
      if q.Returning? && q.found.Some? { FactsStay(env, s.db, s'.db, s.now, q.cred, q.found.value, q.readAt); }
    }
    forall a | a in s'.answers ensures Justified(env, s'.db, a) {
      JustifiedStays(env, s.db, s'.db, s.now, a);
    }
  }

  lemma {:induction false} RespondKeepsInv(env: Env, s: State, r: nat, a: Answer)
    requires Inv(env, s) && PastAnswers(s) && Justified(env, s.db, a) && a.at == s.now
    ensures Inv(env, Respond(s, r, a)) && PastAnswers(Respond(s, r, a))
  {
    var s' := Respond(s, r, a);
    forall k | k in s'.cache ensures EntryOk(env, s', k, s'.cache[k]) { assert EntryOk(env, s, k, s.cache[k]); }
    forall x | x in s'.requests ensures RequestOk(env, s', s'.requests[x]) {
      if x != r { assert RequestOk(env, s, s.requests[x]); }
    }
  }

  lemma {:induction false} RequestStepKeepsInv(env: Env, s: State, r: nat, q: Request)
    requires Inv(env, s) && PastAnswers(s) && RequestOk(env, s, q)
    ensures Inv(env, s.(requests := s.requests[r := q])) && PastAnswers(s.(requests := s.requests[r := q]))
  {
    var s' := s.(requests := s.requests[r := q]);
    forall k | k in s'.cache ensures EntryOk(env, s', k, s'.cache[k]) { assert EntryOk(env, s, k, s.cache[k]); }
    forall x | x in s'.requests ensures RequestOk(env, s', s'.requests[x]) {
      if x != r { assert RequestOk(env, s, s.requests[x]); }
    }
  }

  lemma {:induction false} StartedKeepsInv(env: Env, s: State, r: nat, input: Input, tokenOk: bool)
    requires CollisionFree(env) && Inv(env, s) && PastAnswers(s)
    ensures Inv(env, Started(env, s, r, input, tokenOk)) && PastAnswers(Started(env, s, r, input, tokenOk))
  {
    if input.bearer.None? { RespondKeepsInv(env, s, r, Denied(r, MissingToken, s.now)); }
    else if !tokenOk { RespondKeepsInv(env, s, r, Denied(r, TokenReviewFailed, s.now)); }
    else if input.body.None? { RespondKeepsInv(env, s, r, Denied(r, MalformedBody, s.now)); }
    else {
      var cred := input.body.value;
      var key := env.cacheKey(cred);
      if key in s.cache && Live(env, s.cache[key], s.now) {
        var e := s.cache[key];
        assert EntryOk(env, s, key, e);
        assert !Collides(env.cacheKey, cred, e.cred);
        assert WasActive(env, s.db, cred, e.identity, e.readAt) && WithinBound(env, e.readAt, s.now);
        RespondKeepsInv(env, s, r, Allowed(r, cred, e.identity, s.now));
      } else {
        RequestStepKeepsInv(env, s, r, Looking(cred, s.now));
      }
    }
  }

  lemma {:induction false} ReturnedKeepsInv(env: Env, s: State, r: nat, q: Request)
    requires Inv(env, s) && PastAnswers(s) && q.Returning? && RequestOk(env, s, q) && s.now <= q.startedAt + env.resolveTimeout
    ensures Inv(env, Returned(env, s, r, q)) && PastAnswers(Returned(env, s, r, q))
  {
    match q.found
    case None => RespondKeepsInv(env, s, r, Denied(r, CredentialRejected, s.now));
    case Some(id) =>
      var e := Entry(id, s.now, q.cred, q.readAt);
      var cached := s.(cache := s.cache[env.cacheKey(q.cred) := e]);
      forall k | k in cached.cache ensures EntryOk(env, cached, k, cached.cache[k]) {
        if k != env.cacheKey(q.cred) { assert EntryOk(env, s, k, s.cache[k]); }
      }
      forall x | x in cached.requests ensures RequestOk(env, cached, cached.requests[x]) {
        assert RequestOk(env, s, s.requests[x]);
      }
      assert WasActive(env, s.db, q.cred, id, q.readAt) && WithinBound(env, q.readAt, s.now);
      RespondKeepsInv(env, cached, r, Allowed(r, q.cred, id, s.now));
  }

  lemma {:induction false} NextKeepsInv(env: Env, s: State, a: Action)
    requires CollisionFree(env) && Inv(env, s) && PastAnswers(s)
    ensures Inv(env, Next(env, s, a)) && PastAnswers(Next(env, s, a))
  {
    match a
    case Tick(d) => DbStepKeepsInv(env, s, Next(env, s, a));
    case Issue(cred, identity) => DbStepKeepsInv(env, s, Next(env, s, a));
    case Revoke(integration) => DbStepKeepsInv(env, s, Next(env, s, a));
    case Arrive(r, input) => if r !in s.requests { RequestStepKeepsInv(env, s, r, Received(input)); }
    case Begin(r, tokenOk) =>
      if r in s.requests && s.requests[r].Received? { StartedKeepsInv(env, s, r, s.requests[r].input, tokenOk); }
    case Query(r, dbFails) =>
      if r in s.requests && s.requests[r].Looking? {
        var q := s.requests[r];
        assert RequestOk(env, s, q);
        RequestStepKeepsInv(env, s, r, Returning(q.cred, q.startedAt, s.now, Lookup(env, s.db, q.cred, dbFails)));
      }
    case Return(r) =>
      if r in s.requests && s.requests[r].Returning? && s.now <= s.requests[r].startedAt + env.resolveTimeout {
        ReturnedKeepsInv(env, s, r, s.requests[r]);
      }
    case Expire(r) =>
      if Next(env, s, a) != s { RespondKeepsInv(env, s, r, Denied(r, Timeout, s.now)); }
    case Evict(key) =>
      var s' := Next(env, s, a);
      forall k | k in s'.cache ensures EntryOk(env, s', k, s'.cache[k]) { assert EntryOk(env, s, k, s.cache[k]); }
      forall r | r in s'.requests ensures RequestOk(env, s', s'.requests[r]) { assert RequestOk(env, s, s.requests[r]); }
  }

  lemma {:induction false} RunKeepsInv(env: Env, s: State, actions: seq<Action>)
    requires CollisionFree(env) && Inv(env, s) && PastAnswers(s)
    ensures Inv(env, Run(env, s, actions)) && PastAnswers(Run(env, s, actions))
    decreases |actions|
  {
    if actions != [] {
      NextKeepsInv(env, s, actions[0]);
      RunKeepsInv(env, Next(env, s, actions[0]), actions[1..]);
    }
  }

  // ---------- The results ----------

  /** Over every interleaving: an allowed answer names the identity the database holds for that very
    * credential, which was active at an instant no older than the cache TTL plus the lookup timeout;
    * so nothing is allowed past revocation plus that bound. */
  lemma {:induction false} RevocationBound(env: Env, actions: seq<Action>, a: Answer)
    requires CollisionFree(env) && a in Run(env, INIT, actions).answers && a.Allowed?
    ensures var row := Run(env, INIT, actions).db;
            var h := env.credentialHash(a.cred);
            && h in row && row[h].identity == a.identity
            && (exists u: Time :: ActiveAt(row[h], u) && WithinBound(env, u, a.at))
            && (row[h].revokedAt.Some? && env.ttl > 0 ==> a.at < row[h].revokedAt.value + env.resolveTimeout + env.ttl)
  {
    RunKeepsInv(env, INIT, actions);
    var db := Run(env, INIT, actions).db;
    var u: Time :| WasActive(env, db, a.cred, a.identity, u) && WithinBound(env, u, a.at);
  }

  /** A revocation is final: no continuation of a run touches its time or brings the row back. */
  lemma {:induction false} RevocationIsFinal(env: Env, s: State, actions: seq<Action>, h: string)
    requires h in s.db && s.db[h].revokedAt.Some?
    ensures h in Run(env, s, actions).db && Run(env, s, actions).db[h] == s.db[h]
    decreases |actions|
  {
    if actions != [] {
      assert h in Next(env, s, actions[0]).db && Next(env, s, actions[0]).db[h] == s.db[h];
      RevocationIsFinal(env, Next(env, s, actions[0]), actions[1..], h);
    }
  }

  function EntryAt(s: State, key: string): Option<Entry> { if key in s.cache then Some(s.cache[key]) else None }

  /** An entry of the cache changes only when it is evicted, or when a lookup of its own credential that found
    * an active row returns in time: no failed, rejected or timed-out lookup is ever remembered. */
  lemma {:induction false} OnlySuccessIsCached(env: Env, s: State, a: Action, key: string)
    requires Inv(env, s) && EntryAt(Next(env, s, a), key) != EntryAt(s, key)
    ensures || a == Evict(key)
            || (a.Return? && a.r in s.requests && s.requests[a.r].Returning? && s.requests[a.r].found.Some?
                && key == env.cacheKey(s.requests[a.r].cred) && s.now <= s.requests[a.r].startedAt + env.resolveTimeout
                && WasActive(env, s.db, s.requests[a.r].cred, s.requests[a.r].found.value, s.requests[a.r].readAt))
  {
    if a.Return? && a.r in s.requests { assert RequestOk(env, s, s.requests[a.r]); }
  }

  /** An outage is never pinned: whatever happened before, a new request for a credential whose row is
    * active is allowed as soon as its query is answered. */
  lemma {:induction false} OutageIsNotPinned(env: Env, actions: seq<Action>, cred: Credential, r: nat)
    requires CollisionFree(env)
    requires var s := Run(env, INIT, actions);
             r !in s.requests && env.credentialHash(cred) in s.db && s.db[env.credentialHash(cred)].revokedAt.None?
    ensures var s := Run(env, INIT, actions);
            var s' := Run(env, s, [Arrive(r, Input(Some(""), Some(cred))), Begin(r, true), Query(r, false), Return(r)]);
            s'.answers == s.answers + [Allowed(r, cred, s.db[env.credentialHash(cred)].identity, s.now)]
  {
    RunKeepsInv(env, INIT, actions);
    var s0 := Run(env, INIT, actions);
    var rest := [Arrive(r, Input(Some(""), Some(cred))), Begin(r, true), Query(r, false), Return(r)];
    var s1 := Next(env, s0, rest[0]);
    var s2 := Next(env, s1, rest[1]);
    var s3 := Next(env, s2, rest[2]);
    var s4 := Next(env, s3, rest[3]);
    RunOf4(env, s0, rest);
    var key := env.cacheKey(cred);
    if key in s0.cache && Live(env, s0.cache[key], s0.now) {
      assert EntryOk(env, s0, key, s0.cache[key]);
      assert !Collides(env.cacheKey, cred, s0.cache[key].cred);
    }
  }

  lemma {:induction false} RunOf4(env: Env, s: State, actions: seq<Action>)
    requires |actions| == 4
    ensures Run(env, s, actions) == Next(env, Next(env, Next(env, Next(env, s, actions[0]), actions[1]), actions[2]), actions[3])
  {
    assert Run(env, s, actions) == Run(env, Next(env, s, actions[0]), actions[1..]);
    var s1 := Next(env, s, actions[0]);
    assert Run(env, s1, actions[1..]) == Run(env, Next(env, s1, actions[1]), actions[1..][1..]);
    var s2 := Next(env, s1, actions[1]);
    assert actions[1..][1..] == actions[2..];
    assert Run(env, s2, actions[2..]) == Run(env, Next(env, s2, actions[2]), actions[2..][1..]);
    assert actions[2..][1..] == actions[3..];
    var s3 := Next(env, s2, actions[2]);
    assert Run(env, s3, actions[3..]) == Run(env, Next(env, s3, actions[3]), actions[3..][1..]);
  }

  lemma {:induction false} RunAppend(env: Env, s: State, a: seq<Action>, b: seq<Action>)
    ensures Run(env, s, a + b) == Run(env, Run(env, s, a), b)
    decreases |a|
  {
    if a == [] {
      assert a + b == b;
    } else {
      assert (a + b)[1..] == a[1..] + b;
      RunAppend(env, Next(env, s, a[0]), a[1..], b);
    }
  }

  /** The bound is exact: an answer one tick before it exists, for every TTL and timeout. */
  lemma {:induction false} BoundIsTight(env: Env, cred: Credential, id: Identity) returns (actions: seq<Action>)
    requires env.ttl > 0
    ensures var s := Run(env, INIT, actions);
            && env.credentialHash(cred) in s.db && s.db[env.credentialHash(cred)].revokedAt == Some(0)
            && Allowed(1, cred, id, env.resolveTimeout + env.ttl - 1) in s.answers
  {
    var input := Input(Some(""), Some(cred));
    var one := [Issue(cred, id), Arrive(0, input), Begin(0, true), Query(0, false)];
    var two := [Revoke(id.integration), Tick(env.resolveTimeout), Return(0), Tick(env.ttl - 1)];
    var three := [Arrive(1, input), Begin(1, true), Tick(0), Tick(0)];
    actions := one + (two + three);
    RunAppend(env, INIT, one, two + three);
    RunOf4(env, INIT, one);
    var s1 := Run(env, INIT, one);
    assert s1 == State(0, map[env.credentialHash(cred) := Row(id, 0, None)], map[], map[0 := Returning(cred, 0, 0, Some(id))], []);
    RunAppend(env, s1, two, three);
    RunOf4(env, s1, two);
    var s2 := Run(env, s1, two);
    assert s2.cache == map[env.cacheKey(cred) := Entry(id, env.resolveTimeout, cred, 0)];
    assert s2.now == env.resolveTimeout + env.ttl - 1;
    assert s2.db[env.credentialHash(cred)].revokedAt == Some(0);
    assert 1 !in s2.requests;
    RunOf4(env, s2, three);
  }
}
