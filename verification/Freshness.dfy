/** When a cached access token is handed out and when it is renewed
  * (app/governance-auth/src/freshness.rs, app/governance-auth/src/oauth/mod.rs,
  * app/governance-auth/src/oauth/token_endpoint.rs). Times are Unix seconds in 64 bits. */
module Freshness {
  import opened Common

  const Max: nat := 0xFFFF_FFFF_FFFF_FFFF
  type U64 = n: nat | n <= Max

  function SatAdd(a: U64, b: U64): U64 { if a + b <= Max then a + b else Max }

  const Skew: U64 := 30

  /** Used at once, or kept by the caller for `window` seconds. */
  datatype Policy = Immediate | OutlivesCache(window: U64)

  function ForHelper(debounceMs: U64): Policy { OutlivesCache(debounceMs / 1000) }

  datatype Session = Session(expiresAt: U64, lifetime: Option<U64>)

  function Cap(lifetime: U64): U64 { if lifetime / 2 >= Skew then lifetime / 2 else Skew }

  function RequiredRemaining(policy: Policy, session: Session): U64 {
    match policy
    case Immediate => Skew
    case OutlivesCache(window) =>
      var required := SatAdd(window, Skew);
      match session.lifetime
      case None => required
      case Some(lifetime) => if required <= Cap(lifetime) then required else Cap(lifetime)
  }

  predicate IsFreshFor(session: Session, now: U64, remaining: U64) {
    session.expiresAt > SatAdd(now, remaining)
  }

  predicate Usable(policy: Policy, session: Session, now: U64) {
    IsFreshFor(session, now, RequiredRemaining(policy, session))
  }

  /** A token response stamped at `now`; an absent lifetime counts as a minute. */
  function IntoSession(now: U64, expiresIn: Option<U64>): Session {
    var lifetime := if expiresIn.Some? then expiresIn.value else 60;
    Session(SatAdd(now, lifetime), Some(lifetime))
  }

  // ---------------------------------------------------------------- one call

  /** A helper call: when it looks at the clock, what it needs, and the token endpoint's reply
    * should it ask for one, stamped when the reply is read. */
  datatype Call = Call(now: U64, policy: Policy, reply: Option<Reply>)

  datatype Reply = Reply(stamp: U64, expiresIn: Option<U64>)

  datatype Outcome = Cached | Refreshed(session: Session) | Failed

  function CurrentSession(session: Session, call: Call): Outcome {
    if Usable(call.policy, session, call.now) then Cached
    else
      match call.reply
      case None => Failed
      case Some(reply) => Refreshed(IntoSession(reply.stamp, reply.expiresIn))
  }

  /** The session's whole lifetime still fits the clock. */
  predicate Unsaturated(stamp: U64, lifetime: U64) { stamp + lifetime <= Max }

  /** The exact instant from which a token is renewed rather than handed out, for every session and clock,
    * saturated or not. Used at once, it needs 30 seconds; kept for a window, 30 seconds beyond it, but no
    * more than half of the lifetime it was issued with, where that is known and at least 30 seconds. */
  lemma {:induction false} RenewedIff(policy: Policy, session: Session, now: U64)
    ensures !Usable(policy, session, now) <==>
            var left := session.expiresAt - now;
            match policy
            case Immediate => left <= 30
            case OutlivesCache(window) =>
              left <= window + 30 && (session.lifetime.Some? ==> left <= 30 || 2 * left <= session.lifetime.value)
  {}

  /** A freshly minted token is usable at once under every policy if and only if it lives longer
    * than the skew: only then does no cache window cause a refresh on every call. */
  lemma {:induction false} MintedIsUsableIff(stamp: U64, lifetime: U64)
    requires Unsaturated(stamp, lifetime)
    ensures (forall policy :: Usable(policy, IntoSession(stamp, Some(lifetime)), stamp)) <==> lifetime > Skew
  {
    forall policy | lifetime > Skew ensures Usable(policy, IntoSession(stamp, Some(lifetime)), stamp) {
      RenewedIff(policy, IntoSession(stamp, Some(lifetime)), stamp);
    }
    RenewedIff(Immediate, IntoSession(stamp, Some(lifetime)), stamp);
  }

  // ---------------------------------------------------------------- refresh rate

  datatype Renewal = Renewal(decided: U64, stamp: U64, lifetime: U64)

  function Renewals(session: Session, calls: seq<Call>): seq<Renewal>
    decreases |calls|
  {
    if calls == [] then []
    else
      match CurrentSession(session, calls[0])
      case Refreshed(next) =>
        [Renewal(calls[0].now, calls[0].reply.value.stamp, next.lifetime.value)] + Renewals(next, calls[1..])
      case _ => Renewals(session, calls[1..])
  }

  function Issued(r: Renewal): Session { IntoSession(r.stamp, Some(r.lifetime)) }

  /** A token refused to a caller had at most half its life left. */
  lemma {:induction false} RefusedIsHalfSpent(policy: Policy, r: Renewal, now: U64)
    requires r.lifetime >= 60 && !Usable(policy, Issued(r), now)
    ensures now + r.lifetime / 2 >= Issued(r).expiresAt
  {}

  lemma {:induction false} FirstRenewalIsLate(r: Renewal, calls: seq<Call>)
    requires r.lifetime >= 60 && Renewals(Issued(r), calls) != []
    ensures Renewals(Issued(r), calls)[0].decided + r.lifetime / 2 >= Issued(r).expiresAt
    decreases |calls|
  {
    match CurrentSession(Issued(r), calls[0])
    case Refreshed(next) => RefusedIsHalfSpent(calls[0].policy, r, calls[0].now);
    case _ => FirstRenewalIsLate(r, calls[1..]);
  }

  /** Whatever windows the calls ask for, whatever order the clock gives them, and however many
    * refresh attempts fail between: a renewal is decided only once half the previous token's
    * life is spent. */
  lemma {:induction false} RenewalsAreSpaced(session: Session, calls: seq<Call>, i: nat)
    requires i + 1 < |Renewals(session, calls)|
    requires Renewals(session, calls)[i].lifetime >= 60
    ensures var rs := Renewals(session, calls);
            && rs[i + 1].decided + rs[i].lifetime / 2 >= Issued(rs[i]).expiresAt
            && (Unsaturated(rs[i].stamp, rs[i].lifetime) ==>
                  rs[i + 1].decided - rs[i].stamp >= rs[i].lifetime - rs[i].lifetime / 2)
    decreases |calls|
  {
    match CurrentSession(session, calls[0])
    case Refreshed(next) =>
      if i == 0 {
        FirstRenewalIsLate(Renewals(session, calls)[0], calls[1..]);
      } else {
        RenewalsAreSpaced(next, calls[1..], i - 1);
      }
    case _ =>
      RenewalsAreSpaced(session, calls[1..], i);
  }

  /** Replies are stamped no earlier than they were asked for, and live at least `least`. */
  ghost predicate Regular(rs: seq<Renewal>, least: nat) {
    forall i | 0 <= i < |rs| :: RegularAt(rs[i], least)
  }

  predicate RegularAt(r: Renewal, least: nat) {
    r.decided <= r.stamp && least <= r.lifetime && Unsaturated(r.stamp, r.lifetime)
  }

  /** Over a whole run: `n` renewals take at least `n - 1` half-lifetimes, so a helper spends at
    * most one single-use refresh token per half-lifetime. */
  lemma {:induction false} RefreshRateBound(session: Session, calls: seq<Call>, least: nat, n: nat)
    requires least >= 60 && Regular(Renewals(session, calls), least)
    requires 0 < n <= |Renewals(session, calls)|
    ensures var rs := Renewals(session, calls);
            rs[n - 1].decided - rs[0].decided >= (n - 1) * (least - least / 2)
  {
    if n > 1 {
      var rs := Renewals(session, calls);
      RefreshRateBound(session, calls, least, n - 1);
      assert RegularAt(rs[n - 2], least);
      RenewalsAreSpaced(session, calls, n - 2);
      HalvesGrow(least, rs[n - 2].lifetime);
      assert (n - 1) * (least - least / 2) == (n - 2) * (least - least / 2) + (least - least / 2);
    }
  }

  lemma {:induction false} HalvesGrow(a: nat, b: nat)
    requires a <= b
    ensures a - a / 2 <= b - b / 2
  {}

  // ---------------------------------------------------------------- what a caller gets

  /** The token a call hands out, and the instant it is handed out. */
  function HandedOut(session: Session, call: Call): Option<(U64, Session)> {
    match CurrentSession(session, call)
    case Cached => Some((call.now, session))
    case Refreshed(next) => Some((call.reply.value.stamp, next))
    case Failed => None
  }

  /** Valid for the whole window and the skew beyond it. */
  predicate Outlives(session: Session, at: U64, window: U64) {
    session.expiresAt > at + window + Skew
  }

  /** Every instant at which the cache hands this token out leaves it alive long enough. */
  ghost predicate AlwaysOutlives(s: Session, window: U64) {
    forall now: U64 | Usable(OutlivesCache(window), s, now) :: Outlives(s, now, window)
  }

  /** The cached token always lasts the window and the skew exactly when there is no window, or the two
    * together fit half the token's life. */
  lemma {:induction false} CachedOutlivesIff(stamp: U64, lifetime: U64, window: U64)
    requires lifetime > Skew && Unsaturated(stamp, lifetime)
    ensures AlwaysOutlives(IntoSession(stamp, Some(lifetime)), window) <==> window == 0 || 2 * (window + 30) <= lifetime
  {
    var s := IntoSession(stamp, Some(lifetime));
    if window != 0 && 2 * (window + 30) > lifetime {
      var now: U64 := stamp + lifetime - Cap(lifetime) - 1;
      assert Usable(OutlivesCache(window), s, now) && !Outlives(s, now, window);
    }
  }

  /** Half this token's life does not cut the window. */
  predicate Uncapped(session: Session, window: U64) {
    match session.lifetime
    case None => true
    case Some(lifetime) => window == 0 || 2 * (window + 30) <= lifetime
  }

  /** The lifetime the token endpoint grants. */
  function Granted(r: Reply): U64 { if r.expiresIn.Some? then r.expiresIn.value else 60 }

  predicate ReplyFits(call: Call) {
    call.reply.Some? ==> Unsaturated(call.reply.value.stamp, Granted(call.reply.value))
  }

  /** From any session, so from any a run can reach, and told by what can be read before the call: a
    * token the cache may hand out, its window not cut by the cap, outlives the window and the skew; a
    * token that has to be fetched does if and only if it is granted more than that, for it is handed out
    * without being looked at. */
  lemma {:induction false} HandedOutOutlivesIff(session: Session, call: Call, window: U64)
    requires call.policy == OutlivesCache(window) && ReplyFits(call)
    requires Usable(call.policy, session, call.now) || call.reply.Some?
    requires Usable(call.policy, session, call.now) ==> Uncapped(session, window)
    ensures HandedOut(session, call).Some?
    ensures var (at, token) := HandedOut(session, call).value;
            Outlives(token, at, window) <==>
            Usable(call.policy, session, call.now) || window + Skew < Granted(call.reply.value)
  {
    if Usable(call.policy, session, call.now) {
      CachedOutlives(session, call.now, window);
    }
  }

  /** The failing case: a token granted for 20 seconds, needed for no window at all and so not capped, is
    * handed out although it does not last the skew. */
  lemma {:induction false} ShortTokenIsHandedOut()
    ensures var call := Call(1000, OutlivesCache(0), Some(Reply(1000, Some(20))));
            var session := Session(0, None);
            && HandedOut(session, call) == Some((1000, Session(1020, Some(20))))
            && Uncapped(Session(1020, Some(20)), 0) && !Outlives(Session(1020, Some(20)), 1000, 0)
  {}

  lemma {:induction false} CachedOutlives(s: Session, now: U64, window: U64)
    requires Uncapped(s, window) && Usable(OutlivesCache(window), s, now)
    ensures Outlives(s, now, window)
  {}

  /** The helper's window is the whole seconds of the debounce, no more and no fewer. */
  lemma {:induction false} HelperWindowIsTheDebounce(debounceMs: U64)
    ensures ForHelper(debounceMs).OutlivesCache?
    ensures 1000 * ForHelper(debounceMs).window <= debounceMs < 1000 * ForHelper(debounceMs).window + 1000
  {}

  /** The helper's window is whole seconds of a debounce in milliseconds, and the clock is read in
    * whole seconds too; the skew absorbs both, with 29 seconds to spare. */
  lemma {:induction false} HelperTokenOutlivesDebounce(session: Session, at: U64, debounceMs: U64, realMs: nat)
    requires realMs / 1000 == at && Outlives(session, at, ForHelper(debounceMs).window)
    ensures 1000 * session.expiresAt > realMs + debounceMs + 29_000
  {}
}
