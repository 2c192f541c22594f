/** The five layers in order: what `resolve` gives, told setting by setting from the layers themselves
  * (app/governance-auth/src/config/mod.rs, app/governance-auth/src/config/token_exchange.rs). */
module ConfigPrecedence {
  import opened Common
  import opened ConfigLayers

  /** `got` is what the highest layer that has the key says: the flags, else the user's file, else the
    * machine's, else the compiled default. */
  ghost predicate Highest(got: Option<Value>, k: Key, flags: Layer, user: Layer, machine: Layer, fallback: Option<Value>) {
    && (k in flags ==> got == Some(flags[k]))
    && (k !in flags && k in user ==> got == Some(user[k]))
    && (k !in flags && k !in user && k in machine ==> got == Some(machine[k]))
    && (k !in flags && k !in user && k !in machine ==> got == fallback)
  }

  function Strung(s: Option<string>): Option<Value> { match s case None => None case Some(x) => Some(Str(x)) }

  /** Whatever the layers say for the key passes the check. */
  ghost predicate Secure(env: Env, k: Key, flags: Layer, user: Layer, machine: Layer) {
    forall url: string :: Highest(Some(Str(url)), k, flags, user, machine, None) ==> env.secureUrl(url)
  }

  /** The exchange is on only where the highest layer that speaks of it turns it on; then it needs a client
    * id and an endpoint or an issuer, each from its own highest layer, the endpoint going first. */
  ghost predicate ExchangeFrom(env: Env, x: Option<Exchange>, flags: Layer, user: Layer, machine: Layer) {
    && Highest(Some(Bool(x.Some?)), TokenExchange, flags, user, machine, Some(Bool(false)))
    && (x.Some? ==>
          && Secure(env, ExchangeIssuer, flags, user, machine) && Secure(env, ExchangeTokenEndpoint, flags, user, machine)
          && Highest(Some(Str(x.value.clientId)), ExchangeClientId, flags, user, machine, None)
          && Highest(Strung(x.value.scopes), ExchangeScopes, flags, user, machine, None)
          && match x.value.endpoint
             case Explicit(url) => Highest(Some(Str(url)), ExchangeTokenEndpoint, flags, user, machine, None)
             case ByIssuer(url) =>
               && Highest(None, ExchangeTokenEndpoint, flags, user, machine, None)
               && Highest(Some(Str(url)), ExchangeIssuer, flags, user, machine, None))
  }

  /** The settings `login` remembers. */
  ghost predicate DurableFrom(env: Env, d: Durable, flags: Layer, user: Layer, machine: Layer) {
    && Highest(Some(Str(d.issuer)), Issuer, flags, user, machine, None) && env.secureUrl(d.issuer)
    && Highest(Some(Str(d.clientId)), ClientId, flags, user, machine, None)
    && Highest(Some(Str(d.scopes)), Scopes, flags, user, machine, Some(Str("openid profile offline_access")))
    && Highest(Strung(d.audience), Audience, flags, user, machine, None)
    && Highest(Strung(d.otelEndpoint), OtelEndpoint, flags, user, machine, None) && (d.otelEndpoint.Some? ==> env.secureUrl(d.otelEndpoint.value))
    && Highest(Strung(d.gatewayUrl), GatewayUrl, flags, user, machine, None) && (d.gatewayUrl.Some? ==> env.secureUrl(d.gatewayUrl.value))
    && Highest(match d.profile case None => None case Some(Daemon) => Some(Str("daemon")) case Some(Manual) => Some(Str("manual")),
               ProfileKey, flags, user, machine, None)
    && Highest(Strung(d.spoolPath), CopilotSpoolPath, flags, user, machine, None)
    && Highest(Some(Int(d.debounceMs)), DebounceMs, flags, user, machine, Some(Int(240_000)))
    && Highest(Some(Bool(d.openBrowser)), OpenBrowser, flags, user, machine, Some(Bool(false)))
    && ExchangeFrom(env, d.exchange, flags, user, machine)
  }

  /** What a file says of the ingest token: itself, or what the file it names holds; not both. */
  ghost predicate TokenOf(env: Env, file: Layer, token: Option<string>) {
    && (OtelToken in file ==> OtelTokenFile !in file && token.Some? && file[OtelToken] == Str(token.value))
    && (OtelToken !in file && OtelTokenFile in file ==>
          file[OtelTokenFile].Str? && token.Some? && env.readTokenFile(file[OtelTokenFile].s) == token)
    && (OtelToken !in file && OtelTokenFile !in file ==> token.None?)
  }

  /** The flag's token, else the user's file's, else the machine's; both files' have to be readable. */
  ghost predicate TokenFrom(env: Env, token: Option<string>, flags: Layer, user: Layer, machine: Layer) {
    exists u: Option<string>, m: Option<string> ::
      && TokenOf(env, user, u) && TokenOf(env, machine, m)
      && (OtelToken in flags ==> token.Some? && flags[OtelToken] == Str(token.value))
      && (OtelToken !in flags ==> token == if u.Some? then u else m)
  }

  /** The opt-outs of the last login are read from the files alone. */
  ghost predicate OptOutFrom(last: OptOut, user: Layer, machine: Layer) {
    && Highest(Some(Bool(last.claude)), NoClaude, map[], user, machine, Some(Bool(false)))
    && Highest(Some(Bool(last.codex)), NoCodex, map[], user, machine, Some(Bool(false)))
    && Highest(Some(Bool(last.vscode)), NoVscode, map[], user, machine, Some(Bool(false)))
    && Highest(Some(Bool(last.codexTelemetryOnly)), CodexTelemetryOnly, map[], user, machine, Some(Bool(false)))
  }

  ghost predicate CallbackFrom(env: Env, port: Option<int>, bind: string, flags: Layer, user: Layer, machine: Layer) {
    && Highest(match port case None => None case Some(n) => Some(Int(n)), CallbackPort, flags, user, machine, None)
    && (port.Some? ==> env.portInBlock(port.value))
    && Highest(Some(Str(bind)), CallbackBind, flags, user, machine, Some(Str(env.defaultBind)))
    && (Highest(Some(Str(bind)), CallbackBind, flags, user, machine, None) ==> env.ipAddress(bind))
  }

  ghost predicate IsResolution(env: Env, flags: Layer, user: Layer, machine: Layer, c: OauthConfig) {
    && Loads(user) && Loads(machine)
    && DurableFrom(env, c.durable, flags, user, machine)
    && TokenFrom(env, c.otelToken, flags, user, machine)
    && CallbackFrom(env, c.callbackPort, c.callbackBind, flags, user, machine)
    && OptOutFrom(c.last, user, machine)
  }

  // ---------- One setting ----------

  lemma {:induction false} PickIsHighest(k: Key, flags: Layer, user: Layer, machine: Layer)
    ensures forall got: Option<Value>, fallback: Option<Value> ::
              Highest(got, k, flags, user, machine, fallback) <==>
              got == Or(Pick(k, flags, user, machine), fallback)
  {}

  predicate BoolKey(k: Key) { k in {OpenBrowser, TokenExchange, NoClaude, NoCodex, NoVscode, CodexTelemetryOnly} }

  predicate IntKey(k: Key) { k == DebounceMs || k == CallbackPort }

  predicate StrKey(k: Key) { !BoolKey(k) && !IntKey(k) && !k.Unrecognised? }

  lemma {:induction false} PickIsTyped(k: Key, flags: Layer, user: Layer, machine: Layer)
    requires FromFlags(flags) && Loads(user) && Loads(machine)
    ensures var got := Pick(k, flags, user, machine);
            got.Some? ==> if BoolKey(k) then got.value.Bool? else if IntKey(k) then got.value.Int? else StrKey(k) && got.value.Str?
  {}

  lemma {:induction false} StrSetting(k: Key, flags: Layer, user: Layer, machine: Layer)
    requires FromFlags(flags) && Loads(user) && Loads(machine) && StrKey(k)
    ensures forall s: Option<string> :: Highest(Strung(s), k, flags, user, machine, None) <==> AsStr(Pick(k, flags, user, machine)) == s
    ensures forall s: string :: Highest(Some(Str(s)), k, flags, user, machine, None) <==> AsStr(Pick(k, flags, user, machine)) == Some(s)
    ensures Highest(None, k, flags, user, machine, None) <==> AsStr(Pick(k, flags, user, machine)) == None
  {
    PickIsTyped(k, flags, user, machine);
    PickIsHighest(k, flags, user, machine);
    hide Highest, Pick, FromFlags, Loads;
  }

  lemma {:induction false} DefaultedSetting(k: Key, flags: Layer, user: Layer, machine: Layer, s: string, other: string)
    requires FromFlags(flags) && Loads(user) && Loads(machine) && StrKey(k)
    ensures Highest(Some(Str(s)), k, flags, user, machine, Some(Str(other))) <==> s == OrElse(AsStr(Pick(k, flags, user, machine)), other)
  {
    PickIsTyped(k, flags, user, machine);
    PickIsHighest(k, flags, user, machine);
    hide Highest, Pick, FromFlags, Loads;
  }

  lemma {:induction false} BoolSetting(k: Key, flags: Layer, user: Layer, machine: Layer)
    requires FromFlags(flags) && Loads(user) && Loads(machine) && BoolKey(k)
    ensures forall b: bool ::
              Highest(Some(Bool(b)), k, flags, user, machine, Some(Bool(false))) <==> OrElse(AsBool(Pick(k, flags, user, machine)), false) == b
  {
    PickIsTyped(k, flags, user, machine);
    PickIsHighest(k, flags, user, machine);
    hide Highest, Pick, FromFlags, Loads;
  }

  lemma {:induction false} IntSetting(k: Key, flags: Layer, user: Layer, machine: Layer)
    requires FromFlags(flags) && Loads(user) && Loads(machine) && IntKey(k)
    ensures forall n: int, other: int ::
              Highest(Some(Int(n)), k, flags, user, machine, Some(Int(other))) <==> OrElse(AsInt(Pick(k, flags, user, machine)), other) == n
    ensures forall n: int :: Highest(Some(Int(n)), k, flags, user, machine, None) <==> AsInt(Pick(k, flags, user, machine)) == Some(n)
    ensures Highest(None, k, flags, user, machine, None) <==> AsInt(Pick(k, flags, user, machine)) == None
  {
    PickIsTyped(k, flags, user, machine);
    PickIsHighest(k, flags, user, machine);
    hide Highest, Pick, FromFlags, Loads;
  }

  lemma {:induction false} SecureIsUrlOk(env: Env, k: Key, flags: Layer, user: Layer, machine: Layer)
    requires FromFlags(flags) && Loads(user) && Loads(machine) && StrKey(k)
    ensures Secure(env, k, flags, user, machine) <==> UrlOk(env, AsStr(Pick(k, flags, user, machine)))
  {
    StrSetting(k, flags, user, machine);
    hide Highest, Pick;
    if AsStr(Pick(k, flags, user, machine)).Some? {
      assert Highest(Some(Str(AsStr(Pick(k, flags, user, machine)).value)), k, flags, user, machine, None);
    }
  }

  // ---------- Groups of settings ----------

  lemma {:induction false} ExchangeIsFrom(env: Env, x: Option<Exchange>, flags: Layer, user: Layer, machine: Layer)
    requires FromFlags(flags) && Loads(user) && Loads(machine)
    ensures ResolveExchange(env, flags, user, machine) == Ok(x) <==> ExchangeFrom(env, x, flags, user, machine)
  {
    BoolSetting(TokenExchange, flags, user, machine);
    StrSetting(ExchangeIssuer, flags, user, machine);
    StrSetting(ExchangeTokenEndpoint, flags, user, machine);
    StrSetting(ExchangeClientId, flags, user, machine);
    StrSetting(ExchangeScopes, flags, user, machine);
    SecureIsUrlOk(env, ExchangeIssuer, flags, user, machine);
    SecureIsUrlOk(env, ExchangeTokenEndpoint, flags, user, machine);
    hide Highest, Pick, Secure, FromFlags, Loads;
  }

  lemma {:induction false} ProfileIsFrom(profile: Option<Profile>, flags: Layer, user: Layer, machine: Layer)
    requires FromFlags(flags) && Loads(user) && Loads(machine)
    ensures var raw := AsStr(Pick(ProfileKey, flags, user, machine));
            (if raw.None? then profile.None? else profile.Some? && ParseProfile(raw.value) == profile) <==>
            Highest(match profile case None => None case Some(Daemon) => Some(Str("daemon")) case Some(Manual) => Some(Str("manual")),
                    ProfileKey, flags, user, machine, None)
  {
    StrSetting(ProfileKey, flags, user, machine);
    hide Highest, Pick, FromFlags, Loads;
    assert "daemon"[0] != "manual"[0];
  }

  lemma {:induction false} StringsAreFrom(env: Env, d: Durable, flags: Layer, user: Layer, machine: Layer)
    requires FromFlags(flags) && Loads(user) && Loads(machine)
    ensures Highest(Some(Str(d.issuer)), Issuer, flags, user, machine, None) <==> AsStr(Pick(Issuer, flags, user, machine)) == Some(d.issuer)
    ensures Highest(Some(Str(d.clientId)), ClientId, flags, user, machine, None) <==> AsStr(Pick(ClientId, flags, user, machine)) == Some(d.clientId)
    ensures Highest(Some(Str(d.scopes)), Scopes, flags, user, machine, Some(Str(DEFAULT_SCOPES)))
       <==> d.scopes == OrElse(AsStr(Pick(Scopes, flags, user, machine)), DEFAULT_SCOPES)
    ensures Highest(Strung(d.audience), Audience, flags, user, machine, None) <==> AsStr(Pick(Audience, flags, user, machine)) == d.audience
    ensures Highest(Strung(d.otelEndpoint), OtelEndpoint, flags, user, machine, None) <==> AsStr(Pick(OtelEndpoint, flags, user, machine)) == d.otelEndpoint
    ensures Highest(Strung(d.gatewayUrl), GatewayUrl, flags, user, machine, None) <==> AsStr(Pick(GatewayUrl, flags, user, machine)) == d.gatewayUrl
    ensures Highest(Strung(d.spoolPath), CopilotSpoolPath, flags, user, machine, None) <==> AsStr(Pick(CopilotSpoolPath, flags, user, machine)) == d.spoolPath
  {
    StrSetting(Issuer, flags, user, machine);
    StrSetting(ClientId, flags, user, machine);
    DefaultedSetting(Scopes, flags, user, machine, d.scopes, DEFAULT_SCOPES);
    StrSetting(Audience, flags, user, machine);
    StrSetting(OtelEndpoint, flags, user, machine);
    StrSetting(GatewayUrl, flags, user, machine);
    StrSetting(CopilotSpoolPath, flags, user, machine);
    hide Highest, Pick, FromFlags, Loads, AsStr, Strung;
  }

  lemma {:induction false} DurableIsFrom(env: Env, d: Durable, flags: Layer, user: Layer, machine: Layer)
    requires FromFlags(flags) && Loads(user) && Loads(machine)
    ensures ResolvesTo(env, flags, user, machine, d) <==> DurableFrom(env, d, flags, user, machine)
  {
    StringsAreFrom(env, d, flags, user, machine);
    ProfileIsFrom(d.profile, flags, user, machine);
    IntSetting(DebounceMs, flags, user, machine);
    BoolSetting(OpenBrowser, flags, user, machine);
    ExchangeIsFrom(env, d.exchange, flags, user, machine);
    hide Highest, Pick, FromFlags, Loads, ResolveExchange, ExchangeFrom, AsStr, AsBool, AsInt, Strung;
  }

  lemma {:induction false} TokenIsOf(env: Env, file: Layer, token: Option<string>)
    requires Loads(file)
    ensures TokenOf(env, file, token) <==> FileToken(env, file) == Ok(token)
  {}

  lemma {:induction false} TokenIsFrom(env: Env, token: Option<string>, flags: Layer, user: Layer, machine: Layer)
    requires FromFlags(flags) && Loads(user) && Loads(machine)
    ensures TokenFrom(env, token, flags, user, machine) <==>
            && FileToken(env, user).Ok? && FileToken(env, machine).Ok?
            && token == Or(AsStr(At(flags, OtelToken)), Or(FileToken(env, user).value, FileToken(env, machine).value))
  {
    forall t: Option<string>
      ensures TokenOf(env, user, t) <==> FileToken(env, user) == Ok(t)
      ensures TokenOf(env, machine, t) <==> FileToken(env, machine) == Ok(t)
    {
      TokenIsOf(env, user, t);
      TokenIsOf(env, machine, t);
    }
    hide TokenOf, FileToken, Loads;
    if FileToken(env, user).Ok? && FileToken(env, machine).Ok? {
      assert TokenOf(env, user, FileToken(env, user).value) && TokenOf(env, machine, FileToken(env, machine).value);
    }
  }

  lemma {:induction false} CallbackIsFrom(env: Env, port: Option<int>, bind: string, flags: Layer, user: Layer, machine: Layer)
    requires FromFlags(flags) && Loads(user) && Loads(machine)
    ensures CallbackFrom(env, port, bind, flags, user, machine) <==>
            && CallbackOk(env, flags, user, machine) && port == AsInt(Pick(CallbackPort, flags, user, machine))
            && bind == OrElse(AsStr(Pick(CallbackBind, flags, user, machine)), env.defaultBind)
  {
    IntSetting(CallbackPort, flags, user, machine);
    StrSetting(CallbackBind, flags, user, machine);
    DefaultedSetting(CallbackBind, flags, user, machine, bind, env.defaultBind);
    hide Highest, Pick, FromFlags, Loads;
  }

  lemma {:induction false} OptOutIsFrom(last: OptOut, user: Layer, machine: Layer)
    requires Loads(user) && Loads(machine)
    ensures OptOutFrom(last, user, machine) <==> last == LastOptOut(user, machine)
  {
    BoolSetting(NoClaude, map[], user, machine);
    BoolSetting(NoCodex, map[], user, machine);
    BoolSetting(NoVscode, map[], user, machine);
    BoolSetting(CodexTelemetryOnly, map[], user, machine);
    hide Highest, Pick, FromFlags, Loads;
  }

  // ---------- The result ----------

  /** For all flags and files: a configuration is what `resolve` gives if and only if each of its settings
    * is what the highest layer that has it says, or its default, and every one passes its checks. */
  lemma {:induction false} ResolveIsByPrecedence(env: Env, flags: Layer, user: Layer, machine: Layer, c: OauthConfig)
    requires FromFlags(flags)
    ensures Resolve(env, flags, user, machine) == Some(c) <==> IsResolution(env, flags, user, machine, c)
  {
    hide ResolvesTo, DurableFrom, TokenFrom, CallbackFrom, OptOutFrom, FileToken, CallbackOk, LastOptOut, Pick, FromFlags, Resolvable;
    if Loads(user) && Loads(machine) {
      ResolveGives(env, flags, user, machine, c.durable);
      DurableIsFrom(env, c.durable, flags, user, machine);
      TokenIsFrom(env, c.otelToken, flags, user, machine);
      CallbackIsFrom(env, c.callbackPort, c.callbackBind, flags, user, machine);
      OptOutIsFrom(c.last, user, machine);
    } else {
      FilesLoad(env, flags, user, machine);
    }
  }

  lemma {:induction false} FilesLoad(env: Env, flags: Layer, user: Layer, machine: Layer)
    ensures Resolve(env, flags, user, machine).Some? ==> Loads(user) && Loads(machine)
  {}

  /** A file with a key nobody knows, or a value not of its key's type or range, stops the resolution. */
  lemma {:induction false} BadFileIsRefused(env: Env, flags: Layer, user: Layer, machine: Layer, k: Key)
    requires Resolve(env, flags, user, machine).Some? && (k in user || k in machine)
    ensures !k.Unrecognised?
    ensures forall v: Value :: (k in user && v == user[k]) || (k in machine && v == machine[k]) ==>
              if k == DebounceMs then v.Int? && 0 <= v.n <= 0x7FFF_FFFF_FFFF_FFFF
              else if k == CallbackPort then v.Int? && 0 <= v.n <= 65_535
              else if k in {OpenBrowser, TokenExchange, NoClaude, NoCodex, NoVscode, CodexTelemetryOnly} then v.Bool?
              else v.Str?
  {
    FilesLoad(env, flags, user, machine);
    hide Resolve;
  }
}
