/** Five-layer configuration (flag or environment, per-user file, machine file, compiled default) and the
  * persister that writes the resolved settings back into the per-user file. */
module ConfigLayers {
  import opened Common

  // ---------- Layers ----------

  datatype Key =
    | Issuer | ClientId | Scopes | Audience | OtelEndpoint | OtelToken | OtelTokenFile | GatewayUrl | ProfileKey
    | CopilotSpoolPath | DebounceMs | OpenBrowser
    | TokenExchange | ExchangeIssuer | ExchangeTokenEndpoint | ExchangeClientId | ExchangeScopes
    | NoClaude | NoCodex | NoVscode | CodexTelemetryOnly
    | CallbackPort | CallbackBind
    | Unrecognised(name: string)

  datatype Value = Str(s: string) | Bool(b: bool) | Int(n: int) | Other

  /** One layer: what the flags and environment gave, or the table of one TOML file. */
  type Layer = map<Key, Value>

  const I64_MAX: int := 0x7FFF_FFFF_FFFF_FFFF

  predicate RightKind(k: Key, v: Value) {
    match k
    case DebounceMs => v.Int? && 0 <= v.n <= I64_MAX
    case CallbackPort => v.Int? && 0 <= v.n <= 0xFFFF
    case OpenBrowser | TokenExchange | NoClaude | NoCodex | NoVscode | CodexTelemetryOnly => v.Bool?
    case Unrecognised(_) => false
    case _ => v.Str?
  }

  /** What loading a file demands: no unknown key, every value of its key's type. */
  predicate Loads(file: Layer) { forall k :: k in file ==> RightKind(k, file[k]) }

  function At(layer: Layer, k: Key): Option<Value> { if k in layer then Some(layer[k]) else None }

  function Or<T>(a: Option<T>, b: Option<T>): Option<T> { if a.Some? then a else b }

  function Pick(k: Key, flags: Layer, user: Layer, machine: Layer): Option<Value> {
    Or(At(flags, k), Or(At(user, k), At(machine, k)))
  }

  function AsStr(v: Option<Value>): Option<string> { if v.Some? && v.value.Str? then Some(v.value.s) else None }

  function AsBool(v: Option<Value>): Option<bool> { if v.Some? && v.value.Bool? then Some(v.value.b) else None }

  function AsInt(v: Option<Value>): Option<int> { if v.Some? && v.value.Int? then Some(v.value.n) else None }

  function OrElse<T>(o: Option<T>, fallback: T): T { if o.Some? then o.value else fallback }

  // ---------- Resolution ----------

  datatype Profile = Daemon | Manual

  function ProfileName(p: Profile): string { match p case Daemon => "daemon" case Manual => "manual" }

  function ParseProfile(s: string): Option<Profile> {
    if s == "daemon" then Some(Daemon) else if s == "manual" then Some(Manual) else None
  }

  datatype Endpoint = Explicit(url: string) | ByIssuer(url: string)

  datatype Exchange = Exchange(endpoint: Endpoint, clientId: string, scopes: Option<string>)

  datatype OptOut = OptOut(claude: bool, codex: bool, vscode: bool, codexTelemetryOnly: bool)

  /** The settings `login` is meant to remember. */
  datatype Durable = Durable(
    issuer: string, clientId: string, scopes: string, audience: Option<string>, otelEndpoint: Option<string>,
    gatewayUrl: Option<string>, profile: Option<Profile>, spoolPath: Option<string>, debounceMs: int, openBrowser: bool,
    exchange: Option<Exchange>)

  datatype OauthConfig = OauthConfig(
    durable: Durable, otelToken: Option<string>, callbackPort: Option<int>, callbackBind: string, last: OptOut)

  /** The validators and the secret file, which are not this model's business. */
  datatype Env = Env(secureUrl: string -> bool, portInBlock: int -> bool, ipAddress: string -> bool,
                     readTokenFile: string -> Option<string>, defaultBind: string)

  const DEFAULT_SCOPES := "openid profile offline_access"
  const DEFAULT_DEBOUNCE_MS: int := 240_000

  predicate UrlOk(env: Env, url: Option<string>) { url.Some? ==> env.secureUrl(url.value) }

  /** `Ok(None)` off, `Ok(Some(_))` on and complete, `Err` on and incomplete or invalid. */
  function ResolveExchange(env: Env, flags: Layer, user: Layer, machine: Layer): Result<Option<Exchange>, ()> {
    if !OrElse(AsBool(Pick(TokenExchange, flags, user, machine)), false) then Ok(None)
    else
      var issuer := AsStr(Pick(ExchangeIssuer, flags, user, machine));
      var endpoint := AsStr(Pick(ExchangeTokenEndpoint, flags, user, machine));
      var clientId := AsStr(Pick(ExchangeClientId, flags, user, machine));
      var scopes := AsStr(Pick(ExchangeScopes, flags, user, machine));
      if !UrlOk(env, issuer) || !UrlOk(env, endpoint) || clientId.None? then Err(())
      else if endpoint.Some? then Ok(Some(Exchange(Explicit(endpoint.value), clientId.value, scopes)))
      else if issuer.Some? then Ok(Some(Exchange(ByIssuer(issuer.value), clientId.value, scopes)))
      else Err(())
  }

  /** A file's ingest token, inline or by reference; naming both is an error. */
  function FileToken(env: Env, file: Layer): Result<Option<string>, ()> {
    match (AsStr(At(file, OtelToken)), AsStr(At(file, OtelTokenFile)))
    case (Some(_), Some(_)) => Err(())
    case (Some(token), None) => Ok(Some(token))
    case (None, Some(path)) => (match env.readTokenFile(path) case None => Err(()) case Some(t) => Ok(Some(t)))
    case (None, None) => Ok(None)
  }

  function LastOptOut(user: Layer, machine: Layer): OptOut {
    OptOut(OrElse(AsBool(Pick(NoClaude, map[], user, machine)), false),
           OrElse(AsBool(Pick(NoCodex, map[], user, machine)), false),
           OrElse(AsBool(Pick(NoVscode, map[], user, machine)), false),
           OrElse(AsBool(Pick(CodexTelemetryOnly, map[], user, machine)), false))
  }

  function ParsedProfile(raw: Option<string>): Option<Profile> { if raw.Some? then ParseProfile(raw.value) else None }

  /** Every check of the resolution that can fail, the values they are about already picked. */
  predicate Resolvable(env: Env, flags: Layer, user: Layer, machine: Layer) {
    && Loads(user) && Loads(machine)
    && AsStr(Pick(Issuer, flags, user, machine)).Some? && AsStr(Pick(ClientId, flags, user, machine)).Some?
    && UrlOk(env, AsStr(Pick(Issuer, flags, user, machine)))
    && UrlOk(env, AsStr(Pick(OtelEndpoint, flags, user, machine)))
    && FileToken(env, user).Ok? && FileToken(env, machine).Ok?
    && UrlOk(env, AsStr(Pick(GatewayUrl, flags, user, machine)))
    && (var raw := AsStr(Pick(ProfileKey, flags, user, machine)); raw.Some? ==> ParseProfile(raw.value).Some?)
    && ResolveExchange(env, flags, user, machine).Ok?
    && CallbackOk(env, flags, user, machine)
  }

  predicate CallbackOk(env: Env, flags: Layer, user: Layer, machine: Layer) {
    && (var port := AsInt(Pick(CallbackPort, flags, user, machine)); port.Some? ==> env.portInBlock(port.value))
    && (var bind := AsStr(Pick(CallbackBind, flags, user, machine)); bind.Some? ==> env.ipAddress(bind.value))
  }

  /** A missing file is an empty layer; `None` is any of the errors. */
  function Resolve(env: Env, flags: Layer, user: Layer, machine: Layer): Option<OauthConfig> {
    if !Resolvable(env, flags, user, machine) then None
    else
      Some(OauthConfig(
        Durable(
          AsStr(Pick(Issuer, flags, user, machine)).value,
          AsStr(Pick(ClientId, flags, user, machine)).value,
          OrElse(AsStr(Pick(Scopes, flags, user, machine)), DEFAULT_SCOPES),
          AsStr(Pick(Audience, flags, user, machine)),
          AsStr(Pick(OtelEndpoint, flags, user, machine)),
          AsStr(Pick(GatewayUrl, flags, user, machine)),
          ParsedProfile(AsStr(Pick(ProfileKey, flags, user, machine))),
          AsStr(Pick(CopilotSpoolPath, flags, user, machine)),
          OrElse(AsInt(Pick(DebounceMs, flags, user, machine)), DEFAULT_DEBOUNCE_MS),
          OrElse(AsBool(Pick(OpenBrowser, flags, user, machine)), false),
          ResolveExchange(env, flags, user, machine).value),
        Or(AsStr(At(flags, OtelToken)), Or(FileToken(env, user).value, FileToken(env, machine).value)),
        AsInt(Pick(CallbackPort, flags, user, machine)),
        OrElse(AsStr(Pick(CallbackBind, flags, user, machine)), env.defaultBind),
        LastOptOut(user, machine)))
  }

  /** What the command line can hold: every flag parsed to its type, none of the file-only keys. */
  predicate FromFlags(flags: Layer) {
    forall k :: k in flags ==>
      && (if k == DebounceMs then flags[k].Int? && flags[k].n >= 0 else RightKind(k, flags[k]))
      && k !in {NoClaude, NoCodex, NoVscode, CodexTelemetryOnly, OtelTokenFile}
  }

  // ---------- Remembering ----------

  function StrOrClear(s: Option<string>): Option<Value> { if s.Some? then Some(Str(s.value)) else None }

  /** What each key of the file is after `remember`. */
  function Target(d: Durable, optout: OptOut, file: Layer, k: Key): Option<Value> {
    match k
    case Issuer => Some(Str(d.issuer))
    case ClientId => Some(Str(d.clientId))
    case Scopes => Some(Str(d.scopes))
    case DebounceMs => Some(Int(d.debounceMs))
    case OpenBrowser => Some(Bool(d.openBrowser))
    case NoClaude => Some(Bool(optout.claude))
    case NoCodex => Some(Bool(optout.codex))
    case NoVscode => Some(Bool(optout.vscode))
    case CodexTelemetryOnly => Some(Bool(optout.codexTelemetryOnly))
    case Audience => StrOrClear(d.audience)
    case OtelEndpoint => StrOrClear(d.otelEndpoint)
    case GatewayUrl => StrOrClear(d.gatewayUrl)
    case ProfileKey => if d.profile.Some? then Some(Str(ProfileName(d.profile.value))) else None
    case CopilotSpoolPath => StrOrClear(d.spoolPath)
    case TokenExchange => if d.exchange.Some? then Some(Bool(true)) else None
    case ExchangeClientId => if d.exchange.Some? then Some(Str(d.exchange.value.clientId)) else None
    case ExchangeScopes => if d.exchange.Some? then StrOrClear(d.exchange.value.scopes) else None
    case ExchangeTokenEndpoint =>
      if d.exchange.Some? && d.exchange.value.endpoint.Explicit? then Some(Str(d.exchange.value.endpoint.url)) else None
    case ExchangeIssuer =>
      if d.exchange.Some? && d.exchange.value.endpoint.ByIssuer? then Some(Str(d.exchange.value.endpoint.url)) else None
    case OtelToken => At(file, k)
    case OtelTokenFile => At(file, k)
    case CallbackPort => At(file, k)
    case CallbackBind => At(file, k)
    case Unrecognised(_) => At(file, k)
  }

  predicate Owned(k: Key) {
    k !in {OtelToken, OtelTokenFile, CallbackPort, CallbackBind} && !k.Unrecognised?
  }

  /** The file after `remember` wrote it. */
  ghost predicate IsRemembered(d: Durable, optout: OptOut, before: Layer, after: Layer) {
    forall k :: At(after, k) == Target(d, optout, before, k)
  }

  class Document {
    var table: Layer

    constructor (table: Layer)
      ensures this.table == table
    {
      this.table := table;
    }

    method Set(k: Key, v: Value)
      modifies this
      ensures table == old(table)[k := v]
    {
      table := table[k := v];
    }

    method Clear(k: Key)
      modifies this
      ensures table == old(table) - {k}
    {
      table := table - {k};
    }

    method SetOrClear(k: Key, s: Option<string>)
      modifies this
      ensures table == if s.Some? then old(table)[k := Str(s.value)] else old(table) - {k}
    {
      if s.Some? { Set(k, Str(s.value)); } else { Clear(k); }
    }

    /** Edits the document key by key; fails before anything is written when the debounce does not fit a
      * TOML integer. */
    method Remember(d: Durable, optout: OptOut) returns (ok: bool)
      modifies this
      ensures ok <==> d.debounceMs <= I64_MAX
      ensures ok ==> IsRemembered(d, optout, old(table), table)
      ensures !ok ==> table == old(table)
    {
      if d.debounceMs > I64_MAX { return false; }
      RememberIdentity(d, optout);
      RememberOptional(d);
      RememberExchange(d.exchange);
      EditsAreRemembered(d, optout, old(table));
      ok := true;
    }

    method RememberIdentity(d: Durable, optout: OptOut)
      modifies this
      ensures table == WithIdentity(old(table), d, optout)
    {
      Set(Issuer, Str(d.issuer));
      Set(ClientId, Str(d.clientId));
      Set(Scopes, Str(d.scopes));
      Set(DebounceMs, Int(d.debounceMs));
      Set(OpenBrowser, Bool(d.openBrowser));
      Set(NoClaude, Bool(optout.claude));
      Set(NoCodex, Bool(optout.codex));
      Set(NoVscode, Bool(optout.vscode));
      Set(CodexTelemetryOnly, Bool(optout.codexTelemetryOnly));
    }

    method RememberOptional(d: Durable)
      modifies this
      ensures table == WithOptional(old(table), d)
    {
      SetOrClear(Audience, d.audience);
      SetOrClear(OtelEndpoint, d.otelEndpoint);
      SetOrClear(GatewayUrl, d.gatewayUrl);
      SetOrClear(ProfileKey, if d.profile.Some? then Some(ProfileName(d.profile.value)) else None);
      SetOrClear(CopilotSpoolPath, d.spoolPath);
    }

    method RememberExchange(exchange: Option<Exchange>)
      modifies this
      ensures table == WithExchange(old(table), exchange)
    {
      match exchange {
        case Some(x) =>
          Set(TokenExchange, Bool(true));
          Set(ExchangeClientId, Str(x.clientId));
          SetOrClear(ExchangeScopes, x.scopes);
          match x.endpoint {
            case Explicit(url) =>
              Set(ExchangeTokenEndpoint, Str(url));
              Clear(ExchangeIssuer);
            case ByIssuer(url) =>
              Set(ExchangeIssuer, Str(url));
              Clear(ExchangeTokenEndpoint);
          }
        case None =>
          Clear(TokenExchange);
          Clear(ExchangeIssuer);
          Clear(ExchangeTokenEndpoint);
          Clear(ExchangeClientId);
          Clear(ExchangeScopes);
      }
    }
  }

  function WithIdentity(t: Layer, d: Durable, optout: OptOut): Layer {
    t[Issuer := Str(d.issuer)][ClientId := Str(d.clientId)][Scopes := Str(d.scopes)]
     [DebounceMs := Int(d.debounceMs)][OpenBrowser := Bool(d.openBrowser)]
     [NoClaude := Bool(optout.claude)][NoCodex := Bool(optout.codex)]
     [NoVscode := Bool(optout.vscode)][CodexTelemetryOnly := Bool(optout.codexTelemetryOnly)]
  }

  function Edited(t: Layer, k: Key, s: Option<string>): Layer { if s.Some? then t[k := Str(s.value)] else t - {k} }

  function WithOptional(t: Layer, d: Durable): Layer {
    var name := if d.profile.Some? then Some(ProfileName(d.profile.value)) else None;
    Edited(Edited(Edited(Edited(Edited(t, Audience, d.audience), OtelEndpoint, d.otelEndpoint), GatewayUrl, d.gatewayUrl),
                  ProfileKey, name), CopilotSpoolPath, d.spoolPath)
  }

  function WithExchange(t: Layer, exchange: Option<Exchange>): Layer {
    match exchange
    case None => t - {TokenExchange} - {ExchangeIssuer} - {ExchangeTokenEndpoint} - {ExchangeClientId} - {ExchangeScopes}
    case Some(x) =>
      var scoped := Edited(t[TokenExchange := Bool(true)][ExchangeClientId := Str(x.clientId)], ExchangeScopes, x.scopes);
      match x.endpoint
      case Explicit(url) => scoped[ExchangeTokenEndpoint := Str(url)] - {ExchangeIssuer}
      case ByIssuer(url) => scoped[ExchangeIssuer := Str(url)] - {ExchangeTokenEndpoint}
  }

  predicate IdentityKey(k: Key) {
    k in {Issuer, ClientId, Scopes, DebounceMs, OpenBrowser, NoClaude, NoCodex, NoVscode, CodexTelemetryOnly}
  }

  predicate OptionalKey(k: Key) { k in {Audience, OtelEndpoint, GatewayUrl, ProfileKey, CopilotSpoolPath} }

  predicate ExchangeKey(k: Key) {
    k in {TokenExchange, ExchangeIssuer, ExchangeTokenEndpoint, ExchangeClientId, ExchangeScopes}
  }

  lemma {:induction false} IdentityAt(t: Layer, d: Durable, optout: OptOut, k: Key)
    ensures At(WithIdentity(t, d, optout), k) == if IdentityKey(k) then Target(d, optout, t, k) else At(t, k)
  {}

  lemma {:induction false} OptionalAt(t: Layer, d: Durable, optout: OptOut, k: Key)
    ensures At(WithOptional(t, d), k) == if OptionalKey(k) then Target(d, optout, t, k) else At(t, k)
  {}

  lemma {:induction false} ExchangeAt(t: Layer, d: Durable, optout: OptOut, k: Key)
    ensures At(WithExchange(t, d.exchange), k) == if ExchangeKey(k) then Target(d, optout, t, k) else At(t, k)
  {}

  /** The edits, in the order they are made, leave every key at its target. */
  lemma {:induction false} EditsAreRemembered(d: Durable, optout: OptOut, t: Layer)
    ensures IsRemembered(d, optout, t, WithExchange(WithOptional(WithIdentity(t, d, optout), d), d.exchange))
  {
    hide WithIdentity, WithOptional, WithExchange;
    var t1 := WithIdentity(t, d, optout);
    var t2 := WithOptional(t1, d);
    forall k ensures At(WithExchange(t2, d.exchange), k) == Target(d, optout, t, k) {
      IdentityAt(t, d, optout, k);
      OptionalAt(t1, d, optout, k);
      ExchangeAt(t2, d, optout, k);
    }
  }

  // ---------- The round trip ----------

  /** What may bring the file's answer away from the one just resolved; all of it can be read off before. */
  predicate SafeToRemember(env: Env, d: Durable, user: Layer, machine: Layer) {
    && (d.exchange.None? ==> AsBool(At(machine, TokenExchange)) != Some(true))
    && (d.exchange.Some? && d.exchange.value.endpoint.Explicit? ==> UrlOk(env, AsStr(At(machine, ExchangeIssuer))))
    && CallbackOk(env, map[], user, machine)
  }

  lemma {:induction false} RememberedLoads(d: Durable, optout: OptOut, user: Layer, after: Layer)
    requires IsRemembered(d, optout, user, after) && Loads(user) && 0 <= d.debounceMs <= I64_MAX
    ensures Loads(after)
  {
    forall k | k in after ensures RightKind(k, after[k]) {
      assert At(after, k) == Target(d, optout, user, k);
      if !Owned(k) { assert At(user, k) == At(after, k); }
    }
  }

  lemma {:induction false} RememberedAt(d: Durable, optout: OptOut, user: Layer, after: Layer, k: Key)
    requires IsRemembered(d, optout, user, after)
    ensures At(after, k) == Target(d, optout, user, k)
  {}

  lemma {:induction false} RememberedPick(d: Durable, optout: OptOut, user: Layer, after: Layer, machine: Layer, k: Key)
    requires IsRemembered(d, optout, user, after)
    ensures Pick(k, map[], after, machine) == Or(Target(d, optout, user, k), At(machine, k))
  {
    assert At(after, k) == Target(d, optout, user, k);
  }

  lemma {:induction false} TokensUntouched(env: Env, d: Durable, optout: OptOut, user: Layer, after: Layer)
    requires IsRemembered(d, optout, user, after)
    ensures FileToken(env, after) == FileToken(env, user)
  {
    assert At(after, OtelToken) == Target(d, optout, user, OtelToken);
    assert At(after, OtelTokenFile) == Target(d, optout, user, OtelTokenFile);
  }

  lemma {:induction false} CallbackUntouched(env: Env, d: Durable, optout: OptOut, user: Layer, after: Layer, machine: Layer)
    requires IsRemembered(d, optout, user, after)
    ensures CallbackOk(env, map[], after, machine) == CallbackOk(env, map[], user, machine)
  {
    RememberedPick(d, optout, user, after, machine, CallbackPort);
    RememberedPick(d, optout, user, after, machine, CallbackBind);
  }

  lemma {:induction false} ExchangeOffRoundTrip(env: Env, d: Durable, optout: OptOut, flags: Layer, user: Layer, machine: Layer, after: Layer)
    requires FromFlags(flags) && Loads(user) && Loads(machine)
    requires ResolveExchange(env, flags, user, machine) == Ok(d.exchange)
    requires IsRemembered(d, optout, user, after)
    requires d.exchange.None?
    ensures ResolveExchange(env, map[], after, machine) == Ok(None) <==> AsBool(At(machine, TokenExchange)) != Some(true)
  {
    hide IsRemembered;
    RememberedPick(d, optout, user, after, machine, TokenExchange);
    RememberedPick(d, optout, user, after, machine, ExchangeIssuer);
    RememberedPick(d, optout, user, after, machine, ExchangeTokenEndpoint);
    RememberedPick(d, optout, user, after, machine, ExchangeClientId);
    RememberedPick(d, optout, user, after, machine, ExchangeScopes);
  }

  lemma {:induction false} ExchangeIssuerRoundTrip(env: Env, d: Durable, optout: OptOut, flags: Layer, user: Layer, machine: Layer, after: Layer)
    requires FromFlags(flags) && Loads(user) && Loads(machine)
    requires ResolveExchange(env, flags, user, machine) == Ok(d.exchange)
    requires IsRemembered(d, optout, user, after)
    requires d.exchange.Some? && d.exchange.value.endpoint.ByIssuer?
    ensures ResolveExchange(env, map[], after, machine) == Ok(d.exchange)
  {
    hide IsRemembered;
    RememberedPick(d, optout, user, after, machine, TokenExchange);
    RememberedPick(d, optout, user, after, machine, ExchangeIssuer);
    RememberedPick(d, optout, user, after, machine, ExchangeTokenEndpoint);
    RememberedPick(d, optout, user, after, machine, ExchangeClientId);
    RememberedPick(d, optout, user, after, machine, ExchangeScopes);
  }

  lemma {:induction false} ExchangeEndpointRoundTrip(env: Env, d: Durable, optout: OptOut, flags: Layer, user: Layer, machine: Layer, after: Layer)
    requires FromFlags(flags) && Loads(user) && Loads(machine)
    requires ResolveExchange(env, flags, user, machine) == Ok(d.exchange)
    requires IsRemembered(d, optout, user, after)
    requires d.exchange.Some? && d.exchange.value.endpoint.Explicit?
    ensures ResolveExchange(env, map[], after, machine) == Ok(d.exchange) <==> UrlOk(env, AsStr(At(machine, ExchangeIssuer)))
  {
    hide IsRemembered;
    RememberedPick(d, optout, user, after, machine, TokenExchange);
    RememberedPick(d, optout, user, after, machine, ExchangeIssuer);
    RememberedPick(d, optout, user, after, machine, ExchangeTokenEndpoint);
    RememberedPick(d, optout, user, after, machine, ExchangeClientId);
    RememberedPick(d, optout, user, after, machine, ExchangeScopes);
  }

  /** The exchange block comes back as it was, exactly under its two conditions. */
  lemma {:induction false} ExchangeRoundTrip(env: Env, d: Durable, optout: OptOut, flags: Layer, user: Layer, machine: Layer, after: Layer)
    requires FromFlags(flags) && Loads(user) && Loads(machine)
    requires ResolveExchange(env, flags, user, machine) == Ok(d.exchange)
    requires IsRemembered(d, optout, user, after)
    ensures ResolveExchange(env, map[], after, machine) == Ok(d.exchange) <==>
            && (d.exchange.None? ==> AsBool(At(machine, TokenExchange)) != Some(true))
            && (d.exchange.Some? && d.exchange.value.endpoint.Explicit? ==> UrlOk(env, AsStr(At(machine, ExchangeIssuer))))
  {
    hide IsRemembered, ResolveExchange, FromFlags, Loads;
    if d.exchange.None? { ExchangeOffRoundTrip(env, d, optout, flags, user, machine, after); }
    else if d.exchange.value.endpoint.ByIssuer? { ExchangeIssuerRoundTrip(env, d, optout, flags, user, machine, after); }
    else { ExchangeEndpointRoundTrip(env, d, optout, flags, user, machine, after); }
  }

  // Everything but the exchange block comes back unconditionally.

  /** The settings as the layers give them. */
  ghost predicate ResolvesTo(env: Env, flags: Layer, user: Layer, machine: Layer, d: Durable) {
    && Some(d.issuer) == AsStr(Pick(Issuer, flags, user, machine)) && UrlOk(env, Some(d.issuer))
    && Some(d.clientId) == AsStr(Pick(ClientId, flags, user, machine))
    && d.scopes == OrElse(AsStr(Pick(Scopes, flags, user, machine)), DEFAULT_SCOPES)
    && d.audience == AsStr(Pick(Audience, flags, user, machine))
    && d.otelEndpoint == AsStr(Pick(OtelEndpoint, flags, user, machine)) && UrlOk(env, d.otelEndpoint)
    && d.gatewayUrl == AsStr(Pick(GatewayUrl, flags, user, machine)) && UrlOk(env, d.gatewayUrl)
    && d.spoolPath == AsStr(Pick(CopilotSpoolPath, flags, user, machine))
    && (var raw := AsStr(Pick(ProfileKey, flags, user, machine));
        if raw.None? then d.profile.None? else d.profile.Some? && ParseProfile(raw.value) == d.profile)
    && d.debounceMs == OrElse(AsInt(Pick(DebounceMs, flags, user, machine)), DEFAULT_DEBOUNCE_MS)
    && d.openBrowser == OrElse(AsBool(Pick(OpenBrowser, flags, user, machine)), false)
    && ResolveExchange(env, flags, user, machine) == Ok(d.exchange)
  }

  lemma {:induction false} ResolveGives(env: Env, flags: Layer, user: Layer, machine: Layer, d: Durable)
    ensures (Resolve(env, flags, user, machine).Some? && Resolve(env, flags, user, machine).value.durable == d) <==>
            && ResolvesTo(env, flags, user, machine, d) && Loads(user) && Loads(machine)
            && FileToken(env, user).Ok? && FileToken(env, machine).Ok? && CallbackOk(env, flags, user, machine)
  {
    hide Pick, Loads, FileToken, CallbackOk, ResolveExchange;
  }

  lemma {:induction false} OptOutRoundTrip(d: Durable, optout: OptOut, user: Layer, after: Layer, machine: Layer)
    requires IsRemembered(d, optout, user, after)
    ensures LastOptOut(after, machine) == optout
  {
    hide IsRemembered;
    RememberedPick(d, optout, user, after, machine, NoClaude);
    RememberedPick(d, optout, user, after, machine, NoCodex);
    RememberedPick(d, optout, user, after, machine, NoVscode);
    RememberedPick(d, optout, user, after, machine, CodexTelemetryOnly);
  }

  /** An optional string that no layer had is still absent; one that some layer had is now in the file. */
  lemma {:induction false} StringBack(k: Key, flags: Layer, user: Layer, machine: Layer, after: Layer)
    requires FromFlags(flags) && Loads(user) && Loads(machine)
    requires k in {Audience, OtelEndpoint, GatewayUrl, CopilotSpoolPath, ProfileKey}
    requires At(after, k) == StrOrClear(AsStr(Pick(k, flags, user, machine)))
    ensures AsStr(Pick(k, map[], after, machine)) == AsStr(Pick(k, flags, user, machine))
  {}

  lemma {:induction false} StringsRoundTrip(env: Env, d: Durable, optout: OptOut, flags: Layer, user: Layer, machine: Layer, after: Layer)
    requires FromFlags(flags) && Loads(user) && Loads(machine)
    requires ResolvesTo(env, flags, user, machine, d) && IsRemembered(d, optout, user, after)
    ensures AsStr(Pick(Audience, map[], after, machine)) == d.audience
    ensures AsStr(Pick(OtelEndpoint, map[], after, machine)) == d.otelEndpoint
    ensures AsStr(Pick(GatewayUrl, map[], after, machine)) == d.gatewayUrl
    ensures AsStr(Pick(CopilotSpoolPath, map[], after, machine)) == d.spoolPath
    ensures AsStr(Pick(ProfileKey, map[], after, machine)) == AsStr(Pick(ProfileKey, flags, user, machine))
  {
    hide At, Pick, Loads, FromFlags, ResolveExchange, IsRemembered, UrlOk;
    RememberedAt(d, optout, user, after, Audience);
    RememberedAt(d, optout, user, after, OtelEndpoint);
    RememberedAt(d, optout, user, after, GatewayUrl);
    RememberedAt(d, optout, user, after, CopilotSpoolPath);
    RememberedAt(d, optout, user, after, ProfileKey);
    StringBack(Audience, flags, user, machine, after);
    StringBack(OtelEndpoint, flags, user, machine, after);
    StringBack(GatewayUrl, flags, user, machine, after);
    StringBack(CopilotSpoolPath, flags, user, machine, after);
    StringBack(ProfileKey, flags, user, machine, after);
  }

  lemma {:induction false} SetKeysRoundTrip(env: Env, d: Durable, optout: OptOut, user: Layer, machine: Layer, after: Layer)
    requires IsRemembered(d, optout, user, after)
    ensures AsStr(Pick(Issuer, map[], after, machine)) == Some(d.issuer)
    ensures AsStr(Pick(ClientId, map[], after, machine)) == Some(d.clientId)
    ensures AsStr(Pick(Scopes, map[], after, machine)) == Some(d.scopes)
    ensures AsInt(Pick(DebounceMs, map[], after, machine)) == Some(d.debounceMs)
    ensures AsBool(Pick(OpenBrowser, map[], after, machine)) == Some(d.openBrowser)
  {
    RememberedPick(d, optout, user, after, machine, Issuer);
    RememberedPick(d, optout, user, after, machine, ClientId);
    RememberedPick(d, optout, user, after, machine, Scopes);
    RememberedPick(d, optout, user, after, machine, DebounceMs);
    RememberedPick(d, optout, user, after, machine, OpenBrowser);
  }

  lemma {:induction false} DebounceIsNatural(env: Env, d: Durable, flags: Layer, user: Layer, machine: Layer)
    requires FromFlags(flags) && Loads(user) && Loads(machine) && ResolvesTo(env, flags, user, machine, d)
    ensures d.debounceMs >= 0
  {}

  /** Resolving again with no flags, from the file `remember` wrote, gives the same durable settings and the
    * remembered opt-outs, for every combination of flags, user file and machine file, if and only if:
    * the exchange is not off under a machine file that turns it on; a machine-wide exchange issuer left
    * behind an explicit endpoint is valid; and the callback settings of the files are valid by themselves. */
  lemma {:induction false} RememberRoundTripIff(env: Env, flags: Layer, user: Layer, machine: Layer, optout: OptOut, after: Layer)
    requires FromFlags(flags) && Resolve(env, flags, user, machine).Some?
    requires var d := Resolve(env, flags, user, machine).value.durable; d.debounceMs <= I64_MAX && IsRemembered(d, optout, user, after)
    ensures var d := Resolve(env, flags, user, machine).value.durable;
            var again := Resolve(env, map[], after, machine);
            (again.Some? && again.value.durable == d && again.value.last == optout) <==> SafeToRemember(env, d, user, machine)
  {
    var d := Resolve(env, flags, user, machine).value.durable;
    ResolveGives(env, flags, user, machine, d);
    ResolveGives(env, map[], after, machine, d);
    DebounceIsNatural(env, d, flags, user, machine);
    RememberedLoads(d, optout, user, after);
    TokensUntouched(env, d, optout, user, after);
    CallbackUntouched(env, d, optout, user, after, machine);
    ExchangeRoundTrip(env, d, optout, flags, user, machine, after);
    StringsRoundTrip(env, d, optout, flags, user, machine, after);
    SetKeysRoundTrip(env, d, optout, user, machine, after);
    OptOutRoundTrip(d, optout, user, after, machine);
    assert Resolve(env, map[], after, machine).Some? ==> Resolve(env, map[], after, machine).value.last == LastOptOut(after, machine);
    hide Resolve, IsRemembered, ResolveExchange, FileToken, CallbackOk, Loads, LastOptOut, Pick;
  }

  /** `remember` owns its keys and no others, and a second run changes nothing. */
  lemma {:induction false} RememberIsIdempotent(d: Durable, optout: OptOut, file: Layer, once: Layer, twice: Layer)
    requires IsRemembered(d, optout, file, once) && IsRemembered(d, optout, once, twice)
    ensures twice == once
    ensures forall k :: !Owned(k) ==> At(once, k) == At(file, k)
  {
    forall k ensures At(twice, k) == At(once, k) && (!Owned(k) ==> At(once, k) == At(file, k)) {
      assert At(once, k) == Target(d, optout, file, k);
      assert At(twice, k) == Target(d, optout, once, k);
    }
    assert forall k :: k in twice <==> k in once by {
      forall k ensures k in twice <==> k in once { assert At(twice, k) == At(once, k); }
    }
    forall k | k in once ensures twice[k] == once[k] { assert At(twice, k) == At(once, k); }
  }

  function OffByFlag(url: string): Layer { map[Issuer := Str(url), ClientId := Str("c"), TokenExchange := Bool(false)] }

  function OnByMachine(url: string): Layer {
    map[TokenExchange := Bool(true), ExchangeIssuer := Str(url), ExchangeClientId := Str("x")]
  }

  function WithoutExchange(url: string): Durable {
    Durable(url, "c", DEFAULT_SCOPES, None, None, None, None, None, DEFAULT_DEBOUNCE_MS, false, None)
  }

  /** The failing case: an exchange the flags turn off is not written down, so a machine file that turns it
    * on has the next resolution turn it on. */
  lemma {:induction false} ExchangeComesBack(env: Env, url: string, optout: OptOut, after: Layer)
    requires env.secureUrl(url) && IsRemembered(WithoutExchange(url), optout, map[], after)
    ensures var first := Resolve(env, OffByFlag(url), map[], OnByMachine(url));
            first.Some? && first.value.durable == WithoutExchange(url)
    ensures ResolveExchange(env, map[], after, OnByMachine(url)) == Ok(Some(Exchange(ByIssuer(url), "x", None)))
  {
    hide Resolve, IsRemembered;
    OffResolves(env, url);
    ExchangeKeysCleared(url, optout, after);
  }

  lemma {:induction false} OffResolves(env: Env, url: string)
    requires env.secureUrl(url)
    ensures var first := Resolve(env, OffByFlag(url), map[], OnByMachine(url));
            first.Some? && first.value.durable == WithoutExchange(url)
  {
    ResolveGives(env, OffByFlag(url), map[], OnByMachine(url), WithoutExchange(url));
    OffPicks(url);
    OffLoads(env, url);
    hide Resolve, Pick, Loads, OffByFlag, OnByMachine, FileToken;
  }

  lemma {:induction false} OffLoads(env: Env, url: string)
    ensures Loads(OnByMachine(url)) && Loads(map[])
    ensures FileToken(env, OnByMachine(url)) == Ok(None) && FileToken(env, map[]) == Ok(None)
  {}

  lemma {:induction false} OffPicks(url: string)
    ensures forall k :: Pick(k, OffByFlag(url), map[], OnByMachine(url)) ==
              match k
              case Issuer => Some(Str(url))
              case ClientId => Some(Str("c"))
              case TokenExchange => Some(Bool(false))
              case ExchangeIssuer => Some(Str(url))
              case ExchangeClientId => Some(Str("x"))
              case _ => None
    ensures At(OffByFlag(url), OtelToken) == None
  {}

  lemma {:induction false} ExchangeKeysCleared(url: string, optout: OptOut, after: Layer)
    requires IsRemembered(WithoutExchange(url), optout, map[], after)
    ensures forall k | ExchangeKey(k) :: At(after, k) == None
  {
    forall k | ExchangeKey(k) ensures At(after, k) == None {
      assert At(after, k) == Target(WithoutExchange(url), optout, map[], k);
    }
  }
}
