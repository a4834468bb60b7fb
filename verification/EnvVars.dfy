/** The environment variables that configure self-monitoring in a container. Kubernetes expands references between them
    only if the referenced variable is defined earlier in the list. */
module EnvVars {
  import opened Common
  import opened Text

  datatype SecretKeyRef = SecretKeyRef(name: string, key: string) {
    predicate IsWellFormed() {
      name != "" && key != ""
    }
  }

  /** The value of a header. The authorization header of a Dash0 export refers to the auth token variable. */
  datatype HeaderValue = Literal(text: string) | AuthToken | FromSecret(ref: SecretKeyRef)

  datatype Header = Header(name: string, value: HeaderValue)

  datatype RenderedHeader = Plain(name: string, text: string) | Referencing(name: string, envVarName: string)

  datatype EnvValue = Text(text: string) | Secret(ref: SecretKeyRef) | Headers(headers: seq<RenderedHeader>)

  datatype EnvVar = EnvVar(name: string, value: EnvValue)

  /** A header that is given by the user. */
  type UserHeader = header: Header | !header.value.AuthToken? witness Header("", Literal(""))

  datatype OtlpExport = OtlpExport(endpoint: string, headers: seq<UserHeader>)

  /** The authorization is absent if neither a token nor a secret is given. */
  datatype Dash0Export = Dash0Export(endpoint: string, dataset: string, authorization: Option<EnvValue>)

  datatype SelfMonitoringExport = SelfMonitoringExport(
    dash0: Option<Dash0Export>, grpc: Option<OtlpExport>, http: Option<OtlpExport>)

  datatype Settings = Settings(endpoint: string, protocol: string, headers: seq<Header>)

  const AUTH_TOKEN := "SELF_MONITORING_AUTH_TOKEN"
  const ENDPOINT := "OTEL_EXPORTER_OTLP_ENDPOINT"
  const HEADERS := "OTEL_EXPORTER_OTLP_HEADERS"
  const PROTOCOL := "OTEL_EXPORTER_OTLP_PROTOCOL"
  const RESOURCE_ATTRIBUTES := "OTEL_RESOURCE_ATTRIBUTES"
  const LOG_LEVEL := "OTEL_LOG_LEVEL"

  function SecretName(protocol: string, headerIndex: nat): (name: string)
    ensures name != [] && name[0] == 'D'
  {
    "DASH0_HEADER_" + protocol + "_SELF_MONITORING_" + Itoa(headerIndex)
  }

  lemma SecretNameInjective(protocol: string, i: nat, j: nat)
    requires SecretName(protocol, i) == SecretName(protocol, j)
    ensures i == j
  {
    var common := "DASH0_HEADER_" + protocol + "_SELF_MONITORING_";
    assert SecretName(protocol, i)[|common|..] == Itoa(i);
    assert SecretName(protocol, j)[|common|..] == Itoa(j);
    ItoaInjective(i, j);
  }

  /** The endpoints are those that result from deriving the scheme. */
  function ConvertExport(config: SelfMonitoringExport): Settings {
    if config.dash0.Some? then
      var dash0 := config.dash0.value;
      Settings(dash0.endpoint, "grpc",
        [Header("Authorization", AuthToken)] +
        (if dash0.dataset != "" then [Header("Dash0-Dataset", Literal(dash0.dataset))] else []))
    else if config.grpc.Some? then
      Settings(config.grpc.value.endpoint, "grpc", config.grpc.value.headers)
    else if config.http.Some? then
      Settings(config.http.value.endpoint, "http/protobuf", config.http.value.headers)
    else
      Settings("", "", [])
  }

  function SecretProtocol(config: SelfMonitoringExport): string {
    if config.http.Some? then "HTTP" else if config.grpc.Some? then "GRPC" else "DASH0"
  }

  // ---------------------------------------------------------------------------------------------
  // Specification on lists of environment variables
  // ---------------------------------------------------------------------------------------------

  /** slices.IndexFunc: the first position of a name, or -1. */
  function IndexOf(env: seq<EnvVar>, name: string): (i: int)
    ensures -1 <= i < |env|
    ensures i >= 0 ==> env[i].name == name && forall j | 0 <= j < i :: env[j].name != name
    ensures i == -1 ==> forall j | 0 <= j < |env| :: env[j].name != name
  {
    if env == [] then -1
    else if env[0].name == name then 0
    else
      var rest := IndexOf(env[1..], name);
      if rest == -1 then -1 else rest + 1
  }

  function Delete<T>(s: seq<T>, i: nat): seq<T>
    requires i < |s|
  {
    s[..i] + s[i + 1..]
  }

  function Insert<T>(s: seq<T>, i: nat, x: T): seq<T>
    requires i <= |s|
  {
    s[..i] + [x] + s[i..]
  }

  function WithAuthToken(env: seq<EnvVar>, authToken: EnvVar): seq<EnvVar> {
    var i := IndexOf(env, authToken.name);
    if i == 0 then env[0 := authToken]
    else if i > 0 then [authToken] + Delete(env, i)
    else [authToken] + env
  }

  function PrependedOrUpdated(env: seq<EnvVar>, envVar: EnvVar): seq<EnvVar> {
    var i := IndexOf(env, envVar.name);
    if i >= 0 then env[i := envVar] else [envVar] + env
  }

  function UpdatedOrAppended(env: seq<EnvVar>, envVar: EnvVar): seq<EnvVar> {
    var i := IndexOf(env, envVar.name);
    if i >= 0 then env[i := envVar] else env + [envVar]
  }

  function AllPrepended(env: seq<EnvVar>, envVars: seq<EnvVar>): seq<EnvVar> {
    if envVars == [] then env
    else PrependedOrUpdated(AllPrepended(env, envVars[..|envVars| - 1]), envVars[|envVars| - 1])
  }

  function WithoutHeaders(env: seq<EnvVar>): seq<EnvVar> {
    var i := IndexOf(env, HEADERS);
    if i >= 0 then Delete(env, i) else env
  }

  /** An existing variable is updated, a new one is inserted right after the endpoint. */
  function WithHeaders(env: seq<EnvVar>, rendered: seq<RenderedHeader>): seq<EnvVar> {
    var i := IndexOf(env, HEADERS);
    var headersVar := EnvVar(HEADERS, Headers(rendered));
    if i >= 0 then env[i := headersVar] else Insert(env, IndexOf(env, ENDPOINT) + 1, headersVar)
  }

  function IsSecretSourced(header: Header): bool {
    header.value.FromSecret? && header.value.ref.IsWellFormed()
  }

  function Rendered(headers: seq<Header>, protocol: string): seq<RenderedHeader> {
    if headers == [] then
      []
    else
      var i := |headers| - 1;
      Rendered(headers[..i], protocol) +
      (match headers[i].value
       case Literal(text) => [Plain(headers[i].name, text)]
       case AuthToken => [Referencing(headers[i].name, AUTH_TOKEN)]
       case FromSecret(ref) =>
         if ref.IsWellFormed() then [Referencing(headers[i].name, SecretName(protocol, i))] else [])
  }

  function SecretVars(headers: seq<Header>, protocol: string): seq<EnvVar> {
    if headers == [] then
      []
    else
      var i := |headers| - 1;
      SecretVars(headers[..i], protocol) +
      (if IsSecretSourced(headers[i]) then [EnvVar(SecretName(protocol, i), Secret(headers[i].value.ref))] else [])
  }

  /** The variables that are set whatever the headers are. */
  function BasicVars(settings: Settings, attributes: string, developmentMode: bool): seq<EnvVar> {
    [EnvVar(ENDPOINT, Text(settings.endpoint)), EnvVar(PROTOCOL, Text(settings.protocol)),
     EnvVar(RESOURCE_ATTRIBUTES, Text(attributes))] +
    (if developmentMode then [EnvVar(LOG_LEVEL, Text("debug"))] else [])
  }

  function AllUpdated(env: seq<EnvVar>, envVars: seq<EnvVar>): seq<EnvVar> {
    if envVars == [] then env
    else UpdatedOrAppended(AllUpdated(env, envVars[..|envVars| - 1]), envVars[|envVars| - 1])
  }

  predicate IsAuthorized(config: SelfMonitoringExport) {
    config.dash0.Some? ==> config.dash0.value.authorization.Some?
  }

  function AuthTokenVar(config: SelfMonitoringExport): EnvVar
    requires config.dash0.Some? && IsAuthorized(config)
  {
    EnvVar(AUTH_TOKEN, config.dash0.value.authorization.value)
  }

  /** The list after setting the auth token of a Dash0 export and the basic variables. */
  function WithBasicVars(env: seq<EnvVar>, config: SelfMonitoringExport, attributes: string, developmentMode: bool)
    : seq<EnvVar>
    requires IsAuthorized(config)
  {
    var authorized := if config.dash0.Some? then WithAuthToken(env, AuthTokenVar(config)) else env;
    AllUpdated(authorized, BasicVars(ConvertExport(config), attributes, developmentMode))
  }

  /** The list after enabling self-monitoring, or the unchanged list if the authorization is missing. */
  function Enabled(env: seq<EnvVar>, config: SelfMonitoringExport, attributes: string, developmentMode: bool)
    : seq<EnvVar>
  {
    if !IsAuthorized(config) then
      env
    else
      var basic := WithBasicVars(env, config, attributes, developmentMode);
      var headers, protocol := ConvertExport(config).headers, SecretProtocol(config);
      if headers == [] then
        WithoutHeaders(basic)
      else
        WithHeaders(AllPrepended(basic, SecretVars(headers, protocol)), Rendered(headers, protocol))
  }

  // ---------------------------------------------------------------------------------------------
  // Order: what is referenced comes before the endpoint and before the headers
  // ---------------------------------------------------------------------------------------------

  ghost predicate IsReferenceable(name: string) {
    name == AUTH_TOKEN ||
    exists protocol, i: nat :: protocol in {"HTTP", "GRPC", "DASH0"} && name == SecretName(protocol, i)
  }

  predicate IsReferrer(name: string) {
    name == ENDPOINT || name == HEADERS
  }

  predicate IsBasic(name: string) {
    name in {ENDPOINT, PROTOCOL, RESOURCE_ATTRIBUTES, LOG_LEVEL}
  }

  lemma NamesDiffer(name: string)
    requires IsReferenceable(name)
    ensures !IsBasic(name) && name != HEADERS
  {
    assert name[0] in {'S', 'D'};
  }

  function Names(env: seq<EnvVar>): (names: seq<string>)
    ensures |names| == |env|
    ensures forall i | 0 <= i < |env| :: names[i] == env[i].name
  {
    seq(|env|, i requires 0 <= i < |env| => env[i].name)
  }

  /** No name occurs twice, and variables that can be referenced precede the endpoint and the headers. */
  ghost predicate InOrder(names: seq<string>) {
    && NoDuplicates(names)
    && forall i, j | 0 <= i < |names| && 0 <= j < |names| && IsReferenceable(names[i]) && IsReferrer(names[j]) :: i < j
  }

  lemma PrependKeepsOrder(names: seq<string>, name: string)
    requires InOrder(names) && name !in names && IsReferenceable(name)
    ensures InOrder([name] + names)
  {
    NamesDiffer(name);
    var names' := [name] + names;
    assert forall i | 0 < i < |names'| :: names'[i] == names[i - 1];
  }

  lemma AppendKeepsOrder(names: seq<string>, name: string)
    requires InOrder(names) && name !in names && IsBasic(name)
    ensures InOrder(names + [name])
  {
    if IsReferenceable(name) {
      NamesDiffer(name);
    }
    var names' := names + [name];
    assert forall i | 0 <= i < |names| :: names'[i] == names[i];
  }

  lemma DeleteKeepsOrder(names: seq<string>, i: nat)
    requires i < |names| && InOrder(names)
    ensures InOrder(Delete(names, i)) && names[i] !in Delete(names, i)
  {
    var names' := Delete(names, i);
    assert forall k | 0 <= k < |names'| :: names'[k] == names[if k < i then k else k + 1];
  }

  lemma InsertHeadersKeepsOrder(names: seq<string>, i: nat)
    requires i < |names| && InOrder(names) && names[i] == ENDPOINT && HEADERS !in names
    ensures InOrder(Insert(names, i + 1, HEADERS))
  {
    var names' := Insert(names, i + 1, HEADERS);
    assert forall k | 0 <= k < |names'| ::
      names'[k] == if k <= i then names[k] else if k == i + 1 then HEADERS else names[k - 1];
    if IsReferenceable(HEADERS) {
      NamesDiffer(HEADERS);
    }
  }

  // ---------------------------------------------------------------------------------------------
  // What each operation does to the contents of the list
  // ---------------------------------------------------------------------------------------------

  /** The list defines the given variable and otherwise what it defined before. */
  ghost predicate Sets(before: seq<EnvVar>, envVar: EnvVar, after: seq<EnvVar>) {
    && InOrder(Names(after))
    && forall e :: e in after <==> e == envVar || (e in before && e.name != envVar.name)
  }

  lemma NameIn(env: seq<EnvVar>, name: string)
    ensures name in Names(env) <==> IndexOf(env, name) >= 0
    ensures name in Names(env) <==> exists e :: e in env && e.name == name
  {
    if name in Names(env) {
      var i :| 0 <= i < |env| && Names(env)[i] == name;
      assert env[i] in env;
    }
    if e :| e in env && e.name == name {
      var i :| 0 <= i < |env| && env[i] == e;
      assert Names(env)[i] == name;
    }
  }

  lemma UniqueByName(env: seq<EnvVar>, i: nat, e: EnvVar)
    requires NoDuplicates(Names(env)) && i < |env| && e in env && e.name == env[i].name
    ensures e == env[i]
  {
    var j :| 0 <= j < |env| && env[j] == e;
    assert Names(env)[i] == Names(env)[j];
  }

  lemma UpdateSets(env: seq<EnvVar>, i: nat, envVar: EnvVar)
    requires i < |env| && env[i].name == envVar.name && InOrder(Names(env))
    ensures Sets(env, envVar, env[i := envVar])
    ensures envVar in env ==> env[i := envVar] == env
  {
    assert Names(env[i := envVar]) == Names(env);
    forall e
      ensures e in env[i := envVar] <==> e == envVar || (e in env && e.name != envVar.name)
    {
      if e in env && e.name == envVar.name {
        UniqueByName(env, i, e);
      }
      if e in env && e.name != envVar.name {
        var j :| 0 <= j < |env| && env[j] == e;
        assert env[i := envVar][j] == e;
      }
      if e in env[i := envVar] && e != envVar {
        var j :| 0 <= j < |env| && env[i := envVar][j] == e;
        assert Names(env)[i] != Names(env)[j];
      }
      assert env[i := envVar][i] == envVar;
    }
    if envVar in env {
      UniqueByName(env, i, envVar);
    }
  }

  lemma UpdatedOrAppendedSets(env: seq<EnvVar>, envVar: EnvVar)
    requires InOrder(Names(env)) && IsBasic(envVar.name)
    ensures Sets(env, envVar, UpdatedOrAppended(env, envVar))
    ensures envVar in env ==> UpdatedOrAppended(env, envVar) == env
    ensures env != [] && env[0].name != envVar.name ==> UpdatedOrAppended(env, envVar)[0] == env[0]
  {
    NameIn(env, envVar.name);
    var i := IndexOf(env, envVar.name);
    if i >= 0 {
      UpdateSets(env, i, envVar);
    } else {
      AppendKeepsOrder(Names(env), envVar.name);
      assert Names(env + [envVar]) == Names(env) + [envVar.name];
    }
  }

  lemma PrependedOrUpdatedSets(env: seq<EnvVar>, envVar: EnvVar)
    requires InOrder(Names(env)) && IsReferenceable(envVar.name)
    ensures Sets(env, envVar, PrependedOrUpdated(env, envVar))
    ensures envVar in env ==> PrependedOrUpdated(env, envVar) == env
  {
    NameIn(env, envVar.name);
    var i := IndexOf(env, envVar.name);
    if i >= 0 {
      UpdateSets(env, i, envVar);
    } else {
      PrependSets(env, envVar);
    }
  }

  lemma DeleteRemoves(env: seq<EnvVar>, i: nat)
    requires i < |env| && InOrder(Names(env))
    ensures InOrder(Names(Delete(env, i))) && env[i].name !in Names(Delete(env, i))
    ensures forall e :: e in Delete(env, i) <==> e in env && e.name != env[i].name
  {
    var rest := Delete(env, i);
    DeleteKeepsOrder(Names(env), i);
    assert Names(rest) == Delete(Names(env), i);
    assert env == env[..i] + [env[i]] + env[i + 1..];
    NameIn(rest, env[i].name);
  }

  lemma WithAuthTokenSets(env: seq<EnvVar>, authToken: EnvVar)
    requires InOrder(Names(env)) && authToken.name == AUTH_TOKEN
    ensures Sets(env, authToken, WithAuthToken(env, authToken))
    ensures WithAuthToken(env, authToken)[0] == authToken
    ensures env != [] && env[0] == authToken ==> WithAuthToken(env, authToken) == env
  {
    NameIn(env, AUTH_TOKEN);
    assert IsReferenceable(AUTH_TOKEN);
    hide InOrder, IsReferenceable;
    var i := IndexOf(env, AUTH_TOKEN);
    if i == 0 {
      UpdateSets(env, 0, authToken);
    } else {
      var rest := if i > 0 then Delete(env, i) else env;
      if i > 0 {
        DeleteRemoves(env, i);
      }
      PrependSets(rest, authToken);
    }
  }

  lemma PrependSets(env: seq<EnvVar>, envVar: EnvVar)
    requires InOrder(Names(env)) && envVar.name !in Names(env) && IsReferenceable(envVar.name)
    ensures Sets(env, envVar, [envVar] + env)
  {
    PrependKeepsOrder(Names(env), envVar.name);
    assert Names([envVar] + env) == [envVar.name] + Names(env);
    NameIn(env, envVar.name);
  }

  lemma WithHeadersSets(env: seq<EnvVar>, rendered: seq<RenderedHeader>)
    requires InOrder(Names(env)) && IndexOf(env, ENDPOINT) >= 0
    ensures Sets(env, EnvVar(HEADERS, Headers(rendered)), WithHeaders(env, rendered))
    ensures EnvVar(HEADERS, Headers(rendered)) in env ==> WithHeaders(env, rendered) == env
    ensures env[0].name != HEADERS ==> WithHeaders(env, rendered)[0] == env[0]
  {
    hide InOrder, Sets, Names, Insert;
    var headersVar := EnvVar(HEADERS, Headers(rendered));
    NameIn(env, HEADERS);
    var i, k := IndexOf(env, HEADERS), IndexOf(env, ENDPOINT);
    if i >= 0 {
      UpdateSets(env, i, headersVar);
    } else {
      InsertHeadersSets(env, k, headersVar);
    }
  }

  lemma InsertHeadersSets(env: seq<EnvVar>, k: nat, headersVar: EnvVar)
    requires InOrder(Names(env)) && k < |env| && env[k].name == ENDPOINT
    requires headersVar.name == HEADERS && HEADERS !in Names(env)
    ensures Sets(env, headersVar, Insert(env, k + 1, headersVar))
    ensures Insert(env, k + 1, headersVar)[0] == env[0]
  {
    var after := Insert(env, k + 1, headersVar);
    NameIn(env, HEADERS);
    InsertHeadersKeepsOrder(Names(env), k);
    assert Names(after) == Insert(Names(env), k + 1, HEADERS);
    hide InOrder, Names, IndexOf;
    InsertedElements(env, k + 1, headersVar);
  }

  lemma InsertedElements<T>(s: seq<T>, i: nat, x: T)
    requires i <= |s|
    ensures forall e :: e in Insert(s, i, x) <==> e == x || e in s
  {
    assert s == s[..i] + s[i..];
  }

  lemma WithoutHeadersRemoves(env: seq<EnvVar>)
    requires InOrder(Names(env))
    ensures InOrder(Names(WithoutHeaders(env))) && HEADERS !in Names(WithoutHeaders(env))
    ensures forall e :: e in WithoutHeaders(env) <==> e in env && e.name != HEADERS
    ensures HEADERS !in Names(env) ==> WithoutHeaders(env) == env
  {
    NameIn(env, HEADERS);
    var i := IndexOf(env, HEADERS);
    if i >= 0 {
      DeleteRemoves(env, i);
    }
  }

  ghost predicate DistinctNames(envVars: seq<EnvVar>) {
    NoDuplicates(Names(envVars))
  }

  lemma {:induction false} AllUpdatedSets(env: seq<EnvVar>, envVars: seq<EnvVar>)
    requires InOrder(Names(env)) && DistinctNames(envVars)
    requires forall v | v in envVars :: IsBasic(v.name)
    ensures InOrder(Names(AllUpdated(env, envVars)))
    ensures forall e :: e in AllUpdated(env, envVars) <==> e in envVars || (e in env && e.name !in Names(envVars))
    ensures (forall v | v in envVars :: v in env) ==> AllUpdated(env, envVars) == env
    ensures env != [] && !IsBasic(env[0].name) ==>
      AllUpdated(env, envVars) != [] && AllUpdated(env, envVars)[0] == env[0]
  {
    if envVars != [] {
      var init, last := envVars[..|envVars| - 1], envVars[|envVars| - 1];
      assert Names(init) == Names(envVars)[..|init|];
      AllUpdatedSets(env, init);
      UpdatedOrAppendedSets(AllUpdated(env, init), last);
      LastName(envVars);
    }
  }

  lemma {:induction false} AllPrependedSets(env: seq<EnvVar>, envVars: seq<EnvVar>)
    requires InOrder(Names(env)) && DistinctNames(envVars)
    requires forall v | v in envVars :: IsReferenceable(v.name)
    ensures InOrder(Names(AllPrepended(env, envVars)))
    ensures forall e :: e in AllPrepended(env, envVars) <==> e in envVars || (e in env && e.name !in Names(envVars))
    ensures (forall v | v in envVars :: v in env) ==> AllPrepended(env, envVars) == env
  {
    if envVars != [] {
      var init, last := envVars[..|envVars| - 1], envVars[|envVars| - 1];
      assert Names(init) == Names(envVars)[..|init|];
      AllPrependedSets(env, init);
      PrependedOrUpdatedSets(AllPrepended(env, init), last);
      LastName(envVars);
    }
  }

  lemma LastName(envVars: seq<EnvVar>)
    requires envVars != [] && DistinctNames(envVars)
    ensures var init, last := envVars[..|envVars| - 1], envVars[|envVars| - 1];
      && (forall e :: e in envVars <==> e in init || e == last)
      && (forall name :: name in Names(envVars) <==> name in Names(init) || name == last.name)
      && last.name !in Names(init)
      && forall e | e in init :: e.name != last.name
  {
    var init, last := envVars[..|envVars| - 1], envVars[|envVars| - 1];
    assert envVars == init + [last];
    assert Names(envVars) == Names(init) + [last.name];
    NameIn(init, last.name);
  }

  // ---------------------------------------------------------------------------------------------
  // Enabling self-monitoring, any number of times, with any exports
  // ---------------------------------------------------------------------------------------------

  lemma {:induction false} SecretVarsAre(headers: seq<Header>, protocol: string)
    ensures forall e :: e in SecretVars(headers, protocol) <==>
      exists i :: 0 <= i < |headers| && IsSecretSourced(headers[i]) &&
        e == EnvVar(SecretName(protocol, i), Secret(headers[i].value.ref))
    ensures DistinctNames(SecretVars(headers, protocol))
  {
    hide SecretName;
    if headers != [] {
      var n := |headers| - 1;
      SecretVarsAre(headers[..n], protocol);
      if IsSecretSourced(headers[n]) {
        SecretNameIsNew(headers, n, protocol);
        assert Names(SecretVars(headers, protocol)) ==
          Names(SecretVars(headers[..n], protocol)) + [SecretName(protocol, n)];
      }
    }
  }

  lemma SecretNameIsNew(headers: seq<Header>, n: nat, protocol: string)
    requires n < |headers|
    requires forall e | e in SecretVars(headers[..n], protocol) ::
      exists i :: 0 <= i < n && IsSecretSourced(headers[i]) &&
        e == EnvVar(SecretName(protocol, i), Secret(headers[i].value.ref))
    ensures SecretName(protocol, n) !in Names(SecretVars(headers[..n], protocol))
  {
    var vars := SecretVars(headers[..n], protocol);
    NameIn(vars, SecretName(protocol, n));
    if e :| e in vars && e.name == SecretName(protocol, n) {
      var i :| 0 <= i < n && IsSecretSourced(headers[i]) &&
        e == EnvVar(SecretName(protocol, i), Secret(headers[i].value.ref));
      SecretNameInjective(protocol, i, n);
    }
  }

  /** A rendered reference names either the auth token or the variable of a header that is taken from a secret. */
  lemma {:induction false} RenderedReferences(headers: seq<Header>, protocol: string, h: RenderedHeader)
    requires h in Rendered(headers, protocol) && h.Referencing?
    ensures (h.envVarName == AUTH_TOKEN && exists i :: 0 <= i < |headers| && headers[i].value.AuthToken?)
         || exists v :: v in SecretVars(headers, protocol) && v.name == h.envVarName
  {
    var n := |headers| - 1;
    var init := headers[..n];
    if h in Rendered(init, protocol) {
      RenderedReferences(init, protocol, h);
      if i :| 0 <= i < n && init[i].value.AuthToken? {
        assert headers[i].value.AuthToken?;
      }
      if v :| v in SecretVars(init, protocol) && v.name == h.envVarName {
        assert v in SecretVars(headers, protocol);
      }
    } else if headers[n].value.AuthToken? {
      assert h == Referencing(headers[n].name, AUTH_TOKEN);
    } else {
      assert IsSecretSourced(headers[n]);
      assert EnvVar(SecretName(protocol, n), Secret(headers[n].value.ref)) in SecretVars(headers, protocol);
    }
  }

  ghost predicate IsBefore(env: seq<EnvVar>, name: string, j: nat) {
    exists i :: 0 <= i < j < |env| && env[i].name == name
  }

  /** Whatever the headers variable refers to is a managed variable that is defined earlier in the list. */
  ghost predicate ReferencesAreResolved(env: seq<EnvVar>) {
    forall j, h | 0 <= j < |env| && env[j].name == HEADERS && env[j].value.Headers? && h in env[j].value.headers
                  && h.Referencing? ::
      IsReferenceable(h.envVarName) && IsBefore(env, h.envVarName, j)
  }

  lemma BasicVarsAre(settings: Settings, attributes: string, developmentMode: bool)
    ensures var basic := BasicVars(settings, attributes, developmentMode);
      DistinctNames(basic) && basic[0].name == ENDPOINT && forall v | v in basic :: IsBasic(v.name)
  {
  }

  /** What the list defines after the call, and that it is in order. */
  ghost predicate IsConfigured(after: seq<EnvVar>, config: SelfMonitoringExport, attributes: string,
                               developmentMode: bool)
    requires IsAuthorized(config)
  {
    var settings, protocol := ConvertExport(config), SecretProtocol(config);
    && InOrder(Names(after))
    && (config.dash0.Some? ==> after != [] && after[0] == AuthTokenVar(config))
    && Defines(after, BasicVars(settings, attributes, developmentMode))
    && (if settings.headers == [] then
          HEADERS !in Names(after)
        else
          && EnvVar(HEADERS, Headers(Rendered(settings.headers, protocol))) in after
          && Defines(after, SecretVars(settings.headers, protocol)))
  }

  lemma {:induction false} NoSecretVars(headers: seq<Header>, protocol: string)
    requires forall i | 0 <= i < |headers| :: !IsSecretSourced(headers[i])
    ensures SecretVars(headers, protocol) == []
  {
    if headers != [] {
      NoSecretVars(headers[..|headers| - 1], protocol);
    }
  }

  lemma NoSecretsInDash0Export(config: SelfMonitoringExport)
    ensures config.dash0.Some? ==> SecretVars(ConvertExport(config).headers, SecretProtocol(config)) == []
    ensures config.dash0.None? ==> forall i | 0 <= i < |ConvertExport(config).headers| ::
      !ConvertExport(config).headers[i].value.AuthToken?
  {
    if config.dash0.Some? {
      NoSecretVars(ConvertExport(config).headers, SecretProtocol(config));
    }
  }

  ghost predicate Defines(env: seq<EnvVar>, vars: seq<EnvVar>) {
    forall v | v in vars :: v in env
  }

  lemma AllPrependedKeeps(env: seq<EnvVar>, envVars: seq<EnvVar>, kept: seq<EnvVar>)
    requires InOrder(Names(env)) && DistinctNames(envVars) && forall v | v in envVars :: IsReferenceable(v.name)
    requires Defines(env, kept) && forall v | v in kept :: IsBasic(v.name)
    ensures var after := AllPrepended(env, envVars);
      InOrder(Names(after)) && Defines(after, kept) && Defines(after, envVars)
  {
    AllPrependedSets(env, envVars);
    forall v | v in kept
      ensures v in AllPrepended(env, envVars)
    {
      NameIn(envVars, v.name);
      if v.name in Names(envVars) {
        NamesDiffer(v.name);
      }
    }
  }

  lemma WithHeadersKeeps(env: seq<EnvVar>, rendered: seq<RenderedHeader>, kept: seq<EnvVar>)
    requires InOrder(Names(env)) && IndexOf(env, ENDPOINT) >= 0
    requires Defines(env, kept) && forall v | v in kept :: v.name != HEADERS
    ensures var after := WithHeaders(env, rendered);
      && InOrder(Names(after)) && Defines(after, kept)
      && EnvVar(HEADERS, Headers(rendered)) in after
      && (env[0].name != HEADERS ==> after[0] == env[0])
  {
    WithHeadersSets(env, rendered);
  }

  lemma HeadersConfigure(basic: seq<EnvVar>, basicVars: seq<EnvVar>, headers: seq<Header>, protocol: string)
    requires InOrder(Names(basic)) && protocol in {"HTTP", "GRPC", "DASH0"}
    requires basic != [] && basicVars != [] && basicVars[0].name == ENDPOINT
    requires Defines(basic, basicVars) && forall v | v in basicVars :: IsBasic(v.name)
    ensures var rendered, secretVars := Rendered(headers, protocol), SecretVars(headers, protocol);
      var after := WithHeaders(AllPrepended(basic, secretVars), rendered);
      && InOrder(Names(after))
      && Defines(after, basicVars + secretVars)
      && EnvVar(HEADERS, Headers(rendered)) in after
      && after != []
      && (secretVars == [] && basic[0].name != HEADERS ==> after[0] == basic[0])
  {
    var rendered, secretVars := Rendered(headers, protocol), SecretVars(headers, protocol);
    SecretVarsAre(headers, protocol);
    forall v | v in secretVars
      ensures IsReferenceable(v.name) && v.name != HEADERS
    {
      NamesDiffer(v.name);
    }
    AllPrependedKeeps(basic, secretVars, basicVars);
    var prepended := AllPrepended(basic, secretVars);
    assert basicVars[0] in prepended;
    NameIn(prepended, ENDPOINT);
    WithHeadersKeeps(prepended, rendered, basicVars + secretVars);
  }

  lemma WithBasicVarsDefines(env: seq<EnvVar>, config: SelfMonitoringExport, attributes: string, developmentMode: bool)
    requires InOrder(Names(env)) && IsAuthorized(config)
    ensures var basic := WithBasicVars(env, config, attributes, developmentMode);
      && InOrder(Names(basic)) && basic != []
      && Defines(basic, BasicVars(ConvertExport(config), attributes, developmentMode))
      && (config.dash0.Some? ==> basic[0] == AuthTokenVar(config))
  {
    hide InOrder, ConvertExport, WithAuthToken, AllUpdated, DistinctNames;
    var authorized := if config.dash0.Some? then WithAuthToken(env, AuthTokenVar(config)) else env;
    if config.dash0.Some? {
      WithAuthTokenSets(env, AuthTokenVar(config));
    }
    var settings := ConvertExport(config);
    var basicVars := BasicVars(settings, attributes, developmentMode);
    BasicVarsAre(settings, attributes, developmentMode);
    AllUpdatedSets(authorized, basicVars);
    assert basicVars[0] in AllUpdated(authorized, basicVars);
  }

  lemma EnabledConfigures(env: seq<EnvVar>, config: SelfMonitoringExport, attributes: string, developmentMode: bool)
    requires InOrder(Names(env)) && IsAuthorized(config)
    ensures IsConfigured(Enabled(env, config, attributes, developmentMode), config, attributes, developmentMode)
  {
    hide InOrder, ConvertExport, WithBasicVars, WithHeaders, AllPrepended, Rendered, SecretVars;
    var settings, protocol := ConvertExport(config), SecretProtocol(config);
    var basic := WithBasicVars(env, config, attributes, developmentMode);
    WithBasicVarsDefines(env, config, attributes, developmentMode);
    BasicVarsAre(settings, attributes, developmentMode);
    if settings.headers == [] {
      WithoutHeadersRemoves(basic);
    } else {
      NoSecretsInDash0Export(config);
      HeadersConfigure(basic, BasicVars(settings, attributes, developmentMode), settings.headers, protocol);
    }
  }

  /** Once a list is configured for an export, another call with the same export changes nothing. */
  lemma EnabledIsIdempotent(env: seq<EnvVar>, config: SelfMonitoringExport, attributes: string, developmentMode: bool)
    requires InOrder(Names(env))
    ensures var after := Enabled(env, config, attributes, developmentMode);
      Enabled(after, config, attributes, developmentMode) == after
  {
    if IsAuthorized(config) {
      var after := Enabled(env, config, attributes, developmentMode);
      var settings, protocol := ConvertExport(config), SecretProtocol(config);
      EnabledConfigures(env, config, attributes, developmentMode);
      if config.dash0.Some? {
        WithAuthTokenSets(after, AuthTokenVar(config));
      }
      BasicVarsAre(settings, attributes, developmentMode);
      AllUpdatedSets(after, BasicVars(settings, attributes, developmentMode));
      if settings.headers == [] {
        WithoutHeadersRemoves(after);
      } else {
        SecretVarsAre(settings.headers, protocol);
        AllPrependedSets(after, SecretVars(settings.headers, protocol));
        var endpoint := BasicVars(settings, attributes, developmentMode)[0];
        assert endpoint in after;
        NameIn(after, ENDPOINT);
        WithHeadersSets(after, Rendered(settings.headers, protocol));
      }
    }
  }

  lemma ConfiguredIsResolved(after: seq<EnvVar>, config: SelfMonitoringExport, attributes: string,
                             developmentMode: bool)
    requires IsAuthorized(config) && IsConfigured(after, config, attributes, developmentMode)
    ensures ReferencesAreResolved(after)
  {
    var settings, protocol := ConvertExport(config), SecretProtocol(config);
    var secretVars := SecretVars(settings.headers, protocol);
    SecretVarsAre(settings.headers, protocol);
    NoSecretsInDash0Export(config);
    forall j, h | 0 <= j < |after| && after[j].name == HEADERS && after[j].value.Headers? && h in after[j].value.headers
                  && h.Referencing?
      ensures IsReferenceable(h.envVarName) && IsBefore(after, h.envVarName, j)
    {
      assert Names(after)[j] == HEADERS;
      UniqueByName(after, j, EnvVar(HEADERS, Headers(Rendered(settings.headers, protocol))));
      RenderedReferences(settings.headers, protocol, h);
      var i: nat := 0;
      if v :| v in secretVars && v.name == h.envVarName {
        assert v in after;
        i :| i < |after| && after[i] == v;
      }
      assert IsReferenceable(Names(after)[i]) && IsReferrer(Names(after)[j]);
    }
  }

  /** Adding the auth token breaks no reference. */
  lemma AuthTokenKeepsReferences(env: seq<EnvVar>, authToken: EnvVar)
    requires InOrder(Names(env)) && ReferencesAreResolved(env) && authToken.name == AUTH_TOKEN
    ensures InOrder(Names(WithAuthToken(env, authToken))) && ReferencesAreResolved(WithAuthToken(env, authToken))
  {
    var after := WithAuthToken(env, authToken);
    WithAuthTokenSets(env, authToken);
    hide InOrder, WithAuthToken, IsReferenceable;
    forall j, h | 0 <= j < |after| && after[j].name == HEADERS && after[j].value.Headers? && h in after[j].value.headers
                  && h.Referencing?
      ensures IsReferenceable(h.envVarName) && IsBefore(after, h.envVarName, j)
    {
      assert after[j] in after && after[j] in env;
      var k :| 0 <= k < |env| && env[k] == after[j];
      assert IsBefore(env, h.envVarName, k);
      var l :| 0 <= l < k && env[l].name == h.envVarName;
      assert env[l] in env;
      var defining := if h.envVarName == AUTH_TOKEN then authToken else env[l];
      assert defining in after;
      var i :| 0 <= i < |after| && after[i] == defining;
      OrderedNames(Names(after), i, j);
    }
  }

  lemma OrderedNames(names: seq<string>, i: nat, j: nat)
    requires InOrder(names) && i < |names| && j < |names| && IsReferenceable(names[i]) && IsReferrer(names[j])
    ensures i < j
  {
  }

  const COLLECTOR_SERVICE_NAME := "dash0-operator-collector"

  function ResourceAttributes(serviceName: string, operatorVersion: string): string {
    "service.namespace=dash0-operator,service.name=" + serviceName + ",service.version=" + operatorVersion
  }

  /** What enabling self-monitoring in a pod is given; the collector container has no name in other pods. */
  datatype EnableCall = EnableCall(config: SelfMonitoringExport, operatorVersion: string, developmentMode: bool,
                                   collectorContainer: string)

  /** The list of a container after one call for its pod. The collector container only gets the auth token. */
  function EnabledIn(env: seq<EnvVar>, container: string, call: EnableCall): seq<EnvVar> {
    if call.collectorContainer != "" && container == call.collectorContainer then
      if call.config.dash0.Some? && IsAuthorized(call.config) then WithAuthToken(env, AuthTokenVar(call.config))
      else env
    else
      var serviceName := if call.collectorContainer != "" then COLLECTOR_SERVICE_NAME else container;
      Enabled(env, call.config, ResourceAttributes(serviceName, call.operatorVersion), call.developmentMode)
  }

  function EnabledAll(env: seq<EnvVar>, container: string, calls: seq<EnableCall>): seq<EnvVar> {
    if calls == [] then env
    else EnabledIn(EnabledAll(env, container, calls[..|calls| - 1]), container, calls[|calls| - 1])
  }

  /** A list with unique names and none of the managed ones. */
  ghost predicate IsUnmanaged(env: seq<EnvVar>) {
    NoDuplicates(Names(env)) && forall i | 0 <= i < |env| :: !IsReferenceable(env[i].name) && !IsReferrer(env[i].name)
  }

  lemma EnabledInKeepsReferences(env: seq<EnvVar>, container: string, call: EnableCall)
    requires InOrder(Names(env)) && ReferencesAreResolved(env)
    ensures InOrder(Names(EnabledIn(env, container, call))) && ReferencesAreResolved(EnabledIn(env, container, call))
  {
    hide InOrder, ReferencesAreResolved, Enabled, WithAuthToken, ResourceAttributes;
    if call.collectorContainer != "" && container == call.collectorContainer {
      if call.config.dash0.Some? && IsAuthorized(call.config) {
        AuthTokenKeepsReferences(env, AuthTokenVar(call.config));
      }
    } else {
      var serviceName := if call.collectorContainer != "" then COLLECTOR_SERVICE_NAME else container;
      EnabledKeepsReferences(env, call.config, ResourceAttributes(serviceName, call.operatorVersion),
                             call.developmentMode);
    }
  }

  lemma EnabledKeepsReferences(env: seq<EnvVar>, config: SelfMonitoringExport, attributes: string,
                               developmentMode: bool)
    requires InOrder(Names(env)) && ReferencesAreResolved(env)
    ensures var after := Enabled(env, config, attributes, developmentMode);
      InOrder(Names(after)) && ReferencesAreResolved(after)
  {
    if IsAuthorized(config) {
      EnabledConfigures(env, config, attributes, developmentMode);
      ConfiguredIsResolved(Enabled(env, config, attributes, developmentMode), config, attributes, developmentMode);
    }
  }

  /** Starting from any list without managed variables, after any sequence of calls with any exports, names are
      unique and everything the headers refer to is defined earlier in the list. */
  lemma {:induction false} ReferencesStayResolved(env: seq<EnvVar>, container: string, calls: seq<EnableCall>)
    requires IsUnmanaged(env)
    ensures var after := EnabledAll(env, container, calls);
      NoDuplicates(Names(after)) && InOrder(Names(after)) && ReferencesAreResolved(after)
  {
    if calls != [] {
      ReferencesStayResolved(env, container, calls[..|calls| - 1]);
      EnabledInKeepsReferences(EnabledAll(env, container, calls[..|calls| - 1]), container, calls[|calls| - 1]);
    }
  }

  // ---------------------------------------------------------------------------------------------
  // The configuration, written out
  // ---------------------------------------------------------------------------------------------

  function EndpointOf(config: SelfMonitoringExport): string {
    if config.dash0.Some? then config.dash0.value.endpoint
    else if config.grpc.Some? then config.grpc.value.endpoint
    else if config.http.Some? then config.http.value.endpoint
    else ""
  }

  function ProtocolOf(config: SelfMonitoringExport): string {
    if config.dash0.Some? || config.grpc.Some? then "grpc" else if config.http.Some? then "http/protobuf" else ""
  }

  /** The variables that the call sets: the auth token, the basic ones, one per header from a secret, and the
      headers. */
  function VarsSet(config: SelfMonitoringExport, attributes: string, developmentMode: bool): seq<EnvVar>
    requires IsAuthorized(config)
  {
    var settings, protocol := ConvertExport(config), SecretProtocol(config);
    (if config.dash0.Some? then [AuthTokenVar(config)] else []) +
    BasicVars(settings, attributes, developmentMode) + SecretVars(settings.headers, protocol) +
    HeadersVars(settings.headers, protocol)
  }

  ghost predicate IsNameIn(name: string, vars: seq<EnvVar>) {
    exists v :: v in vars && v.name == name
  }

  /** The list defines exactly the variables that the call sets, and those variables that it defined before and that the
      call does not set. Without headers, it does not define them either. */
  lemma EnabledContents(env: seq<EnvVar>, config: SelfMonitoringExport, attributes: string, developmentMode: bool,
                        e: EnvVar)
    requires InOrder(Names(env)) && IsAuthorized(config)
    ensures var vars := VarsSet(config, attributes, developmentMode);
      e in Enabled(env, config, attributes, developmentMode) <==>
      e in vars || (e in env && e.name != "OTEL_EXPORTER_OTLP_HEADERS" && !IsNameIn(e.name, vars))
  {
    var settings, protocol := ConvertExport(config), SecretProtocol(config);
    var first := (if config.dash0.Some? then [AuthTokenVar(config)] else []) +
      BasicVars(settings, attributes, developmentMode);
    var basic := WithBasicVars(env, config, attributes, developmentMode);
    BasicContents(env, config, attributes, developmentMode, e);
    LastContents(env, config, attributes, developmentMode, e);
    FirstNames(config, attributes, developmentMode);
    hide *;
    ContentsAdd(e, basic, env, first, SecretVars(settings.headers, protocol), HeadersVars(settings.headers, protocol),
                Enabled(env, config, attributes, developmentMode));
    assert VarsSet(config, attributes, developmentMode) ==
      first + SecretVars(settings.headers, protocol) + HeadersVars(settings.headers, protocol);
  }

  function HeadersVars(headers: seq<Header>, protocol: string): seq<EnvVar> {
    if headers == [] then [] else [EnvVar(HEADERS, Headers(Rendered(headers, protocol)))]
  }

  lemma FirstNames(config: SelfMonitoringExport, attributes: string, developmentMode: bool)
    requires IsAuthorized(config)
    ensures var first := (if config.dash0.Some? then [AuthTokenVar(config)] else []) +
        BasicVars(ConvertExport(config), attributes, developmentMode);
      forall v | v in first :: v.name == AUTH_TOKEN || IsBasic(v.name)
  {
    BasicVarsAre(ConvertExport(config), attributes, developmentMode);
  }

  lemma LastContents(env: seq<EnvVar>, config: SelfMonitoringExport, attributes: string, developmentMode: bool,
                     e: EnvVar)
    requires InOrder(Names(env)) && IsAuthorized(config)
    ensures var headers, protocol := ConvertExport(config).headers, SecretProtocol(config);
      var secretVars, basic := SecretVars(headers, protocol), WithBasicVars(env, config, attributes, developmentMode);
      && (e in Enabled(env, config, attributes, developmentMode) <==>
          e in HeadersVars(headers, protocol) ||
          (e.name != HEADERS && (e in secretVars || (e in basic && !IsNameIn(e.name, secretVars)))))
      && (forall v | v in secretVars :: v.name != HEADERS && v.name != AUTH_TOKEN && !IsBasic(v.name))
  {
    var settings, protocol := ConvertExport(config), SecretProtocol(config);
    var endpoint := BasicVars(settings, attributes, developmentMode)[0];
    var basic := WithBasicVars(env, config, attributes, developmentMode);
    WithBasicVarsDefines(env, config, attributes, developmentMode);
    assert endpoint in basic && endpoint.name == ENDPOINT;
    hide InOrder, ConvertExport, WithBasicVars, BasicVars;
    if settings.headers == [] {
      WithoutHeadersRemoves(basic);
    } else {
      HeadersContents(basic, settings.headers, protocol, endpoint, e);
    }
  }

  /** The last steps set variables with other names than the first ones. */
  lemma ContentsAdd(e: EnvVar, basic: seq<EnvVar>, env: seq<EnvVar>, first: seq<EnvVar>, secretVars: seq<EnvVar>,
                    headersVars: seq<EnvVar>, after: seq<EnvVar>)
    requires e in basic <==> e in first || (e in env && !IsNameIn(e.name, first))
    requires e in after <==>
      e in headersVars || (e.name != HEADERS && (e in secretVars || (e in basic && !IsNameIn(e.name, secretVars))))
    requires forall v | v in headersVars :: v.name == HEADERS
    requires forall v | v in first :: v.name == AUTH_TOKEN || IsBasic(v.name)
    requires forall v | v in secretVars :: v.name != HEADERS && v.name != AUTH_TOKEN && !IsBasic(v.name)
    ensures var vars := first + secretVars + headersVars;
      e in after <==> e in vars || (e in env && e.name != HEADERS && !IsNameIn(e.name, vars))
  {
    var vars := first + secretVars + headersVars;
    assert IsNameIn(e.name, vars) <==>
      IsNameIn(e.name, first) || IsNameIn(e.name, secretVars) || IsNameIn(e.name, headersVars) by {
      if v :| v in first && v.name == e.name {
        assert v in vars;
      }
      if v :| v in secretVars && v.name == e.name {
        assert v in vars;
      }
      if v :| v in headersVars && v.name == e.name {
        assert v in vars;
      }
    }
  }

  lemma HeadersContents(basic: seq<EnvVar>, headers: seq<Header>, protocol: string, endpoint: EnvVar, e: EnvVar)
    requires InOrder(Names(basic)) && endpoint in basic && endpoint.name == ENDPOINT
    requires protocol in {"HTTP", "GRPC", "DASH0"}
    ensures var secretVars := SecretVars(headers, protocol);
      var headersVar := EnvVar(HEADERS, Headers(Rendered(headers, protocol)));
      && (forall v | v in secretVars :: v.name != HEADERS && v.name != AUTH_TOKEN && !IsBasic(v.name))
      && (e in WithHeaders(AllPrepended(basic, secretVars), Rendered(headers, protocol)) <==>
            e == headersVar || (e.name != HEADERS &&
                                (e in secretVars || (e in basic && !IsNameIn(e.name, secretVars)))))
  {
    var secretVars := SecretVars(headers, protocol);
    SecretVarsAre(headers, protocol);
    SecretVarsAreReferenceable(headers, protocol);
    hide InOrder, Rendered, SecretVars, IsReferenceable, AllPrepended, WithHeaders;
    AllPrependedSets(basic, secretVars);
    NameIn(secretVars, e.name);
    NameIn(secretVars, ENDPOINT);
    var prepended := AllPrepended(basic, secretVars);
    assert endpoint in prepended;
    NameIn(prepended, ENDPOINT);
    WithHeadersSets(prepended, Rendered(headers, protocol));
  }

  lemma SecretVarsAreReferenceable(headers: seq<Header>, protocol: string)
    requires protocol in {"HTTP", "GRPC", "DASH0"}
    ensures forall v | v in SecretVars(headers, protocol) ::
      IsReferenceable(v.name) && !IsBasic(v.name) && v.name != HEADERS && v.name != AUTH_TOKEN
  {
    SecretVarsAre(headers, protocol);
    forall v | v in SecretVars(headers, protocol)
      ensures IsReferenceable(v.name) && !IsBasic(v.name) && v.name != HEADERS && v.name != AUTH_TOKEN
    {
      NamesDiffer(v.name);
      assert v.name[0] == 'D';
    }
  }

  lemma BasicContents(env: seq<EnvVar>, config: SelfMonitoringExport, attributes: string, developmentMode: bool,
                      e: EnvVar)
    requires InOrder(Names(env)) && IsAuthorized(config)
    ensures var token := if config.dash0.Some? then [AuthTokenVar(config)] else [];
      var vars := BasicVars(ConvertExport(config), attributes, developmentMode);
      e in WithBasicVars(env, config, attributes, developmentMode) <==>
      e in token + vars || (e in env && !IsNameIn(e.name, token + vars))
  {
    var vars := BasicVars(ConvertExport(config), attributes, developmentMode);
    var authorized := if config.dash0.Some? then WithAuthToken(env, AuthTokenVar(config)) else env;
    BasicVarsAre(ConvertExport(config), attributes, developmentMode);
    hide InOrder, ConvertExport, WithAuthToken, AllUpdated, BasicVars;
    if config.dash0.Some? {
      WithAuthTokenSets(env, AuthTokenVar(config));
    }
    AllUpdatedSets(authorized, vars);
    NameIn(vars, e.name);
  }

  /** The values of the basic variables and of the auth token. */
  lemma EnabledValues(env: seq<EnvVar>, config: SelfMonitoringExport, attributes: string, developmentMode: bool)
    requires InOrder(Names(env)) && IsAuthorized(config)
    ensures var after := Enabled(env, config, attributes, developmentMode);
      && EnvVar("OTEL_EXPORTER_OTLP_ENDPOINT", Text(EndpointOf(config))) in after
      && EnvVar("OTEL_EXPORTER_OTLP_PROTOCOL", Text(ProtocolOf(config))) in after
      && EnvVar("OTEL_RESOURCE_ATTRIBUTES", Text(attributes)) in after
      && (developmentMode ==> EnvVar("OTEL_LOG_LEVEL", Text("debug")) in after)
      && (config.dash0.Some? ==>
            && after != []
            && after[0] == EnvVar("SELF_MONITORING_AUTH_TOKEN", config.dash0.value.authorization.value))
  {
    EnabledConfigures(env, config, attributes, developmentMode);
    var after := Enabled(env, config, attributes, developmentMode);
    var vars := BasicVars(ConvertExport(config), attributes, developmentMode);
    hide Enabled, InOrder;
    assert Defines(after, vars);
    assert vars[0] in after && vars[1] in after && vars[2] in after && (developmentMode ==> vars[3] in after);
  }

  /** The headers of a Dash0 export. */
  lemma EnabledDash0Headers(env: seq<EnvVar>, config: SelfMonitoringExport, attributes: string, developmentMode: bool)
    requires InOrder(Names(env)) && IsAuthorized(config) && config.dash0.Some?
    ensures var dataset := config.dash0.value.dataset;
      EnvVar("OTEL_EXPORTER_OTLP_HEADERS", Headers(
        [Referencing("Authorization", "SELF_MONITORING_AUTH_TOKEN")] +
        if dataset != "" then [Plain("Dash0-Dataset", dataset)] else []))
      in Enabled(env, config, attributes, developmentMode)
  {
    EnabledConfigures(env, config, attributes, developmentMode);
    hide Enabled, InOrder;
    Dash0Headers(config);
  }

  lemma Dash0Headers(config: SelfMonitoringExport)
    requires config.dash0.Some?
    ensures var dataset := config.dash0.value.dataset;
      Rendered(ConvertExport(config).headers, SecretProtocol(config)) ==
      [Referencing("Authorization", "SELF_MONITORING_AUTH_TOKEN")] +
      if dataset != "" then [Plain("Dash0-Dataset", dataset)] else []
  {
    var headers, protocol := ConvertExport(config).headers, SecretProtocol(config);
    NextHeader(headers, protocol, 0);
    assert headers[..0] == [];
    if |headers| == 2 {
      NextHeader(headers, protocol, 1);
    }
    assert headers[..|headers|] == headers;
  }

  /** The headers of another export, in order: a literal header as it is, one from a secret as a reference to a variable
      of its own, which is defined from this secret, and one with an incomplete reference to a secret not at all. */
  lemma EnabledUserHeaders(env: seq<EnvVar>, config: SelfMonitoringExport, attributes: string, developmentMode: bool,
                           i: nat)
    requires InOrder(Names(env)) && config.dash0.None? && (config.grpc.Some? || config.http.Some?)
    requires i < |(if config.grpc.Some? then config.grpc else config.http).value.headers|
    ensures var headers: seq<Header> := (if config.grpc.Some? then config.grpc else config.http).value.headers;
      var after := Enabled(env, config, attributes, developmentMode);
      var protocol := if config.http.Some? then "HTTP" else "GRPC";
      var envVarName := "DASH0_HEADER_" + protocol + "_SELF_MONITORING_" + Itoa(i);
      && EnvVar("OTEL_EXPORTER_OTLP_HEADERS", Headers(Rendered(headers, protocol))) in after
      && Rendered(headers[..i + 1], protocol) <= Rendered(headers, protocol)
      && Rendered(headers[..i + 1], protocol) == Rendered(headers[..i], protocol) +
           (match headers[i].value
            case Literal(text) => [Plain(headers[i].name, text)]
            case FromSecret(SecretKeyRef(name, key)) =>
              if name != "" && key != "" then [Referencing(headers[i].name, envVarName)] else []
            case AuthToken => [])
      && (headers[i].value.FromSecret? && headers[i].value.ref.name != "" && headers[i].value.ref.key != "" ==>
            EnvVar(envVarName, Secret(headers[i].value.ref)) in after)
  {
    EnabledConfigures(env, config, attributes, developmentMode);
    var headers: seq<Header> := (if config.grpc.Some? then config.grpc else config.http).value.headers;
    assert ConvertExport(config).headers == headers;
    hide Enabled, InOrder;
    NextHeader(headers, SecretProtocol(config), i);
    RenderedPrefix(headers, SecretProtocol(config), i + 1);
    SecretVarsAre(headers, SecretProtocol(config));
  }

  lemma NextHeader(headers: seq<Header>, protocol: string, i: nat)
    requires i < |headers|
    ensures Rendered(headers[..i + 1], protocol) == Rendered(headers[..i], protocol) +
      (match headers[i].value
       case Literal(text) => [Plain(headers[i].name, text)]
       case AuthToken => [Referencing(headers[i].name, "SELF_MONITORING_AUTH_TOKEN")]
       case FromSecret(SecretKeyRef(name, key)) =>
         if name != "" && key != ""
         then [Referencing(headers[i].name, "DASH0_HEADER_" + protocol + "_SELF_MONITORING_" + Itoa(i))] else [])
  {
    assert headers[..i + 1][..i] == headers[..i];
  }

  lemma {:induction false} RenderedPrefix(headers: seq<Header>, protocol: string, i: nat)
    requires i <= |headers|
    ensures Rendered(headers[..i], protocol) <= Rendered(headers, protocol)
  {
    if i == |headers| {
      assert headers[..i] == headers;
    } else {
      assert headers[..|headers| - 1][..i] == headers[..i];
      RenderedPrefix(headers[..|headers| - 1], protocol, i);
    }
  }

  /** Headers that are not defined yet are inserted right after the endpoint; everything else stays where it is. */
  lemma HeadersFollowEndpoint(env: seq<EnvVar>, rendered: seq<RenderedHeader>) returns (k: nat)
    requires exists v :: v in env && v.name == "OTEL_EXPORTER_OTLP_ENDPOINT"
    requires forall v | v in env :: v.name != "OTEL_EXPORTER_OTLP_HEADERS"
    ensures k < |env| && env[k].name == "OTEL_EXPORTER_OTLP_ENDPOINT"
    ensures WithHeaders(env, rendered) ==
      env[..k + 1] + [EnvVar("OTEL_EXPORTER_OTLP_HEADERS", Headers(rendered))] + env[k + 1..]
  {
    NameIn(env, ENDPOINT);
    NameIn(env, HEADERS);
    k := IndexOf(env, ENDPOINT);
  }

  /** What one call does in each container: the collector container gets the auth token of a Dash0 export only,
      every other one the configuration, under the name of the collector service in its pod, and under its own in
      other pods. */
  lemma EnabledInContainer(env: seq<EnvVar>, container: string, call: EnableCall)
    requires InOrder(Names(env)) && IsAuthorized(call.config)
    ensures var after, config := EnabledIn(env, container, call), call.config;
      if call.collectorContainer != "" && container == call.collectorContainer then
        && (config.dash0.None? ==> after == env)
        && (config.dash0.Some? ==>
              forall e :: e in after <==>
                e == EnvVar("SELF_MONITORING_AUTH_TOKEN", config.dash0.value.authorization.value) ||
                (e in env && e.name != "SELF_MONITORING_AUTH_TOKEN"))
      else
        var serviceName := if call.collectorContainer != "" then "dash0-operator-collector" else container;
        && EnvVar("OTEL_RESOURCE_ATTRIBUTES", Text(
             "service.namespace=dash0-operator,service.name=" + serviceName + ",service.version=" +
             call.operatorVersion)) in after
        && EnvVar("OTEL_EXPORTER_OTLP_ENDPOINT", Text(EndpointOf(config))) in after
        && (call.developmentMode ==> EnvVar("OTEL_LOG_LEVEL", Text("debug")) in after)
  {
    hide InOrder, Enabled, WithAuthToken;
    if call.collectorContainer != "" && container == call.collectorContainer {
      if call.config.dash0.Some? {
        WithAuthTokenSets(env, AuthTokenVar(call.config));
      }
    } else {
      var serviceName := if call.collectorContainer != "" then COLLECTOR_SERVICE_NAME else container;
      EnabledValues(env, call.config, ResourceAttributes(serviceName, call.operatorVersion), call.developmentMode);
    }
  }

  // ---------------------------------------------------------------------------------------------
  // The container
  // ---------------------------------------------------------------------------------------------

  method IndexFunc(env: seq<EnvVar>, name: string) returns (i: int)
    ensures i == IndexOf(env, name)
  {
    for k := 0 to |env|
      invariant forall j | 0 <= j < k :: env[j].name != name
    {
      if env[k].name == name {
        return k;
      }
    }
    return -1;
  }

  method ConvertHeadersToEnvVarValue(headers: seq<Header>, protocol: string)
    returns (rendered: seq<RenderedHeader>, secretVars: seq<EnvVar>)
    ensures rendered == Rendered(headers, protocol) && secretVars == SecretVars(headers, protocol)
  {
    rendered, secretVars := [], [];
    for i := 0 to |headers|
      invariant rendered == Rendered(headers[..i], protocol) && secretVars == SecretVars(headers[..i], protocol)
    {
      assert headers[..i + 1][..i] == headers[..i];
      match headers[i].value {
        case FromSecret(ref) =>
          if !ref.IsWellFormed() {
            continue;
          }
          var envVarName := SecretName(protocol, i);
          secretVars := secretVars + [EnvVar(envVarName, Secret(ref))];
          rendered := rendered + [Referencing(headers[i].name, envVarName)];
        case AuthToken =>
          rendered := rendered + [Referencing(headers[i].name, AUTH_TOKEN)];
        case Literal(text) =>
          rendered := rendered + [Plain(headers[i].name, text)];
      }
    }
    assert headers[..|headers|] == headers;
  }

  ghost predicate IsFirstWithName(env: seq<EnvVar>, i: int, name: string) {
    0 <= i < |env| && env[i].name == name && forall j | 0 <= j < i :: env[j].name != name
  }

  class Container {
    const name: string
    var env: seq<EnvVar>

    constructor (name: string, env: seq<EnvVar>)
      ensures this.name == name && this.env == env
    {
      this.name, this.env := name, env;
    }

    method AddAuthToken(authToken: EnvVar)
      modifies this
      ensures env == WithAuthToken(old(env), authToken)
      ensures forall i | IsFirstWithName(old(env), i, authToken.name) ::
        env == [authToken] + (old(env)[..i] + old(env)[i + 1..])
      ensures !IsNameIn(authToken.name, old(env)) ==> env == [authToken] + old(env)
    {
      NameIn(env, authToken.name);
      var i := IndexFunc(env, authToken.name);
      if i == 0 {
        env := env[0 := authToken];
      } else if i > 0 {
        env := Delete(env, i);
        env := [authToken] + env;
      } else {
        env := [authToken] + env;
      }
    }

    method PrependOrUpdate(envVar: EnvVar)
      modifies this
      ensures env == PrependedOrUpdated(old(env), envVar)
      ensures forall i | IsFirstWithName(old(env), i, envVar.name) :: env == old(env)[i := envVar]
      ensures !IsNameIn(envVar.name, old(env)) ==> env == [envVar] + old(env)
    {
      NameIn(env, envVar.name);
      var i := IndexFunc(env, envVar.name);
      env := if i >= 0 then env[i := envVar] else [envVar] + env;
    }

    method UpdateOrAppend(name: string, value: string)
      modifies this
      ensures env == UpdatedOrAppended(old(env), EnvVar(name, Text(value)))
      ensures forall i | IsFirstWithName(old(env), i, name) :: env == old(env)[i := EnvVar(name, Text(value))]
      ensures !IsNameIn(name, old(env)) ==> env == old(env) + [EnvVar(name, Text(value))]
    {
      NameIn(env, name);
      var i := IndexFunc(env, name);
      env := if i >= 0 then env[i := EnvVar(name, Text(value))] else env + [EnvVar(name, Text(value))];
    }

    method SetBasicVars(settings: Settings, attributes: string, developmentMode: bool)
      modifies this
      ensures env == AllUpdated(old(env), BasicVars(settings, attributes, developmentMode))
    {
      ghost var vars := BasicVars(settings, attributes, developmentMode);
      assert vars[..1] == [vars[0]] && vars[..2] == vars[..1] + [vars[1]] && vars[..3] == vars[..2] + [vars[2]];
      UpdateOrAppend(ENDPOINT, settings.endpoint);
      assert env == AllUpdated(old(env), vars[..1]) by {
        assert vars[..1][..0] == [];
      }
      UpdateOrAppend(PROTOCOL, settings.protocol);
      assert env == AllUpdated(old(env), vars[..2]) by {
        assert vars[..2][..1] == vars[..1];
      }
      UpdateOrAppend(RESOURCE_ATTRIBUTES, attributes);
      assert env == AllUpdated(old(env), vars[..3]) by {
        assert vars[..3][..2] == vars[..2];
      }
      if developmentMode {
        UpdateOrAppend(LOG_LEVEL, "debug");
      } else {
        assert vars[..3] == vars;
      }
    }

    method PrependAll(envVars: seq<EnvVar>)
      modifies this
      ensures env == AllPrepended(old(env), envVars)
    {
      for i := 0 to |envVars|
        invariant env == AllPrepended(old(env), envVars[..i])
      {
        assert envVars[..i + 1][..i] == envVars[..i];
        PrependOrUpdate(envVars[i]);
      }
      assert envVars[..|envVars|] == envVars;
    }

    method SetHeaders(headers: seq<Header>, protocol: string)
      modifies this
      ensures env == WithHeaders(AllPrepended(old(env), SecretVars(headers, protocol)), Rendered(headers, protocol))
    {
      var rendered, secretVars := ConvertHeadersToEnvVarValue(headers, protocol);
      PrependAll(secretVars);
      var i := IndexFunc(env, HEADERS);
      if i >= 0 {
        env := env[i := EnvVar(HEADERS, Headers(rendered))];
      } else {
        var endpoint := IndexFunc(env, ENDPOINT);
        env := Insert(env, endpoint + 1, EnvVar(HEADERS, Headers(rendered)));
      }
    }

    /** For the containers with an OpenTelemetry SDK. */
    method EnableInOTelSdkContainer(config: SelfMonitoringExport, authToken: Option<EnvVar>, attributes: string,
                                    developmentMode: bool)
      requires IsAuthorized(config) && authToken == AuthTokenFor(config)
      modifies this
      ensures env == Enabled(old(env), config, attributes, developmentMode)
    {
      if authToken.Some? {
        AddAuthToken(authToken.value);
      }
      var settings := ConvertExport(config);
      SetBasicVars(settings, attributes, developmentMode);
      if settings.headers == [] {
        var i := IndexFunc(env, HEADERS);
        if i >= 0 {
          env := Delete(env, i);
        }
        return;
      }
      SetHeaders(settings.headers, SecretProtocol(config));
    }
  }

  function AuthTokenFor(config: SelfMonitoringExport): Option<EnvVar>
    requires IsAuthorized(config)
  {
    if config.dash0.Some? then Some(AuthTokenVar(config)) else None
  }

  /** Without an authorization for a Dash0 export nothing is changed. */
  method EnableSelfMonitoringInContainers(containers: seq<Container>, call: EnableCall) returns (ok: bool)
    requires NoDuplicates(containers)
    modifies containers
    ensures ok <==> IsAuthorized(call.config)
    ensures forall i | 0 <= i < |containers| ::
      containers[i].env ==
      if ok then EnabledIn(old(containers[i].env), containers[i].name, call) else old(containers[i].env)
  {
    if !IsAuthorized(call.config) {
      return false;
    }
    var authToken := AuthTokenFor(call.config);
    assert forall i, j | 0 <= i < |containers| && 0 <= j < |containers| && i != j :: containers[i] != containers[j];
    hide *;
    for i := 0 to |containers|
      invariant forall j | 0 <= j < |containers| ::
        containers[j].env ==
        if j < i then EnabledIn(old(containers[j].env), containers[j].name, call) else old(containers[j].env)
    {
      EnableInContainer(containers[i], authToken, call);
    }
    return true;
  }

  method EnableInContainer(container: Container, authToken: Option<EnvVar>, call: EnableCall)
    requires IsAuthorized(call.config) && authToken == AuthTokenFor(call.config)
    modifies container
    ensures container.env == EnabledIn(old(container.env), container.name, call)
  {
    if call.collectorContainer != "" && container.name == call.collectorContainer {
      if authToken.Some? {
        container.AddAuthToken(authToken.value);
      }
      return;
    }
    var serviceName := if call.collectorContainer != "" then COLLECTOR_SERVICE_NAME else container.name;
    container.EnableInOTelSdkContainer(call.config, authToken, ResourceAttributes(serviceName, call.operatorVersion),
                                       call.developmentMode);
  }
}
