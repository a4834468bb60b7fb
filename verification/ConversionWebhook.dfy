/** Pointing the conversion webhook of the PersesDashboard definition at the operator, while other writers, among them
    further replicas of the operator manager, change the definition at any time. */
module ConversionWebhook {
  import opened Common

  datatype Service = Service(name: string, namespace: string, path: Option<string>, port: Option<int>)

  datatype ClientConfig = ClientConfig(service: Option<Service>, url: Option<string>, caBundle: string)

  datatype Strategy = NoConversion | WebhookConverter

  datatype Stanza = Stanza(strategy: Strategy, webhook: Option<ClientConfig>)

  datatype Settings = Settings(serviceName: string, operatorNamespace: string, servicePort: int)

  const WEBHOOK_PATH := "/convert-persesdashboard"

  predicate StanzaMatchesOurs(settings: Settings, stanza: Option<Stanza>) {
    && stanza.Some? && stanza.value.strategy.WebhookConverter? && stanza.value.webhook.Some?
    && var service := stanza.value.webhook.value.service;
       && service.Some?
       && service.value.name == settings.serviceName && service.value.namespace == settings.operatorNamespace
       && service.value.port == Some(settings.servicePort)
       && service.value.path == Some(WEBHOOK_PATH)
  }

  predicate CaBundleMatches(stanza: Option<Stanza>, caBundle: string) {
    stanza.Some? && stanza.value.webhook.Some? && stanza.value.webhook.value.caBundle == caBundle
  }

  predicate HasConversionWebhook(stanza: Option<Stanza>) {
    && stanza.Some? && stanza.value.strategy.WebhookConverter? && stanza.value.webhook.Some?
    && var clientConfig := stanza.value.webhook.value;
       clientConfig.service.Some? || (clientConfig.url.Some? && clientConfig.url.value != "")
  }

  /** A conversion webhook that somebody else has configured. */
  predicate IsForeign(settings: Settings, stanza: Option<Stanza>) {
    HasConversionWebhook(stanza) && !StanzaMatchesOurs(settings, stanza)
  }

  function BuildStanza(settings: Settings, caBundle: string): Stanza {
    Stanza(WebhookConverter, Some(ClientConfig(
      Some(Service(settings.serviceName, settings.operatorNamespace, Some(WEBHOOK_PATH), Some(settings.servicePort))),
      None, caBundle)))
  }

  predicate IsSpace(c: char) {
    c in {' ', '\t', '\n', '\r', 11 as char, 12 as char}
  }

  /** A CA bundle that is missing or consists of white space is not used. */
  predicate IsUsable(caBundle: Option<string>) {
    caBundle.Some? && exists i :: 0 <= i < |caBundle.value| && !IsSpace(caBundle.value[i])
  }

  /** The stanza to patch in, if the given one needs a patch. */
  function Decide(settings: Settings, stanza: Option<Stanza>, caBundle: Option<string>): Option<Stanza> {
    if !StanzaMatchesOurs(settings, stanza) && HasConversionWebhook(stanza) then None
    else if !IsUsable(caBundle) then None
    else if StanzaMatchesOurs(settings, stanza) && CaBundleMatches(stanza, caBundle.value) then None
    else Some(BuildStanza(settings, caBundle.value))
  }

  /** A patched definition satisfies both predicates, so the next attempt with the same CA bundle is a no-op, and a
      foreign conversion webhook is never up for replacement. */
  lemma PatchIsStable(settings: Settings, stanza: Option<Stanza>, caBundle: Option<string>)
    requires Decide(settings, stanza, caBundle).Some?
    ensures StanzaMatchesOurs(settings, Decide(settings, stanza, caBundle))
    ensures IsUsable(caBundle) && CaBundleMatches(Decide(settings, stanza, caBundle), caBundle.value)
    ensures Decide(settings, Decide(settings, stanza, caBundle), caBundle).None?
    ensures !IsForeign(settings, stanza) && stanza != Decide(settings, stanza, caBundle)
  {
  }

  // ---------------------------------------------------------------------------------------------
  // The interleaving of replicas and other writers
  // ---------------------------------------------------------------------------------------------

  /** One version of the definition: its stanza, and the CA bundle with which the operator wrote it, if it did. */
  datatype Version = Version(stanza: Option<Stanza>, writtenWith: Option<string>)

  const MAX_ATTEMPTS := 5

  /** A replica works on the version it has read, which can be outdated, or is about to read the definition again. */
  datatype Replica =
    | Idle
    | HasRead(version: nat, attempt: nat)
    | Conflicted(attempt: nat)

  /** All versions of the definition so far; the resource version is the index of the last one. */
  datatype State = State(versions: seq<Version>, replicas: seq<Replica>)

  datatype Step =
    | OtherWrite(stanza: Option<Stanza>)               // by anybody else, also if the stanza stays the same
    | Observe(replica: nat, version: nat)              // an event delivers a version, perhaps an old one
    | Attempt(replica: nat, caBundle: Option<string>)  // patchConversionWebhookIfNecessary
    | Reread(replica: nat)                             // after a conflict, without the cache
    | GiveUp(replica: nat)                             // any other error

  predicate Enabled(s: State, step: Step) {
    match step
    case OtherWrite(_) => true
    case Observe(r, version) => r < |s.replicas| && s.replicas[r].Idle? && version < |s.versions|
    case Attempt(r, _) => r < |s.replicas| && s.replicas[r].HasRead? && s.replicas[r].version < |s.versions|
    case Reread(r) => r < |s.replicas| && s.replicas[r].Conflicted? && s.versions != []
    case GiveUp(r) => r < |s.replicas| && !s.replicas[r].Idle?
  }

  /** The versions after an attempt that is based on the given version: the patch is refused if the version is
      outdated. */
  function Patched(settings: Settings, versions: seq<Version>, version: nat, caBundle: Option<string>): seq<Version>
    requires version < |versions|
  {
    var decision := Decide(settings, versions[version].stanza, caBundle);
    if decision.Some? && version == |versions| - 1 then versions + [Version(decision, caBundle)] else versions
  }

  predicate Conflicts(settings: Settings, versions: seq<Version>, version: nat, caBundle: Option<string>)
    requires version < |versions|
  {
    Decide(settings, versions[version].stanza, caBundle).Some? && version < |versions| - 1
  }

  function Next(settings: Settings, s: State, step: Step): State
    requires Enabled(s, step)
  {
    match step
    case OtherWrite(stanza) => s.(versions := s.versions + [Version(stanza, None)])
    case Observe(r, version) => s.(replicas := s.replicas[r := HasRead(version, 1)])
    case Attempt(r, caBundle) =>
      var version, attempt := s.replicas[r].version, s.replicas[r].attempt;
      State(Patched(settings, s.versions, version, caBundle),
            s.replicas[r := if Conflicts(settings, s.versions, version, caBundle) && attempt < MAX_ATTEMPTS
                            then Conflicted(attempt + 1) else Idle])
    case Reread(r) => s.(replicas := s.replicas[r := HasRead(|s.versions| - 1, s.replicas[r].attempt)])
    case GiveUp(r) => s.(replicas := s.replicas[r := Idle])
  }

  /** Whatever the operator has written replaced a version that was not foreign, with a usable CA bundle, and was
      needed. */
  ghost predicate OperatorWritesAreSafe(settings: Settings, versions: seq<Version>) {
    forall i | 0 <= i < |versions| && versions[i].writtenWith.Some? ::
      && i > 0
      && IsUsable(versions[i].writtenWith)
      && versions[i].stanza == Some(BuildStanza(settings, versions[i].writtenWith.value))
      && !IsForeign(settings, versions[i - 1].stanza)
      && versions[i - 1].stanza != versions[i].stanza
  }

  ghost predicate Inv(settings: Settings, s: State) {
    && OperatorWritesAreSafe(settings, s.versions)
    && (forall r | 0 <= r < |s.replicas| && s.replicas[r].HasRead? ::
      s.replicas[r].version < |s.versions| && s.replicas[r].attempt <= MAX_ATTEMPTS)
    && forall r | 0 <= r < |s.replicas| && s.replicas[r].Conflicted? :: s.replicas[r].attempt <= MAX_ATTEMPTS
  }

  lemma NextKeepsInv(settings: Settings, s: State, step: Step)
    requires Inv(settings, s) && Enabled(s, step)
    ensures Inv(settings, Next(settings, s, step))
  {
    if step.Attempt? {
      var version := s.replicas[step.replica].version;
      if Decide(settings, s.versions[version].stanza, step.caBundle).Some? {
        PatchIsStable(settings, s.versions[version].stanza, step.caBundle);
      }
    }
  }

  ghost predicate IsRun(settings: Settings, states: seq<State>, steps: seq<Step>) {
    && |states| == |steps| + 1
    && (forall v | 0 <= v < |states[0].versions| :: states[0].versions[v].writtenWith.None?)
    && (forall r | 0 <= r < |states[0].replicas| :: states[0].replicas[r].Idle?)
    && forall i | 0 <= i < |steps| ::
      Enabled(states[i], steps[i]) && states[i + 1] == Next(settings, states[i], steps[i])
  }

  lemma {:induction false} RunKeepsInv(settings: Settings, states: seq<State>, steps: seq<Step>)
    requires IsRun(settings, states, steps)
    ensures Inv(settings, states[|steps|])
  {
    if steps != [] {
      var n := |steps| - 1;
      RunKeepsInv(settings, states[..n + 1], steps[..n]);
      NextKeepsInv(settings, states[n], steps[n]);
    }
  }

  /** The webhook calls the service of the operator, at its port and path. */
  ghost predicate CallsOperator(settings: Settings, clientConfig: ClientConfig) {
    && clientConfig.service.Some?
    && clientConfig.service.value.name == settings.serviceName
    && clientConfig.service.value.namespace == settings.operatorNamespace
    && clientConfig.service.value.port == Some(settings.servicePort)
    && clientConfig.service.value.path == Some("/convert-persesdashboard")
  }

  /** Nobody is called: there is no conversion webhook, or it has neither a service nor a URL. */
  ghost predicate CallsNobody(stanza: Option<Stanza>) {
    || stanza == None || stanza.value.strategy == NoConversion || stanza.value.webhook == None
    || (stanza.value.webhook.value.service == None && stanza.value.webhook.value.url in {None, Some("")})
  }

  /** The text consists of white space. */
  ghost predicate IsBlank(text: string) {
    forall k | 0 <= k < |text| :: text[k] in {' ', '\t', '\n', '\r', 11 as char, 12 as char}
  }

  lemma UsableIff(caBundle: Option<string>)
    ensures IsUsable(caBundle) <==> caBundle.Some? && !IsBlank(caBundle.value)
  {
  }

  /** In every run, whatever the operator has written replaced a version that calls nobody or the operator itself, and
      it calls the operator, with the CA bundle that it was written with and that is not blank. */
  lemma ForeignWebhookIsNeverReplaced(settings: Settings, states: seq<State>, steps: seq<Step>, i: nat)
    requires IsRun(settings, states, steps)
    requires i < |states[|steps|].versions| && states[|steps|].versions[i].writtenWith.Some?
    ensures i > 0
    ensures var before := states[|steps|].versions[i - 1].stanza;
      CallsNobody(before) || CallsOperator(settings, before.value.webhook.value)
    ensures var written := states[|steps|].versions[i];
      && written.stanza.Some? && written.stanza.value.strategy == WebhookConverter
      && written.stanza.value.webhook.Some?
      && CallsOperator(settings, written.stanza.value.webhook.value)
      && written.stanza.value.webhook.value.url == None
      && written.stanza.value.webhook.value.caBundle == written.writtenWith.value
      && !IsBlank(written.writtenWith.value)
  {
    RunKeepsInv(settings, states, steps);
    UsableIff(states[|steps|].versions[i].writtenWith);
    hide Next;
  }

  /** What an attempt writes, on the fields: it patches exactly if the version it has read calls nobody or the operator,
      there is a CA bundle that is not blank, and the version does not call the operator with this bundle yet. */
  lemma PatchesIff(settings: Settings, stanza: Option<Stanza>, caBundle: Option<string>)
    ensures Decide(settings, stanza, caBundle).Some? <==>
      && (CallsNobody(stanza) || CallsOperator(settings, stanza.value.webhook.value))
      && caBundle.Some?
      && !IsBlank(caBundle.value)
      && (CallsNobody(stanza) || stanza.value.webhook.value.caBundle != caBundle.value)
  {
    UsableIff(caBundle);
  }

  /** A replica attempts at most five times in a row: an attempt that runs into a conflict is followed by another
      one, on the latest version, unless it was the fifth. */
  lemma RetriesAfterConflict(settings: Settings, s: State, r: nat, caBundle: Option<string>)
    requires Enabled(s, Attempt(r, caBundle))
    requires Conflicts(settings, s.versions, s.replicas[r].version, caBundle)
    ensures var t := Next(settings, s, Attempt(r, caBundle));
      && t.versions == s.versions
      && if s.replicas[r].attempt >= 5 then t.replicas[r] == Idle
         else Enabled(t, Reread(r)) &&
              Next(settings, t, Reread(r)).replicas[r] == HasRead(|s.versions| - 1, s.replicas[r].attempt + 1)
  {
  }

  /** The attempts of a replica since an event has last delivered a version to it. */
  function AttemptsSince(steps: seq<Step>, r: nat): nat {
    if steps == [] then 0
    else
      var last := steps[|steps| - 1];
      if last.Observe? && last.replica == r then 0
      else AttemptsSince(steps[..|steps| - 1], r) + if last.Attempt? && last.replica == r then 1 else 0
  }

  /** In every run, no event leads to more than five attempts of a replica. */
  lemma {:induction false} AttemptsAreBounded(settings: Settings, states: seq<State>, steps: seq<Step>, r: nat)
    requires IsRun(settings, states, steps) && r < |states[0].replicas|
    ensures r < |states[|steps|].replicas|
    ensures AttemptsSince(steps, r) <= 5
    ensures match states[|steps|].replicas[r]
      case Idle => true
      case HasRead(_, attempt) => attempt == AttemptsSince(steps, r) + 1 <= 5
      case Conflicted(attempt) => attempt == AttemptsSince(steps, r) + 1 <= 5
  {
    if steps != [] {
      var n := |steps| - 1;
      AttemptsAreBounded(settings, states[..n + 1], steps[..n], r);
      assert states[n + 1] == Next(settings, states[n], steps[n]);
    }
  }

  /** Replicas that see the same CA bundle never patch over each other: between two versions written by the operator
      with the same bundle, somebody else has written. */
  lemma ReplicasDoNotOverwriteEachOther(settings: Settings, states: seq<State>, steps: seq<Step>, i: nat)
    requires IsRun(settings, states, steps)
    requires i + 1 < |states[|steps|].versions| && states[|steps|].versions[i].writtenWith.Some?
    ensures states[|steps|].versions[i + 1].writtenWith != states[|steps|].versions[i].writtenWith
  {
    RunKeepsInv(settings, states, steps);
  }

  // ---------------------------------------------------------------------------------------------
  // One attempt against the API server
  // ---------------------------------------------------------------------------------------------

  class ApiServer {
    var versions: seq<Version>

    /** A patch with optimistic locking. */
    method Patch(resourceVersion: nat, stanza: Stanza, caBundle: string) returns (conflict: bool)
      requires resourceVersion < |versions|
      modifies this
      ensures conflict <==> resourceVersion < |old(versions)| - 1
      ensures versions == if conflict then old(versions) else old(versions) + [Version(Some(stanza), Some(caBundle))]
    {
      conflict := resourceVersion != |versions| - 1;
      if !conflict {
        versions := versions + [Version(Some(stanza), Some(caBundle))];
      }
    }
  }

  method PatchConversionWebhookIfNecessary(server: ApiServer, settings: Settings, crd: nat, caBundle: Option<string>)
    returns (stanzaMatches: bool, conflict: bool)
    requires crd < |server.versions|
    modifies server
    ensures stanzaMatches <==>
      && !CallsNobody(old(server.versions)[crd].stanza)
      && CallsOperator(settings, old(server.versions)[crd].stanza.value.webhook.value)
    ensures server.versions == Patched(settings, old(server.versions), crd, caBundle)
    ensures conflict == Conflicts(settings, old(server.versions), crd, caBundle)
  {
    var stanza := server.versions[crd].stanza;
    stanzaMatches := StanzaMatchesOurs(settings, stanza);
    conflict := false;
    if !stanzaMatches && HasConversionWebhook(stanza) {
      return;
    }
    if !IsUsable(caBundle) {
      return;
    }
    if stanzaMatches && CaBundleMatches(stanza, caBundle.value) {
      return;
    }
    conflict := server.Patch(crd, BuildStanza(settings, caBundle.value), caBundle.value);
  }
}
