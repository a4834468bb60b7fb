/** Which version of the PersesDashboard resource type is watched, depending on the custom resource definition in the
    cluster and on the default API configurations. */
module PersesWatch {
  import opened Common

  datatype CrdVersion = CrdVersion(name: string, served: bool)

  const V1ALPHA1 := "v1alpha1"
  const V1ALPHA2 := "v1alpha2"
  const PREFERRED_VERSIONS := [V1ALPHA2, V1ALPHA1]

  predicate Serves(versions: seq<CrdVersion>, name: string) {
    CrdVersion(name, true) in versions
  }

  /** The first preferred version that is served. */
  function ChosenVersion(versions: seq<CrdVersion>): Option<string> {
    if Serves(versions, V1ALPHA2) then Some(V1ALPHA2)
    else if Serves(versions, V1ALPHA1) then Some(V1ALPHA1)
    else None
  }

  method ChooseVersionFromCrd(versions: seq<CrdVersion>) returns (chosen: Option<string>)
    ensures chosen == ChosenVersion(versions)
    ensures chosen ==
      if CrdVersion("v1alpha2", true) in versions then Some("v1alpha2")
      else if CrdVersion("v1alpha1", true) in versions then Some("v1alpha1")
      else None
  {
    var served: set<string> := {};
    for i := 0 to |versions|
      invariant forall name :: name in served <==> Serves(versions[..i], name)
    {
      if versions[i].served {
        served := served + {versions[i].name};
      }
    }
    assert versions[..|versions|] == versions;
    for i := 0 to |PREFERRED_VERSIONS|
      invariant forall j | 0 <= j < i :: PREFERRED_VERSIONS[j] !in served
    {
      assert i == 0 || (i == 1 && PREFERRED_VERSIONS[0] !in served);
      if PREFERRED_VERSIONS[i] in served {
        return Some(PREFERRED_VERSIONS[i]);
      }
    }
    assert PREFERRED_VERSIONS[0] !in served && PREFERRED_VERSIONS[1] !in served;
    return None;
  }

  predicate IsValid(config: ApiConfig) {
    config.endpoint != "" && config.token != ""
  }

  predicate HasValidConfig(configs: seq<ApiConfig>) {
    exists i :: 0 <= i < |configs| && IsValid(configs[i])
  }

  function ValidConfigs(configs: seq<ApiConfig>): (valid: seq<ApiConfig>)
    ensures forall config :: config in valid <==> config in configs && IsValid(config)
    ensures valid != [] <==> HasValidConfig(configs)
  {
    if configs == [] then
      []
    else
      var last := configs[|configs| - 1];
      assert configs == configs[..|configs| - 1] + [last];
      ValidConfigs(configs[..|configs| - 1]) + if IsValid(last) then [last] else []
  }

  /** The valid configurations, in the given order. */
  method FilterValidApiConfigs(configs: seq<ApiConfig>) returns (valid: seq<ApiConfig>)
    ensures valid == ValidConfigs(configs)
    ensures forall config :: config in valid <==> config in configs && config.endpoint != "" && config.token != ""
  {
    assert forall config :: IsValid(config) <==> config.endpoint != "" && config.token != "";
    valid := [];
    for i := 0 to |configs|
      invariant valid == ValidConfigs(configs[..i])
    {
      assert configs[..i + 1][..i] == configs[..i];
      if configs[i].endpoint == "" || configs[i].token == "" {
        continue;
      }
      valid := valid + [configs[i]];
    }
    assert configs[..|configs|] == configs;
  }

  /** Valid configurations keep their order: what the first configurations contribute comes first. */
  lemma {:induction false} ValidConfigsKeepOrder(configs: seq<ApiConfig>, i: nat)
    requires i <= |configs|
    ensures ValidConfigs(configs[..i]) <= ValidConfigs(configs)
  {
    hide ValidConfigs;
    if i == |configs| {
      assert configs[..i] == configs;
    } else {
      var n := |configs| - 1;
      assert configs[..n][..i] == configs[..i];
      ValidConfigsKeepOrder(configs[..n], i);
      LastConfig(configs);
    }
  }

  lemma LastConfig(configs: seq<ApiConfig>)
    requires configs != []
    ensures var n := |configs| - 1;
      ValidConfigs(configs) == ValidConfigs(configs[..n]) +
        if configs[n].endpoint != "" && configs[n].token != "" then [configs[n]] else []
  {
  }

  /** The version that has to be watched for a given definition, if there is one, and given configurations. */
  function ExpectedWatch(crd: Option<seq<CrdVersion>>, configs: seq<ApiConfig>): Option<string> {
    if crd.Some? && HasValidConfig(configs) then ChosenVersion(crd.value) else None
  }

  datatype Event =
    | CrdCreated(versions: seq<CrdVersion>)
    | CrdUpdated(versions: seq<CrdVersion>)
    | CrdDeleted
    | ConfigsSet(configs: seq<ApiConfig>)
    | ConfigsRemoved

  function CrdAfter(crd: Option<seq<CrdVersion>>, event: Event): Option<seq<CrdVersion>> {
    match event
    case CrdCreated(versions) => Some(versions)
    case CrdUpdated(versions) => Some(versions)
    case CrdDeleted => None
    case _ => crd
  }

  function ConfigsAfter(configs: seq<ApiConfig>, event: Event): seq<ApiConfig> {
    match event
    case ConfigsSet(newConfigs) => newConfigs
    case ConfigsRemoved => []
    case _ => configs
  }

  function CrdAfterAll(crd: Option<seq<CrdVersion>>, events: seq<Event>): Option<seq<CrdVersion>> {
    if events == [] then crd else CrdAfter(CrdAfterAll(crd, events[..|events| - 1]), events[|events| - 1])
  }

  function ConfigsAfterAll(configs: seq<ApiConfig>, events: seq<Event>): seq<ApiConfig> {
    if events == [] then configs
    else ConfigsAfter(ConfigsAfterAll(configs, events[..|events| - 1]), events[|events| - 1])
  }

  predicate ConcernsCrd(event: Event) {
    event.CrdCreated? || event.CrdUpdated? || event.CrdDeleted?
  }

  /** The last event for the definition tells what is in the cluster. */
  lemma {:induction false} LastCrdEventDecides(events: seq<Event>, i: nat)
    requires i < |events| && ConcernsCrd(events[i]) && forall j | i < j < |events| :: !ConcernsCrd(events[j])
    ensures CrdAfterAll(None, events) ==
      match events[i]
      case CrdCreated(versions) => Some(versions)
      case CrdUpdated(versions) => Some(versions)
      case _ => None
  {
    if i < |events| - 1 {
      LastCrdEventDecides(events[..|events| - 1], i);
    }
  }

  /** The last event for the configurations tells which ones are set. */
  lemma {:induction false} LastConfigEventDecides(events: seq<Event>, i: nat)
    requires i < |events| && !ConcernsCrd(events[i]) && forall j | i < j < |events| :: ConcernsCrd(events[j])
    ensures ConfigsAfterAll([], events) == if events[i].ConfigsSet? then events[i].configs else []
  {
    if i < |events| - 1 {
      LastConfigEventDecides(events[..|events| - 1], i);
    }
  }

  lemma {:induction false} NothingBeforeEvents(events: seq<Event>)
    ensures (forall j | 0 <= j < |events| :: !ConcernsCrd(events[j])) ==> CrdAfterAll(None, events) == None
    ensures (forall j | 0 <= j < |events| :: ConcernsCrd(events[j])) ==> ConfigsAfterAll([], events) == []
  {
    if events != [] {
      NothingBeforeEvents(events[..|events| - 1]);
    }
  }

  /** A definition is created when there is none, and updated and deleted when there is one. */
  predicate CanHappen(crd: Option<seq<CrdVersion>>, event: Event) {
    match event
    case CrdCreated(_) => crd.None?
    case CrdUpdated(_) => crd.Some?
    case CrdDeleted => crd.Some?
    case _ => true
  }

  ghost predicate IsPossible(events: seq<Event>) {
    forall i | 0 <= i < |events| :: CanHappen(CrdAfterAll(None, events[..i]), events[i])
  }

  class PersesDashboardCrdReconciler {
    var crdVersion: string
    var persesDashboardCrdExists: bool
    var defaultApiConfigs: seq<ApiConfig>
    /** The version of the running watch. */
    var watchedVersion: Option<string>
    /** The versions for which there is an informer. */
    var informers: set<string>
    /** The definition in the cluster. */
    ghost var crd: Option<seq<CrdVersion>>

    constructor ()
      ensures InStep() && crd == None && defaultApiConfigs == []
    {
      crdVersion, persesDashboardCrdExists, defaultApiConfigs := "", false, [];
      watchedVersion, informers, crd := None, {}, None;
    }

    /** The recorded state of the definition is the one in the cluster. */
    ghost predicate RecordsCrd()
      reads this
    {
      && (persesDashboardCrdExists <==> crd.Some? && ChosenVersion(crd.value).Some?)
      && (persesDashboardCrdExists ==> ChosenVersion(crd.value) == Some(crdVersion))
    }

    /** The running watch is the expected one, and the only informer is the one that belongs to it. */
    ghost predicate InStep()
      reads this
    {
      && RecordsCrd()
      && watchedVersion == ExpectedWatch(crd, defaultApiConfigs)
      && informers == if watchedVersion.Some? then {watchedVersion.value} else {}
    }

    method MaybeStartWatching()
      modifies this`watchedVersion, this`informers
      ensures if old(watchedVersion).Some? || !persesDashboardCrdExists || !HasValidConfig(defaultApiConfigs)
        then watchedVersion == old(watchedVersion) && informers == old(informers)
        else watchedVersion == Some(crdVersion) && informers == old(informers) + {crdVersion}
    {
      if watchedVersion.Some? {
        return;
      }
      if !persesDashboardCrdExists {
        return;
      }
      var validApiConfigs := FilterValidApiConfigs(defaultApiConfigs);
      if validApiConfigs == [] {
        return;
      }
      watchedVersion := Some(crdVersion);
      informers := informers + {crdVersion};
    }

    /** Removes the informer of the recorded version, not of the watched one. */
    method StopWatching()
      modifies this`watchedVersion, this`informers
      ensures watchedVersion == None
      ensures informers == if old(watchedVersion).None? then old(informers) else old(informers) - {crdVersion}
    {
      if watchedVersion.None? {
        return;
      }
      informers := informers - {crdVersion};
      watchedVersion := None;
    }

    method RecordCrdVersion(version: string)
      modifies this`crdVersion, this`persesDashboardCrdExists
      ensures crdVersion == version && persesDashboardCrdExists
    {
      crdVersion, persesDashboardCrdExists := version, true;
    }

    method ResetCrdVersion()
      modifies this`crdVersion, this`persesDashboardCrdExists
      ensures crdVersion == "" && !persesDashboardCrdExists
    {
      crdVersion, persesDashboardCrdExists := "", false;
    }

    method OnCrdChange(versions: seq<CrdVersion>)
      modifies this`crdVersion, this`persesDashboardCrdExists
      ensures persesDashboardCrdExists <==> ChosenVersion(versions).Some?
      ensures crdVersion == if ChosenVersion(versions).Some? then ChosenVersion(versions).value else ""
    {
      var chosen := ChooseVersionFromCrd(versions);
      if chosen.None? {
        ResetCrdVersion();
        return;
      }
      RecordCrdVersion(chosen.value);
    }

    /** A create event keeps the watch in step exactly if there is no watch yet or its version is still the chosen
        one. In particular it does if the definition has not been there before. */
    method Create(versions: seq<CrdVersion>)
      requires InStep()
      modifies this
      ensures crd == Some(versions) && defaultApiConfigs == old(defaultApiConfigs)
      ensures RecordsCrd()
      ensures old(watchedVersion).Some? ==> watchedVersion == old(watchedVersion) && informers == old(informers)
      ensures InStep() <==> old(watchedVersion).None? || ChosenVersion(versions) == old(watchedVersion)
    {
      crd := Some(versions);
      persesDashboardCrdExists := true;
      OnCrdChange(versions);
      MaybeStartWatching();
    }

    /** Restarts the watch if the chosen version changes. */
    method Update(versions: seq<CrdVersion>)
      requires InStep() && crd.Some?
      modifies this
      ensures InStep() && crd == Some(versions) && defaultApiConfigs == old(defaultApiConfigs)
    {
      crd := Some(versions);
      var previouslyHadCrd := persesDashboardCrdExists;
      var previousVersion := crdVersion;
      var chosen := ChooseVersionFromCrd(versions);
      if chosen.None? {
        if previouslyHadCrd && watchedVersion.Some? {
          StopWatching();
        }
        ResetCrdVersion();
        return;
      }
      var newVersion := chosen.value;
      if previouslyHadCrd && previousVersion == newVersion {
        return;
      }
      if watchedVersion.None? {
        RecordCrdVersion(newVersion);
        if !previouslyHadCrd {
          MaybeStartWatching();
        }
        return;
      }
      StopWatching();
      RecordCrdVersion(newVersion);
      MaybeStartWatching();
    }

    method Delete()
      requires InStep()
      modifies this
      ensures InStep() && crd == None && defaultApiConfigs == old(defaultApiConfigs)
    {
      crd := None;
      persesDashboardCrdExists := false;
      StopWatching();
    }

    method SetDefaultApiConfigs(configs: seq<ApiConfig>)
      requires InStep()
      modifies this
      ensures InStep() && crd == old(crd) && defaultApiConfigs == configs
    {
      defaultApiConfigs := configs;
      var validApiConfigs := FilterValidApiConfigs(configs);
      if validApiConfigs != [] {
        MaybeStartWatching();
      } else {
        StopWatching();
      }
    }

    method RemoveDefaultApiConfigs()
      requires InStep()
      modifies this
      ensures InStep() && crd == old(crd) && defaultApiConfigs == []
    {
      defaultApiConfigs := [];
      StopWatching();
    }
  }

  /** After every possible run of events, the watch is the one expected for the definition that is then in the
      cluster and the configurations that are then set, and no informer of another version is left over. */
  method HandleEvents(events: seq<Event>) returns (reconciler: PersesDashboardCrdReconciler)
    requires IsPossible(events)
    ensures var crd, configs := CrdAfterAll(None, events), ConfigsAfterAll([], events);
      reconciler.watchedVersion ==
      if crd.None? || !(exists i :: 0 <= i < |configs| && configs[i].endpoint != "" && configs[i].token != "") then None
      else if CrdVersion("v1alpha2", true) in crd.value then Some("v1alpha2")
      else if CrdVersion("v1alpha1", true) in crd.value then Some("v1alpha1")
      else None
    ensures reconciler.informers ==
      if reconciler.watchedVersion.Some? then {reconciler.watchedVersion.value} else {}
    ensures reconciler.watchedVersion.Some? ==> reconciler.crdVersion == reconciler.watchedVersion.value
  {
    reconciler := new PersesDashboardCrdReconciler();
    for i := 0 to |events|
      invariant fresh(reconciler) && reconciler.InStep()
      invariant reconciler.crd == CrdAfterAll(None, events[..i])
      invariant reconciler.defaultApiConfigs == ConfigsAfterAll([], events[..i])
    {
      assert events[..i + 1][..i] == events[..i];
      match events[i] {
        case CrdCreated(versions) => reconciler.Create(versions);
        case CrdUpdated(versions) => reconciler.Update(versions);
        case CrdDeleted => reconciler.Delete();
        case ConfigsSet(configs) => reconciler.SetDefaultApiConfigs(configs);
        case ConfigsRemoved => reconciler.RemoveDefaultApiConfigs();
      }
    }
    assert events[..|events|] == events;
  }

  /** A create event while a watch is running can leave the watch behind: the old version goes on being watched, and
      when the watch is stopped, the informer of the new version is removed, so the one of the old version is left
      over. */
  method CreateWhileWatchingIsNotFollowed(config: ApiConfig)
    returns (reconciler: PersesDashboardCrdReconciler, ghost inStep: bool, watched: Option<string>)
    requires IsValid(config)
    ensures !inStep && watched == Some(V1ALPHA1)
    ensures ChosenVersion([CrdVersion(V1ALPHA2, true)]) == Some(V1ALPHA2)
    ensures reconciler.watchedVersion == None && reconciler.informers == {V1ALPHA1}
  {
    reconciler := new PersesDashboardCrdReconciler();
    var served1, served2 := CrdVersion(V1ALPHA1, true), CrdVersion(V1ALPHA2, true);
    assert [served1][0] == served1 && [served2][0] == served2 && [config][0] == config;
    reconciler.Create([served1]);
    reconciler.SetDefaultApiConfigs([config]);
    assert reconciler.watchedVersion == Some(V1ALPHA1);
    reconciler.Create([served2]);
    inStep, watched := reconciler.InStep(), reconciler.watchedVersion;
    reconciler.StopWatching();
  }
}
