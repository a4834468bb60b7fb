/** Synchronizing all PrometheusRules of a namespace with one shared listing of the objects that exist for the
    namespace, instead of one listing per resource. */
module NamespaceResync {
  import opened Common
  import opened RuleOrigins
  import opened Dash0Backend
  import opened RuleSync
  import opened RuleConvergence

  /** Where the resources of one resync live. */
  datatype Site = Site(clusterUid: string, dataset: string, namespace: string) {
    function Prefix(): string {
      NamespacePrefix(clusterUid, dataset, namespace)
    }

    function PrefixOf(name: string): string {
      ResourcePrefix(clusterUid, dataset, namespace, name)
    }
  }

  /** The resync of one resource, with everything that goes wrong while it is processed. */
  datatype Job = Job(name: string, spec: Option<seq<RuleGroup>>, action: Action, faults: Faults)

  function WithPrefix(objects: seq<ApiObject>, prefix: string): seq<ApiObject> {
    if objects == [] then
      []
    else
      var last := objects[|objects| - 1];
      WithPrefix(objects[..|objects| - 1], prefix) + (if prefix <= last.origin then [last] else [])
  }

  lemma {:induction false} WithPrefixFilters(objects: seq<ApiObject>, prefix: string)
    ensures forall o :: o in WithPrefix(objects, prefix) <==> o in objects && prefix <= o.origin
    ensures NoDuplicates(objects) ==> NoDuplicates(WithPrefix(objects, prefix))
  {
    if objects != [] {
      WithPrefixFilters(objects[..|objects| - 1], prefix);
    }
  }

  // ---------------------------------------------------------------------------------------------
  // The memoised listing
  // ---------------------------------------------------------------------------------------------

  class ExistingOriginsInNamespace {
    var originsPerApiConfig: map<ApiConfig, Listing>

    constructor ()
      ensures originsPerApiConfig == map[]
    {
      originsPerApiConfig := map[];
    }

    /** Fetches on the first call for a configuration only; a failed fetch is remembered as well. The parameter is
        what a fetch would return now. */
    method Get(config: ApiConfig, fetched: Listing) returns (listing: Listing)
      modifies this
      ensures listing == if config in old(originsPerApiConfig) then old(originsPerApiConfig)[config] else fetched
      ensures originsPerApiConfig == old(originsPerApiConfig)[config := listing]
    {
      if config in originsPerApiConfig {
        return originsPerApiConfig[config];
      }
      listing := fetched;
      originsPerApiConfig := originsPerApiConfig[config := listing];
    }

    /** The existing objects of one resource, taken from the listing of its namespace. */
    method OriginsOfResource(config: ApiConfig, fetched: Listing, prefix: string) returns (listing: Listing)
      modifies this
      ensures var all := if config in old(originsPerApiConfig) then old(originsPerApiConfig)[config] else fetched;
        && listing == ListingFor(all, prefix)
        && originsPerApiConfig == old(originsPerApiConfig)[config := all]
    {
      var all := Get(config, fetched);
      if all.FetchFailed? {
        return all;
      }
      var originsOfResource: seq<ApiObject> := [];
      for i := 0 to |all.objects|
        invariant originsOfResource == WithPrefix(all.objects[..i], prefix)
      {
        assert all.objects[..i + 1][..i] == all.objects[..i];
        if prefix <= all.objects[i].origin {
          originsOfResource := originsOfResource + [all.objects[i]];
        }
      }
      assert all.objects[..|all.objects|] == all.objects;
      listing := Known(originsOfResource);
    }
  }

  ghost function Process(conversions: Conversions, site: Site, objects: map<ApiObject, Payload>, job: Job,
                         listing: Listing): map<ApiObject, Payload>
  {
    Synchronized(conversions, site.PrefixOf(job.name), job.spec, job.action, false, listing, job.faults, objects)
  }

  /** What a job gets to see of the shared listing: nothing but the failure if fetching it has failed. */
  function ListingFor(shared: Listing, prefix: string): Listing {
    if shared.Known? then Known(WithPrefix(shared.objects, prefix)) else shared
  }

  ghost function MemoisedRun(conversions: Conversions, site: Site, before: map<ApiObject, Payload>, jobs: seq<Job>,
                             shared: Listing): map<ApiObject, Payload>
  {
    if jobs == [] then
      before
    else
      var last := jobs[|jobs| - 1];
      Process(conversions, site, MemoisedRun(conversions, site, before, jobs[..|jobs| - 1], shared), last,
              ListingFor(shared, site.PrefixOf(last.name)))
  }

  /** The jobs of one resync share one instance of the memoised listing. Only the first listing that is offered is used,
      also if it has failed. */
  method ResyncNamespace(api: Dash0Api, conversions: Conversions, site: Site, config: ApiConfig, jobs: seq<Job>,
                         offered: seq<Listing>)
    requires |offered| == |jobs|
    modifies api
    ensures jobs != [] ==> api.objects == MemoisedRun(conversions, site, old(api.objects), jobs, offered[0])
    ensures jobs == [] ==> api.objects == old(api.objects)
  {
    hide Process, ListingFor;
    var originsInNamespace := new ExistingOriginsInNamespace();
    for i := 0 to |jobs|
      invariant originsInNamespace.originsPerApiConfig == if i == 0 then map[] else map[config := offered[0]]
      invariant api.objects ==
        if i == 0 then old(api.objects) else MemoisedRun(conversions, site, old(api.objects), jobs[..i], offered[0])
    {
      assert jobs[..i + 1][..i] == jobs[..i];
      ResyncResource(api, originsInNamespace, conversions, site, config, jobs[i], offered[i]);
    }
    assert jobs[..|jobs|] == jobs;
  }

  method ResyncResource(api: Dash0Api, originsInNamespace: ExistingOriginsInNamespace, conversions: Conversions,
                        site: Site, config: ApiConfig, job: Job, fetched: Listing)
    modifies api, originsInNamespace
    ensures var known := old(originsInNamespace.originsPerApiConfig);
      var all := if config in known then known[config] else fetched;
      && originsInNamespace.originsPerApiConfig == known[config := all]
      && api.objects == Process(conversions, site, old(api.objects), job, ListingFor(all, site.PrefixOf(job.name)))
  {
    var prefix := site.PrefixOf(job.name);
    var listing := originsInNamespace.OriginsOfResource(config, fetched, prefix);
    var _, _ := SynchronizeViaApi(api, conversions, prefix, job.spec, job.action, false, listing, job.faults);
  }

  // ---------------------------------------------------------------------------------------------
  // The memoised run refines one that lists the objects of every resource anew
  // ---------------------------------------------------------------------------------------------

  /** A listing for a whole namespace may contain objects of other namespaces as well. */
  ghost predicate IsNamespaceListing(objects: map<ApiObject, Payload>, site: Site, listing: seq<ApiObject>) {
    && NoDuplicates(listing)
    && (forall o | o in listing :: o in objects)
    && forall o | o in objects && site.Prefix() <= o.origin :: o in listing
  }

  /** One state before each job and one at the end, and the listing that each job fetches for its own resource. */
  ghost predicate RefetchingRun(conversions: Conversions, site: Site, jobs: seq<Job>, listings: seq<seq<ApiObject>>,
                                states: seq<map<ApiObject, Payload>>)
  {
    && |listings| == |jobs| && |states| == |jobs| + 1
    && forall i | 0 <= i < |jobs| ::
      && IsListing(states[i], site.PrefixOf(jobs[i].name), listings[i])
      && states[i + 1] == Process(conversions, site, states[i], jobs[i], Known(listings[i]))
  }

  ghost predicate DifferentResources(jobs: seq<Job>) {
    && (forall i | 0 <= i < |jobs| :: IsKubernetesName(jobs[i].name))
    && forall i, j | 0 <= i < j < |jobs| :: jobs[i].name != jobs[j].name
  }

  /** The order of a listing does not matter. */
  lemma ListingOrderIsIrrelevant(conversions: Conversions, site: Site, objects: map<ApiObject, Payload>, job: Job,
                                 a: seq<ApiObject>, b: seq<ApiObject>)
    requires NoDuplicates(a) && NoDuplicates(b)
    requires forall o :: o in a <==> o in b
    ensures Process(conversions, site, objects, job, Known(a)) == Process(conversions, site, objects, job, Known(b))
  {
    var prefix := site.PrefixOf(job.name);
    var items := Items(prefix, job.spec);
    ItemsAreProper(prefix, job.spec);
    var viaA := Process(conversions, site, objects, job, Known(a));
    var viaB := Process(conversions, site, objects, job, Known(b));
    forall o
      ensures Lookup(viaA, o) == Lookup(viaB, o)
    {
      SyncChanges(conversions, prefix, items, job.action, false, Known(a), job.faults, objects, o);
      SyncChanges(conversions, prefix, items, job.action, false, Known(b), job.faults, objects, o);
      assert forall verb :: IsRequested(conversions, items, job.action, false, Known(a), o, verb) <==>
        IsRequested(conversions, items, job.action, false, Known(b), o, verb);
    }
    SameLookups(viaA, viaB);
  }

  /** A job only touches objects under the prefix of its own resource. */
  lemma JobStaysUnderItsPrefix(conversions: Conversions, site: Site, objects: map<ApiObject, Payload>, job: Job,
                               listing: Listing, o: ApiObject)
    requires IsUnder(site.PrefixOf(job.name), listing) && !(site.PrefixOf(job.name) <= o.origin)
    ensures Lookup(Process(conversions, site, objects, job, listing), o) == Lookup(objects, o)
  {
    SynchronizedStaysUnderPrefix(conversions, site.PrefixOf(job.name), job.spec, job.action, false, listing, job.faults,
                                 objects, o);
  }

  /** Jobs of different resources commute, whatever they see under their own prefixes, whether or not their listings
      succeed, and whatever calls fail. So it makes no difference which of two such jobs is processed first, by a resync
      or by a worker of the queue. */
  lemma JobsOfDifferentResourcesCommute(conversions: Conversions, site: Site, objects: map<ApiObject, Payload>, a: Job,
                                        b: Job, seenByA: Listing, seenByB: Listing)
    requires IsKubernetesName(site.namespace) && IsKubernetesName(a.name) && IsKubernetesName(b.name)
    requires a.name != b.name
    requires IsUnder(site.PrefixOf(a.name), seenByA) && IsUnder(site.PrefixOf(b.name), seenByB)
    ensures
      Process(conversions, site, Process(conversions, site, objects, a, seenByA), b, seenByB) ==
      Process(conversions, site, Process(conversions, site, objects, b, seenByB), a, seenByA)
  {
    var afterA := Process(conversions, site, objects, a, seenByA);
    var afterB := Process(conversions, site, objects, b, seenByB);
    var ab := Process(conversions, site, afterA, b, seenByB);
    var ba := Process(conversions, site, afterB, a, seenByA);
    hide Process, IsUnder;
    forall o
      ensures Lookup(ab, o) == Lookup(ba, o)
    {
      if !(site.PrefixOf(b.name) <= o.origin) {
        JobStaysUnderItsPrefix(conversions, site, afterA, b, seenByB, o);
        JobStaysUnderItsPrefix(conversions, site, objects, b, seenByB, o);
        JobDependsOnItsObjectOnly(conversions, site, objects, afterB, a, seenByA, o);
      } else {
        if site.PrefixOf(a.name) <= o.origin {
          PrefixesNeverOverlap(site.clusterUid, site.dataset, site.namespace, a.name, site.namespace, b.name,
                               o.origin);
        }
        JobStaysUnderItsPrefix(conversions, site, afterB, a, seenByA, o);
        JobStaysUnderItsPrefix(conversions, site, objects, a, seenByA, o);
        JobDependsOnItsObjectOnly(conversions, site, objects, afterA, b, seenByB, o);
      }
    }
    SameLookups(ab, ba);
  }

  /** What a job makes of an object depends on this object alone. */
  lemma JobDependsOnItsObjectOnly(conversions: Conversions, site: Site, objects: map<ApiObject, Payload>,
                                  objects': map<ApiObject, Payload>, job: Job, listing: Listing, o: ApiObject)
    requires IsUnder(site.PrefixOf(job.name), listing) && Lookup(objects, o) == Lookup(objects', o)
    ensures Lookup(Process(conversions, site, objects, job, listing), o) ==
      Lookup(Process(conversions, site, objects', job, listing), o)
  {
    var prefix := site.PrefixOf(job.name);
    var items := Items(prefix, job.spec);
    ItemsAreProper(prefix, job.spec);
    SyncChanges(conversions, prefix, items, job.action, false, listing, job.faults, objects, o);
    SyncChanges(conversions, prefix, items, job.action, false, listing, job.faults, objects', o);
  }

  lemma {:induction false} JobsLeaveOtherResourcesAlone(conversions: Conversions, site: Site,
                                                        before: map<ApiObject, Payload>, jobs: seq<Job>,
                                                        shared: Listing, name: string, o: ApiObject)
    requires shared.Known? ==> NoDuplicates(shared.objects)
    requires IsKubernetesName(site.namespace) && IsKubernetesName(name)
    requires forall i | 0 <= i < |jobs| :: IsKubernetesName(jobs[i].name) && jobs[i].name != name
    requires site.PrefixOf(name) <= o.origin
    ensures Lookup(MemoisedRun(conversions, site, before, jobs, shared), o) == Lookup(before, o)
  {
    if jobs != [] {
      var n := |jobs| - 1;
      JobsLeaveOtherResourcesAlone(conversions, site, before, jobs[..n], shared, name, o);
      if shared.Known? {
        WithPrefixFilters(shared.objects, site.PrefixOf(jobs[n].name));
      }
      if site.PrefixOf(jobs[n].name) <= o.origin {
        PrefixesNeverOverlap(site.clusterUid, site.dataset, site.namespace, name, site.namespace, jobs[n].name,
                             o.origin);
      }
      JobStaysUnderItsPrefix(conversions, site, MemoisedRun(conversions, site, before, jobs[..n], shared), jobs[n],
                             ListingFor(shared, site.PrefixOf(jobs[n].name)), o);
    }
  }

  /** Whatever calls fail, resyncing different resources of a namespace with one shared listing leaves the same objects
      with the same contents behind as listing the objects of each resource right before it is processed. */
  lemma {:induction false} MemoisedRunRefinesRefetching(conversions: Conversions, site: Site, jobs: seq<Job>,
                                                        namespaceListing: seq<ApiObject>,
                                                        listings: seq<seq<ApiObject>>,
                                                        states: seq<map<ApiObject, Payload>>)
    requires RefetchingRun(conversions, site, jobs, listings, states)
    requires DifferentResources(jobs) && IsKubernetesName(site.namespace)
    requires IsNamespaceListing(states[0], site, namespaceListing)
    ensures MemoisedRun(conversions, site, states[0], jobs, Known(namespaceListing)) == states[|jobs|]
  {
    if jobs != [] {
      var n := |jobs| - 1;
      var prefix := site.PrefixOf(jobs[n].name);
      assert RefetchingRun(conversions, site, jobs[..n], listings[..n], states[..n + 1]);
      MemoisedRunRefinesRefetching(conversions, site, jobs[..n], namespaceListing, listings[..n], states[..n + 1]);
      var filtered := WithPrefix(namespaceListing, prefix);
      WithPrefixFilters(namespaceListing, prefix);
      forall o
        ensures o in filtered <==> o in listings[n]
      {
        FilteredListingIsCurrent(conversions, site, states[0], jobs[..n], namespaceListing, jobs[n].name, o);
      }
      ListingOrderIsIrrelevant(conversions, site, states[n], jobs[n], filtered, listings[n]);
    }
  }

  /** For a resource that has not been processed yet, the shared listing is still right. */
  lemma FilteredListingIsCurrent(conversions: Conversions, site: Site, before: map<ApiObject, Payload>, jobs: seq<Job>,
                                 namespaceListing: seq<ApiObject>, name: string, o: ApiObject)
    requires IsNamespaceListing(before, site, namespaceListing)
    requires IsKubernetesName(site.namespace) && IsKubernetesName(name)
    requires forall i | 0 <= i < |jobs| :: IsKubernetesName(jobs[i].name) && jobs[i].name != name
    ensures o in WithPrefix(namespaceListing, site.PrefixOf(name)) <==>
      o in MemoisedRun(conversions, site, before, jobs, Known(namespaceListing)) && site.PrefixOf(name) <= o.origin
  {
    WithPrefixFilters(namespaceListing, site.PrefixOf(name));
    if site.PrefixOf(name) <= o.origin {
      JobsLeaveOtherResourcesAlone(conversions, site, before, jobs, Known(namespaceListing), name, o);
      PrefixesNest(site, name, o.origin);
    }
  }

  lemma PrefixesNest(site: Site, name: string, origin: string)
    requires site.PrefixOf(name) <= origin
    ensures site.Prefix() <= origin
  {
  }
}
