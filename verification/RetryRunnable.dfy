/** The last step of a retry: of the PrometheusRule resources that are selected because of the recorded results, those
    that can still be fetched are enqueued again. */
module RetryRunnable {
  import opened Common
  import opened Text
  import opened RuleOrigins
  import opened Dash0Backend
  import opened RuleSync
  import opened RuleConvergence
  import opened RetryClassification

  datatype Resource = Resource(namespace: string, name: string) {
    /** The name under which results are recorded. */
    function QualifiedName(): string {
      namespace + "/" + name
    }

    predicate IsProper() {
      '/' !in namespace && namespace != "" && name != ""
    }
  }

  /** The position of the first slash, or the length of the text. */
  function FirstSlash(s: string): (i: nat)
    ensures i <= |s| && (i < |s| ==> s[i] == '/') && '/' !in s[..i]
  {
    if s == "" || s[0] == '/' then 0
    else
      var i := FirstSlash(s[1..]) + 1;
      assert s[..i] == [s[0]] + s[1..][..i - 1];
      i
  }

  function SplitQualifiedName(qualifiedName: string): Option<Resource> {
    var i := FirstSlash(qualifiedName);
    if i == |qualifiedName| then None
    else
      var resource := Resource(qualifiedName[..i], qualifiedName[i + 1..]);
      if resource.namespace == "" || resource.name == "" then None else Some(resource)
  }

  /** Splitting is the inverse of qualifying, and fails for everything else. */
  lemma SplitInvertsQualifying(qualifiedName: string, resource: Resource)
    ensures SplitQualifiedName(qualifiedName) == Some(resource) <==>
      resource.IsProper() && qualifiedName == resource.QualifiedName()
  {
    var i := FirstSlash(qualifiedName);
    if SplitQualifiedName(qualifiedName) == Some(resource) {
      assert qualifiedName == qualifiedName[..i] + "/" + qualifiedName[i + 1..];
    }
    if resource.IsProper() && qualifiedName == resource.QualifiedName() {
      var n := |resource.namespace|;
      assert qualifiedName[n] == '/' && qualifiedName[..|qualifiedName|] == qualifiedName;
      assert i < |qualifiedName|;
      FirstSeparator(qualifiedName[..i], resource.namespace, '/', qualifiedName);
      assert qualifiedName[n + 1..] == resource.name;
    }
  }

  type Results = map<string, seq<RecordedErrors>>

  ghost predicate HasRetryableResult(results: seq<RecordedErrors>) {
    exists i, item ::
      0 <= i < |results| && item in results[i].errors && IsRetryableHttpStatusCode(results[i].CodeOf(item))
  }

  /** The resources that are enqueued. Those that can be fetched include those that exist. */
  ghost predicate IsRetried(isWatching: bool, crdVersion: string, results: Results, fetchable: set<Resource>,
                            resource: Resource)
  {
    && isWatching && crdVersion != ""
    && resource.IsProper() && resource in fetchable
    && resource.QualifiedName() in results && HasRetryableResult(results[resource.QualifiedName()])
  }

  /** The recorded results are visited in any order. */
  method RetryPrometheusRuleSynchronizations(isWatching: bool, crdVersion: string, results: Results,
                                             fetchable: set<Resource>)
    returns (enqueued: seq<Resource>)
    ensures NoDuplicates(enqueued)
    ensures forall resource ::
      resource in enqueued <==> IsRetried(isWatching, crdVersion, results, fetchable, resource)
    ensures forall resource :: resource in enqueued <==>
      && isWatching && crdVersion != "" && resource in fetchable
      && '/' !in resource.namespace && resource.namespace != "" && resource.name != ""
      && resource.namespace + "/" + resource.name in results
      && exists i, item ::
           && 0 <= i < |results[resource.namespace + "/" + resource.name]|
           && item in results[resource.namespace + "/" + resource.name][i].errors
           && var codes := results[resource.namespace + "/" + resource.name][i].statusCodes;
              var code := if item in codes then codes[item] else 0;
              code == 0 || code == 429 || code >= 500
  {
    enqueued := [];
    if |results| == 0 || !isWatching || crdVersion == "" {
      return;
    }
    var unseen := results.Keys;
    while unseen != {}
      invariant unseen <= results.Keys && NoDuplicates(enqueued)
      invariant forall resource :: resource in enqueued <==>
        IsRetried(isWatching, crdVersion, results, fetchable, resource) && resource.QualifiedName() !in unseen
      decreases unseen
    {
      var qualifiedName :| qualifiedName in unseen;
      var selected := HasRetryableError(results[qualifiedName]);
      var resource := SplitQualifiedName(qualifiedName);
      forall other {
        SplitInvertsQualifying(qualifiedName, other);
      }
      if selected && resource.Some? && resource.value in fetchable {
        enqueued := enqueued + [resource.value];
      }
      unseen := unseen - {qualifiedName};
    }
  }

  // ---------------------------------------------------------------------------------------------
  // From a synchronization to the retry
  // ---------------------------------------------------------------------------------------------

  /** What a synchronization records for a resource. */
  ghost predicate Records(results: seq<RecordedErrors>, conversions: Conversions, destinations: seq<Destination>,
                          spec: Option<seq<RuleGroup>>, action: Action, resourceHasBeenDeleted: bool)
  {
    && |results| == |destinations|
    && forall i | 0 <= i < |destinations| ::
         var codes := RecordedFor(destinations[i], conversions, spec, action, resourceHasBeenDeleted);
         results[i] == RecordedErrors(codes.Keys, codes)
  }

  lemma RecordsDecide(results: seq<RecordedErrors>, conversions: Conversions, destinations: seq<Destination>,
                      spec: Option<seq<RuleGroup>>, action: Action, resourceHasBeenDeleted: bool)
    requires Records(results, conversions, destinations, spec, action, resourceHasBeenDeleted)
    ensures HasRetryableResult(results) <==>
      IsSelected(conversions, destinations, spec, action, resourceHasBeenDeleted)
  {
    hide RecordedFor;
    if i, item :| 0 <= i < |results| && item in results[i].errors &&
                  IsRetryableHttpStatusCode(results[i].CodeOf(item)) {
      assert HasRetryableCode(RecordedFor(destinations[i], conversions, spec, action, resourceHasBeenDeleted));
    }
    if i :| 0 <= i < |destinations| &&
            HasRetryableCode(RecordedFor(destinations[i], conversions, spec, action, resourceHasBeenDeleted)) {
      var codes := RecordedFor(destinations[i], conversions, spec, action, resourceHasBeenDeleted);
      var item :| item in codes && IsRetryableHttpStatusCode(codes[item]);
      assert item in results[i].errors && results[i].CodeOf(item) == codes[item];
    }
  }

  /** A resource is synchronized again exactly if its last synchronization leads to its selection, the resource type is
      being watched, and the resource can be fetched. */
  lemma SynchronizedAgainIff(isWatching: bool, crdVersion: string, results: Results, fetchable: set<Resource>,
                             resource: Resource, conversions: Conversions, destinations: seq<Destination>,
                             spec: Option<seq<RuleGroup>>, action: Action, resourceHasBeenDeleted: bool)
    requires resource.IsProper() && resource.QualifiedName() in results
    requires Records(results[resource.QualifiedName()], conversions, destinations, spec, action, resourceHasBeenDeleted)
    ensures IsRetried(isWatching, crdVersion, results, fetchable, resource) <==>
      && IsSelected(conversions, destinations, spec, action, resourceHasBeenDeleted)
      && isWatching && crdVersion != "" && resource in fetchable
  {
    RecordsDecide(results[resource.QualifiedName()], conversions, destinations, spec, action, resourceHasBeenDeleted);
  }

  function Overloaded(): Faults {
    _ => Fails(UnexpectedStatus(503), false)
  }

  /** If all calls of the deletion of a resource fail with 503, nothing is deleted and the resource is selected, but
      since it is gone, it is not synchronized again, and its objects are left over. */
  lemma FailedDeletionIsNotRetried(isWatching: bool, crdVersion: string, results: Results, fetchable: set<Resource>,
                                   resource: Resource, conversions: Conversions, prefix: string,
                                   spec: Option<seq<RuleGroup>>, listing: seq<ApiObject>,
                                   before: map<ApiObject, Payload>)
    requires resource !in fetchable
    requires var destination := Destination(prefix, Known(listing), Overloaded());
      RequestsTo(destination, conversions, spec, DeleteAction, true) != []
    ensures var destination := Destination(prefix, Known(listing), Overloaded());
      && IsSelected(conversions, [destination], spec, DeleteAction, true)
      && ServeAll(before, RequestsTo(destination, conversions, spec, DeleteAction, true), Overloaded()) == before
    ensures !IsRetried(isWatching, crdVersion, results, fetchable, resource)
  {
    var destination := Destination(prefix, Known(listing), Overloaded());
    var items := Items(prefix, spec);
    var requests := RequestsTo(destination, conversions, spec, DeleteAction, true);
    hide Items, SyncRequests, SyncErrorCodes, HasRetryableCode;
    OverloadChangesNothing(before, requests);
    var n := |requests| - 1;
    assert IsLastFailure(requests, Overloaded(), n);
    assert FailureCode(requests[n], Overloaded()(requests[n].target)) == Some(503);
    RetryableCodeIff(conversions, items, spec.Some?, DeleteAction, true, Known(listing), Overloaded());
    assert [destination][0] == destination;
    assert HasRetryableCode(RecordedFor([destination][0], conversions, spec, DeleteAction, true));
  }

  lemma {:induction false} OverloadChangesNothing(objects: map<ApiObject, Payload>, requests: seq<ApiRequest>)
    ensures ServeAll(objects, requests, Overloaded()) == objects
  {
    if requests != [] {
      OverloadChangesNothing(objects, requests[..|requests| - 1]);
    }
  }

  /** Such a deletion has calls that can fail whenever an object of the resource exists that no rule without a name
      stands for. */
  lemma DeletionHasRequestsIff(conversions: Conversions, prefix: string, spec: Option<seq<RuleGroup>>,
                               listing: seq<ApiObject>, faults: Faults)
    requires NoDuplicates(listing)
    ensures RequestsTo(Destination(prefix, Known(listing), faults), conversions, spec, DeleteAction, true) != [] <==>
      exists o :: o in listing && !IsTargetOfNamelessRule(Items(prefix, spec), o)
  {
    var requests := RequestsTo(Destination(prefix, Known(listing), faults), conversions, spec, DeleteAction, true);
    DeletionIsExact(conversions, prefix, spec, true, listing);
    hide Items, SyncRequests, IsTargetOfNamelessRule;
    if requests != [] {
      assert Targets(requests, requests[0].target);
    }
  }
}
