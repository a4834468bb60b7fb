/** Which PrometheusRule resources are selected for a retry because their synchronization has failed, and which of those
    are synchronized again. */
module RetryClassification {
  import opened Common
  import opened RuleOrigins
  import opened Dash0Backend
  import opened RuleSync
  import opened RuleConvergence

  predicate IsRetryableHttpStatusCode(statusCode: int) {
    statusCode == 0 || statusCode == 429 || statusCode >= 500
  }

  /** The recorded errors for one endpoint and dataset. */
  datatype RecordedErrors = RecordedErrors(errors: set<string>, statusCodes: map<string, int>) {
    /** The status code of an item is 0 if none is recorded. */
    function CodeOf(item: string): int {
      if item in statusCodes then statusCodes[item] else 0
    }
  }

  method HasRetryableError(results: seq<RecordedErrors>) returns (retry: bool)
    ensures retry <==> exists i, item ::
      && 0 <= i < |results| && item in results[i].errors
      && var code := if item in results[i].statusCodes then results[i].statusCodes[item] else 0;
         code == 0 || code == 429 || code >= 500
  {
    for i := 0 to |results|
      invariant forall j, item | 0 <= j < i && item in results[j].errors ::
        !IsRetryableHttpStatusCode(results[j].CodeOf(item))
    {
      var unseen := results[i].errors;
      while unseen != {}
        invariant unseen <= results[i].errors
        invariant forall item | item in results[i].errors && item !in unseen ::
          !IsRetryableHttpStatusCode(results[i].CodeOf(item))
        decreases unseen
      {
        var item :| item in unseen;
        if IsRetryableHttpStatusCode(results[i].CodeOf(item)) {
          return true;
        }
        unseen := unseen - {item};
      }
    }
    return false;
  }

  ghost predicate HasRetryableCode(codes: map<string, int>) {
    exists item :: item in codes && IsRetryableHttpStatusCode(codes[item])
  }

  /** Synchronizes a resource with all endpoints and datasets and decides whether it is selected for a retry. */
  method SynchronizeAndClassify(apis: seq<Dash0Api>, conversions: Conversions, destinations: seq<Destination>,
                                spec: Option<seq<RuleGroup>>, action: Action, syncDisabledViaLabel: bool)
    returns (selected: bool)
    requires |apis| == |destinations| && NoDuplicates(apis)
    modifies apis
    ensures selected <==> IsSelected(conversions, destinations, spec,
                                     if syncDisabledViaLabel then DeleteAction else action, action == DeleteAction)
  {
    var reports := SynchronizeViaAllApis(apis, conversions, destinations, spec, action, syncDisabledViaLabel);
    ghost var effective := if syncDisabledViaLabel then DeleteAction else action;
    hide SyncErrorCodes, SyncRequests, ServeAll, Items, HasRetryableCode;
    assert forall i | 0 <= i < |destinations| ::
      && reports[i].synchronizationErrors == reports[i].synchronizationErrorStatusCodes.Keys
      && reports[i].synchronizationErrorStatusCodes ==
           RecordedFor(destinations[i], conversions, spec, effective, action == DeleteAction);
    selected := AnyHasRetryableError(reports);
  }

  method AnyHasRetryableError(reports: seq<SyncResult>) returns (retry: bool)
    requires forall i | 0 <= i < |reports| ::
      reports[i].synchronizationErrors == reports[i].synchronizationErrorStatusCodes.Keys
    ensures retry <==> exists i :: 0 <= i < |reports| && HasRetryableCode(reports[i].synchronizationErrorStatusCodes)
  {
    var recorded: seq<RecordedErrors> := [];
    for i := 0 to |reports|
      invariant |recorded| == i
      invariant forall j | 0 <= j < i ::
        recorded[j] == RecordedErrors(reports[j].synchronizationErrors, reports[j].synchronizationErrorStatusCodes)
    {
      recorded := recorded +
        [RecordedErrors(reports[i].synchronizationErrors, reports[i].synchronizationErrorStatusCodes)];
    }
    retry := HasRetryableError(recorded);
  }

  /** The status codes recorded for one endpoint and dataset. */
  ghost function RecordedFor(destination: Destination, conversions: Conversions, spec: Option<seq<RuleGroup>>,
                             action: Action, resourceHasBeenDeleted: bool): map<string, int>
  {
    SyncErrorCodes(conversions, Items(destination.prefix, spec), spec.Some?, action, resourceHasBeenDeleted,
                   destination.listing, destination.faults)
  }

  /** Some endpoint and dataset has recorded a retryable status code. */
  ghost predicate IsSelected(conversions: Conversions, destinations: seq<Destination>, spec: Option<seq<RuleGroup>>,
                             action: Action, resourceHasBeenDeleted: bool)
  {
    exists i :: 0 <= i < |destinations| &&
      HasRetryableCode(RecordedFor(destinations[i], conversions, spec, action, resourceHasBeenDeleted))
  }

  // ---------------------------------------------------------------------------------------------
  // One destination: from what goes wrong to what is recorded
  // ---------------------------------------------------------------------------------------------

  /** Request k fails, and no later request that fails has the same item name. */
  ghost predicate IsLastFailure(requests: seq<ApiRequest>, faults: Faults, k: int) {
    && 0 <= k < |requests|
    && FailureCode(requests[k], faults(requests[k].target)).Some?
    && forall j | k < j < |requests| && FailureCode(requests[j], faults(requests[j].target)).Some? ::
      requests[j].itemName != requests[k].itemName
  }

  /** The code recorded for an item is the one of its last failing request. */
  lemma {:induction false} LastFailureIsRecorded(requests: seq<ApiRequest>, faults: Faults, k: nat)
    requires IsLastFailure(requests, faults, k)
    ensures requests[k].itemName in RecordedCodes(requests, faults)
    ensures RecordedCodes(requests, faults)[requests[k].itemName] ==
      FailureCode(requests[k], faults(requests[k].target)).value
  {
    var n := |requests| - 1;
    if k < n {
      assert requests[..n][k] == requests[k];
      LastFailureIsRecorded(requests[..n], faults, k);
    }
  }

  lemma {:induction false} RecordedCodeIsLastFailure(requests: seq<ApiRequest>, faults: Faults, item: string)
    returns (k: nat)
    requires item in RecordedCodes(requests, faults)
    ensures IsLastFailure(requests, faults, k) && requests[k].itemName == item
    ensures RecordedCodes(requests, faults)[item] == FailureCode(requests[k], faults(requests[k].target)).value
  {
    var n := |requests| - 1;
    if FailureCode(requests[n], faults(requests[n].target)).Some? && requests[n].itemName == item {
      k := n;
    } else {
      k := RecordedCodeIsLastFailure(requests[..n], faults, item);
    }
  }

  lemma {:induction false} ConversionErrorsAreBadRequests(conversions: Conversions, action: Action,
                                                         items: seq<RuleItem>)
    ensures forall item | item in ConversionErrorCodes(conversions, action, items) ::
      ConversionErrorCodes(conversions, action, items)[item] == 400 && item != PRECONDITION_ERROR_ITEM_NAME
  {
    if items != [] {
      ConversionErrorsAreBadRequests(conversions, action, items[..|items| - 1]);
      assert |items[|items| - 1].ItemName()| > 1;
    }
  }

  lemma ItemNamesAreNoPreconditionErrors(conversions: Conversions, items: seq<RuleItem>, action: Action,
                                         resourceHasBeenDeleted: bool, listing: Listing, request: ApiRequest)
    requires request in SyncRequests(conversions, items, action, resourceHasBeenDeleted, listing)
    ensures request.itemName != PRECONDITION_ERROR_ITEM_NAME
  {
    var fromItems := Requests(conversions, action, items);
    if request in fromItems {
      var k :| 0 <= k < |fromItems| && fromItems[k] == request;
      var i := RequestFrom(conversions, action, items, k);
      assert |items[i].ItemName()| > 1;
    } else if listing.Known? {
      OnlyExistingKeeps(fromItems, listing.objects, request);
      OrphanDeletesAre(listing.objects, KeptObjects(items), request);
      assert |request.itemName| > 1;
    }
  }

  /** The failure to list the existing objects counts unless the resource is gone or could not be parsed anyway. */
  predicate ListingFailureCounts(action: Action, parsed: bool, resourceHasBeenDeleted: bool) {
    if action == UpsertAction then parsed else !resourceHasBeenDeleted
  }

  /** A retryable status code is recorded for a destination exactly if, for some item name, the last failing request has
      one, or if a listing failure that counts has one. */
  lemma RetryableCodeIff(conversions: Conversions, items: seq<RuleItem>, parsed: bool, action: Action,
                   resourceHasBeenDeleted: bool, listing: Listing, faults: Faults)
    ensures var requests := SyncRequests(conversions, items, action, resourceHasBeenDeleted, listing);
      HasRetryableCode(SyncErrorCodes(conversions, items, parsed, action, resourceHasBeenDeleted, listing, faults)) <==>
      || (exists k :: IsLastFailure(requests, faults, k) &&
           IsRetryableHttpStatusCode(FailureCode(requests[k], faults(requests[k].target)).value))
      || (listing.FetchFailed? && ListingFailureCounts(action, parsed, resourceHasBeenDeleted) &&
          IsRetryableHttpStatusCode(listing.code))
  {
    var requests := SyncRequests(conversions, items, action, resourceHasBeenDeleted, listing);
    var all := SyncErrorCodes(conversions, items, parsed, action, resourceHasBeenDeleted, listing, faults);
    var recorded := RecordedCodes(requests, faults);
    ConversionErrorsAreBadRequests(conversions, action, items);
    if listing.FetchFailed? && !resourceHasBeenDeleted && action != UpsertAction {
      assert all[PRECONDITION_ERROR_ITEM_NAME] == listing.code;
    } else {
      var before := CodesBeforeRequests(conversions, items, parsed, action, listing);
      assert all == before + recorded;
      if PRECONDITION_ERROR_ITEM_NAME in recorded {
        var k := RecordedCodeIsLastFailure(requests, faults, PRECONDITION_ERROR_ITEM_NAME);
        ItemNamesAreNoPreconditionErrors(conversions, items, action, resourceHasBeenDeleted, listing, requests[k]);
      }
      assert PRECONDITION_ERROR_ITEM_NAME !in recorded;
      if k :| IsLastFailure(requests, faults, k) &&
              IsRetryableHttpStatusCode(FailureCode(requests[k], faults(requests[k].target)).value) {
        LastFailureIsRecorded(requests, faults, k);
        assert requests[k].itemName in all;
      }
      if item :| item in all && IsRetryableHttpStatusCode(all[item]) {
        if item in recorded {
          var k := RecordedCodeIsLastFailure(requests, faults, item);
          assert all[item] == recorded[item];
        } else {
          assert item == PRECONDITION_ERROR_ITEM_NAME && all[item] == before[item];
        }
      }
      if listing.FetchFailed? && action == UpsertAction && parsed {
        assert all[PRECONDITION_ERROR_ITEM_NAME] == listing.code;
      }
    }
  }

  predicate IsPermanent(code: int) {
    400 <= code < 500 && code != 429
  }

  /** Failures that are all permanent leave no retryable status code. */
  lemma PermanentFailuresLeaveNoRetryableCode(conversions: Conversions, items: seq<RuleItem>, parsed: bool,
                                       action: Action, resourceHasBeenDeleted: bool, listing: Listing, faults: Faults)
    requires listing.FetchFailed? ==> IsPermanent(listing.code)
    requires forall request | request in SyncRequests(conversions, items, action, resourceHasBeenDeleted, listing) ::
      var failure := FailureCode(request, faults(request.target));
      failure.Some? ==> IsPermanent(failure.value)
    ensures !HasRetryableCode(
      SyncErrorCodes(conversions, items, parsed, action, resourceHasBeenDeleted, listing, faults))
  {
    RetryableCodeIff(conversions, items, parsed, action, resourceHasBeenDeleted, listing, faults);
  }

  /** If item names are distinct, a retryable failure of a request leaves a retryable status code. */
  lemma RetryableFailureIsRecorded(conversions: Conversions, items: seq<RuleItem>, parsed: bool,
                                  action: Action, resourceHasBeenDeleted: bool, listing: Listing, faults: Faults,
                                  k: nat)
    requires var requests := SyncRequests(conversions, items, action, resourceHasBeenDeleted, listing);
      && k < |requests|
      && DistinctItemNames(requests)
      && var failure := FailureCode(requests[k], faults(requests[k].target));
         failure.Some? && IsRetryableHttpStatusCode(failure.value)
    ensures HasRetryableCode(
      SyncErrorCodes(conversions, items, parsed, action, resourceHasBeenDeleted, listing, faults))
  {
    var requests := SyncRequests(conversions, items, action, resourceHasBeenDeleted, listing);
    assert IsLastFailure(requests, faults, k);
    RetryableCodeIff(conversions, items, parsed, action, resourceHasBeenDeleted, listing, faults);
  }

  /** The failures of calls that lead to a retry, and some that do not. */
  predicate IsTransient(error: ClientError) {
    error == TransportError || error == UnexpectedStatus(429) || (error.UnexpectedStatus? && error.code >= 500)
  }

  /** From a failing call to the selection: if the item names of the requests to a destination are distinct, a call that
      gets no response, or one with status 429 or at least 500, leads to the selection of the resource, whatever happens
      elsewhere. */
  lemma TransientFailureSelects(conversions: Conversions, destinations: seq<Destination>, spec: Option<seq<RuleGroup>>,
                                action: Action, resourceHasBeenDeleted: bool, i: nat, k: nat)
    requires i < |destinations|
    requires var requests := RequestsTo(destinations[i], conversions, spec, action, resourceHasBeenDeleted);
      && k < |requests|
      && (forall j, l | 0 <= j < l < |requests| :: requests[j].itemName != requests[l].itemName)
      && destinations[i].faults(requests[k].target).Fails?
      && IsTransient(destinations[i].faults(requests[k].target).error)
    ensures IsSelected(conversions, destinations, spec, action, resourceHasBeenDeleted)
  {
    var destination := destinations[i];
    hide SyncErrorCodes, SyncRequests, Items, HasRetryableCode;
    RetryableFailureIsRecorded(conversions, Items(destination.prefix, spec), spec.Some?, action, resourceHasBeenDeleted,
                               destination.listing, destination.faults, k);
    assert HasRetryableCode(RecordedFor(destinations[i], conversions, spec, action, resourceHasBeenDeleted));
  }

  /** A listing that fails because there is no response, or one with status 429 or at least 500, leads to the selection,
      too, unless the failure does not count. */
  lemma TransientListingFailureSelects(conversions: Conversions, destinations: seq<Destination>,
                                       spec: Option<seq<RuleGroup>>, action: Action, resourceHasBeenDeleted: bool,
                                       i: nat)
    requires i < |destinations| && destinations[i].listing.FetchFailed?
    requires if action == UpsertAction then spec.Some? else !resourceHasBeenDeleted
    requires var code := destinations[i].listing.code; code == 0 || code == 429 || code >= 500
    ensures IsSelected(conversions, destinations, spec, action, resourceHasBeenDeleted)
  {
    var destination := destinations[i];
    hide SyncErrorCodes, SyncRequests, Items, HasRetryableCode;
    RetryableCodeIff(conversions, Items(destination.prefix, spec), spec.Some?, action, resourceHasBeenDeleted,
                     destination.listing, destination.faults);
    assert HasRetryableCode(RecordedFor(destinations[i], conversions, spec, action, resourceHasBeenDeleted));
  }

  /** A resource is not selected if calls fail only because the auth token is invalid or because of a status below 500
      other than 0 and 429. */
  lemma OtherFailuresDoNotSelect(conversions: Conversions, destinations: seq<Destination>,
                                 spec: Option<seq<RuleGroup>>, action: Action, resourceHasBeenDeleted: bool)
    requires forall i | 0 <= i < |destinations| :: destinations[i].listing.Known?
    requires forall i, o: ApiObject | 0 <= i < |destinations| && destinations[i].faults(o).Fails? ::
      match destinations[i].faults(o).error
      case InvalidAuthToken => true
      case TransportError => false
      case UnexpectedStatus(code) => code < 500 && code != 429 && code != 0
    ensures !IsSelected(conversions, destinations, spec, action, resourceHasBeenDeleted)
  {
    forall i | 0 <= i < |destinations|
      ensures !HasRetryableCode(RecordedFor(destinations[i], conversions, spec, action, resourceHasBeenDeleted))
    {
      var destination := destinations[i];
      hide SyncErrorCodes, SyncRequests, Items, HasRetryableCode;
      RetryableCodeIff(conversions, Items(destination.prefix, spec), spec.Some?, action, resourceHasBeenDeleted,
                       destination.listing, destination.faults);
    }
  }

  ghost predicate DistinctItemNames(requests: seq<ApiRequest>) {
    forall i, j | 0 <= i < j < |requests| :: requests[i].itemName != requests[j].itemName
  }

  /** Some request fails with a retryable status code. */
  ghost predicate FailsRetryably(requests: seq<ApiRequest>, faults: Faults) {
    exists k :: 0 <= k < |requests|
      && FailureCode(requests[k], faults(requests[k].target)).Some?
      && IsRetryableHttpStatusCode(FailureCode(requests[k], faults(requests[k].target)).value)
  }

  /** The first object answers 503, the second one 400, and all others are healthy. */
  function OverloadedThenRejected(first: ApiObject, second: ApiObject): Faults {
    (o: ApiObject) =>
      if o == first then Fails(UnexpectedStatus(503), false)
      else if o == second then Fails(UnexpectedStatus(400), false)
      else Healthy
  }

  /** For one destination, whatever fails, a retryable failure of a request leaves a retryable status code, if and only
      if the item names of the requests are pairwise distinct or the listing has failed in a way that leaves one anyway.
      Both can be seen before any call. */
  lemma RetryableFailuresAreRecordedIff(conversions: Conversions, prefix: string, items: seq<RuleItem>, parsed: bool,
                                       action: Action, resourceHasBeenDeleted: bool, listing: Listing)
    requires ProperItems(prefix, items) && (listing.Known? ==> NoDuplicates(listing.objects))
    ensures var requests := SyncRequests(conversions, items, action, resourceHasBeenDeleted, listing);
      (forall faults: Faults | FailsRetryably(requests, faults) :: HasRetryableCode(
        SyncErrorCodes(conversions, items, parsed, action, resourceHasBeenDeleted, listing, faults))) <==>
      || (listing.FetchFailed? && ListingFailureCounts(action, parsed, resourceHasBeenDeleted) &&
          IsRetryableHttpStatusCode(listing.code))
      || DistinctItemNames(requests)
  {
    var requests := SyncRequests(conversions, items, action, resourceHasBeenDeleted, listing);
    if DistinctItemNames(requests) {
      forall faults: Faults | FailsRetryably(requests, faults)
        ensures HasRetryableCode(
          SyncErrorCodes(conversions, items, parsed, action, resourceHasBeenDeleted, listing, faults))
      {
        var k :| 0 <= k < |requests|
          && FailureCode(requests[k], faults(requests[k].target)).Some?
          && IsRetryableHttpStatusCode(FailureCode(requests[k], faults(requests[k].target)).value);
        RetryableFailureIsRecorded(conversions, items, parsed, action, resourceHasBeenDeleted, listing, faults, k);
      }
    } else {
      var i, j :| 0 <= i < j < |requests| && requests[i].itemName == requests[j].itemName;
      var faults := OverloadedThenRejected(requests[i].target, requests[j].target);
      SyncRequestsAre(conversions, prefix, items, action, resourceHasBeenDeleted, listing);
      LaterFailureHides(requests, i, j);
      RetryableCodeIff(conversions, items, parsed, action, resourceHasBeenDeleted, listing, faults);
      if listing.FetchFailed? && ListingFailureCounts(action, parsed, resourceHasBeenDeleted) &&
         IsRetryableHttpStatusCode(listing.code) {
        forall other: Faults
          ensures HasRetryableCode(
            SyncErrorCodes(conversions, items, parsed, action, resourceHasBeenDeleted, listing, other))
        {
          RetryableCodeIff(conversions, items, parsed, action, resourceHasBeenDeleted, listing, other);
        }
      }
    }
  }

  lemma LaterFailureHides(requests: seq<ApiRequest>, i: nat, j: nat)
    requires i < j < |requests| && requests[i].itemName == requests[j].itemName && DistinctTargets(requests)
    ensures var faults := OverloadedThenRejected(requests[i].target, requests[j].target);
      && FailsRetryably(requests, faults)
      && forall k | IsLastFailure(requests, faults, k) ::
           !IsRetryableHttpStatusCode(FailureCode(requests[k], faults(requests[k].target)).value)
  {
    var faults := OverloadedThenRejected(requests[i].target, requests[j].target);
    assert FailureCode(requests[i], faults(requests[i].target)) == Some(503);
    assert requests[i].target != requests[j].target;
    assert FailureCode(requests[j], faults(requests[j].target)) == Some(400);
    assert forall k | 0 <= k < |requests| && k != i && k != j ::
      requests[k].target != requests[i].target && requests[k].target != requests[j].target;
    assert forall k | IsLastFailure(requests, faults, k) :: k == j;
  }

  // ---------------------------------------------------------------------------------------------
  // All destinations of a resource: from what goes wrong to whether the resource is selected
  // ---------------------------------------------------------------------------------------------

  ghost function RequestsTo(destination: Destination, conversions: Conversions, spec: Option<seq<RuleGroup>>,
                            action: Action, resourceHasBeenDeleted: bool): seq<ApiRequest>
  {
    SyncRequests(conversions, Items(destination.prefix, spec), action, resourceHasBeenDeleted, destination.listing)
  }

  /** The same destinations, with other things going wrong during the calls. */
  function WithFaults(destinations: seq<Destination>, faults: seq<Faults>): (changed: seq<Destination>)
    requires |faults| == |destinations|
    ensures |changed| == |destinations|
    ensures forall i | 0 <= i < |destinations| ::
      changed[i] == Destination(destinations[i].prefix, destinations[i].listing, faults[i])
  {
    seq(|destinations|, i requires 0 <= i < |destinations| =>
      Destination(destinations[i].prefix, destinations[i].listing, faults[i]))
  }

  ghost predicate SomeCallFailsRetryably(conversions: Conversions, destinations: seq<Destination>,
                                         spec: Option<seq<RuleGroup>>, action: Action, resourceHasBeenDeleted: bool)
  {
    exists i :: 0 <= i < |destinations| && FailsRetryably(
      RequestsTo(destinations[i], conversions, spec, action, resourceHasBeenDeleted), destinations[i].faults)
  }

  predicate ListingFailureIsRetryable(destination: Destination, parsed: bool, action: Action,
                                      resourceHasBeenDeleted: bool)
  {
    && destination.listing.FetchFailed?
    && ListingFailureCounts(action, parsed, resourceHasBeenDeleted)
    && IsRetryableHttpStatusCode(destination.listing.code)
  }

  ghost predicate AreListings(destinations: seq<Destination>) {
    forall i | 0 <= i < |destinations| && destinations[i].listing.Known? ::
      NoDuplicates(destinations[i].listing.objects)
  }

  /** Whatever calls to whatever destinations fail, a retryable failure of any of them leads to the selection of the
      resource, if and only if a listing has failed in a way that leads to it anyway, or the item names of the requests
      are pairwise distinct for every destination. All of that can be seen before any call. */
  lemma RetryableFailuresAreSelectedIff(conversions: Conversions, destinations: seq<Destination>,
                                        spec: Option<seq<RuleGroup>>, action: Action, resourceHasBeenDeleted: bool)
    requires AreListings(destinations)
    ensures
      (forall faults: seq<Faults> | |faults| == |destinations| &&
         SomeCallFailsRetryably(conversions, WithFaults(destinations, faults), spec, action, resourceHasBeenDeleted) ::
         IsSelected(conversions, WithFaults(destinations, faults), spec, action, resourceHasBeenDeleted)) <==>
      || (exists i :: 0 <= i < |destinations| &&
           ListingFailureIsRetryable(destinations[i], spec.Some?, action, resourceHasBeenDeleted))
      || (forall i | 0 <= i < |destinations| ::
           DistinctItemNames(RequestsTo(destinations[i], conversions, spec, action, resourceHasBeenDeleted)))
  {
    if i :| 0 <= i < |destinations| &&
            ListingFailureIsRetryable(destinations[i], spec.Some?, action, resourceHasBeenDeleted) {
      forall faults: seq<Faults> | |faults| == |destinations|
        ensures IsSelected(conversions, WithFaults(destinations, faults), spec, action, resourceHasBeenDeleted)
      {
        ListingFailureSelects(conversions, WithFaults(destinations, faults), spec, action, resourceHasBeenDeleted, i);
      }
    } else if forall i | 0 <= i < |destinations| ::
                DistinctItemNames(RequestsTo(destinations[i], conversions, spec, action, resourceHasBeenDeleted)) {
      forall faults: seq<Faults> | |faults| == |destinations| &&
        SomeCallFailsRetryably(conversions, WithFaults(destinations, faults), spec, action, resourceHasBeenDeleted)
        ensures IsSelected(conversions, WithFaults(destinations, faults), spec, action, resourceHasBeenDeleted)
      {
        DistinctNamesSelect(conversions, WithFaults(destinations, faults), spec, action, resourceHasBeenDeleted);
      }
    } else {
      var i :| 0 <= i < |destinations| &&
        !DistinctItemNames(RequestsTo(destinations[i], conversions, spec, action, resourceHasBeenDeleted));
      var faults := CollidingNamesHide(conversions, destinations, spec, action, resourceHasBeenDeleted, i);
    }
  }

  lemma ListingFailureSelects(conversions: Conversions, destinations: seq<Destination>, spec: Option<seq<RuleGroup>>,
                              action: Action, resourceHasBeenDeleted: bool, i: nat)
    requires i < |destinations|
    requires ListingFailureIsRetryable(destinations[i], spec.Some?, action, resourceHasBeenDeleted)
    ensures IsSelected(conversions, destinations, spec, action, resourceHasBeenDeleted)
  {
    var destination := destinations[i];
    hide SyncErrorCodes, SyncRequests, Items, HasRetryableCode;
    RetryableCodeIff(conversions, Items(destination.prefix, spec), spec.Some?, action, resourceHasBeenDeleted,
                     destination.listing, destination.faults);
    assert HasRetryableCode(RecordedFor(destination, conversions, spec, action, resourceHasBeenDeleted));
  }

  lemma DistinctNamesSelect(conversions: Conversions, destinations: seq<Destination>, spec: Option<seq<RuleGroup>>,
                            action: Action, resourceHasBeenDeleted: bool)
    requires forall i | 0 <= i < |destinations| ::
      DistinctItemNames(RequestsTo(destinations[i], conversions, spec, action, resourceHasBeenDeleted))
    requires SomeCallFailsRetryably(conversions, destinations, spec, action, resourceHasBeenDeleted)
    ensures IsSelected(conversions, destinations, spec, action, resourceHasBeenDeleted)
  {
    hide SyncErrorCodes, SyncRequests, Items, HasRetryableCode, DistinctItemNames;
    var i :| 0 <= i < |destinations| && FailsRetryably(
      RequestsTo(destinations[i], conversions, spec, action, resourceHasBeenDeleted), destinations[i].faults);
    var destination := destinations[i];
    var requests := RequestsTo(destination, conversions, spec, action, resourceHasBeenDeleted);
    var k :| 0 <= k < |requests|
      && FailureCode(requests[k], destination.faults(requests[k].target)).Some?
      && IsRetryableHttpStatusCode(FailureCode(requests[k], destination.faults(requests[k].target)).value);
    RetryableFailureIsRecorded(conversions, Items(destination.prefix, spec), spec.Some?, action, resourceHasBeenDeleted,
                               destination.listing, destination.faults, k);
    assert HasRetryableCode(RecordedFor(destination, conversions, spec, action, resourceHasBeenDeleted));
  }

  /** If two requests to a destination share an item name, there are failures that do not lead to a selection. */
  lemma CollidingNamesHide(conversions: Conversions, destinations: seq<Destination>, spec: Option<seq<RuleGroup>>,
                           action: Action, resourceHasBeenDeleted: bool, i: nat)
    returns (faults: seq<Faults>)
    requires AreListings(destinations) && i < |destinations|
    requires !DistinctItemNames(RequestsTo(destinations[i], conversions, spec, action, resourceHasBeenDeleted))
    requires forall j | 0 <= j < |destinations| ::
      !ListingFailureIsRetryable(destinations[j], spec.Some?, action, resourceHasBeenDeleted)
    ensures |faults| == |destinations|
    ensures SomeCallFailsRetryably(conversions, WithFaults(destinations, faults), spec, action, resourceHasBeenDeleted)
    ensures !IsSelected(conversions, WithFaults(destinations, faults), spec, action, resourceHasBeenDeleted)
  {
    hide RecordedFor, RequestsTo, HasRetryableCode, DistinctItemNames, FailsRetryably, AllHealthyFaults;
    var destination := destinations[i];
    var hiding := CollidingNamesHideThere(conversions, destination, spec, action, resourceHasBeenDeleted);
    faults := AllHealthyFor(|destinations|)[i := hiding];
    var changed := WithFaults(destinations, faults);
    assert changed[i] == Destination(destination.prefix, destination.listing, hiding);
    assert FailsRetryably(RequestsTo(changed[i], conversions, spec, action, resourceHasBeenDeleted), changed[i].faults);
    forall l | 0 <= l < |changed|
      ensures !HasRetryableCode(RecordedFor(changed[l], conversions, spec, action, resourceHasBeenDeleted))
    {
      if l != i {
        HealthyCallsLeaveNone(conversions, changed[l], spec, action, resourceHasBeenDeleted);
      }
    }
  }

  function AllHealthyFaults(): Faults {
    _ => Healthy
  }

  function AllHealthyFor(n: nat): (faults: seq<Faults>)
    ensures |faults| == n && forall i | 0 <= i < n :: faults[i] == AllHealthyFaults()
  {
    if n == 0 then [] else AllHealthyFor(n - 1) + [AllHealthyFaults()]
  }

  lemma HealthyCallsLeaveNone(conversions: Conversions, destination: Destination, spec: Option<seq<RuleGroup>>,
                              action: Action, resourceHasBeenDeleted: bool)
    requires destination.faults == AllHealthyFaults()
    requires !ListingFailureIsRetryable(destination, spec.Some?, action, resourceHasBeenDeleted)
    ensures !HasRetryableCode(RecordedFor(destination, conversions, spec, action, resourceHasBeenDeleted))
  {
    hide SyncErrorCodes, SyncRequests, Items, HasRetryableCode;
    RetryableCodeIff(conversions, Items(destination.prefix, spec), spec.Some?, action, resourceHasBeenDeleted,
                     destination.listing, destination.faults);
  }

  lemma CollidingNamesHideThere(conversions: Conversions, destination: Destination, spec: Option<seq<RuleGroup>>,
                                action: Action, resourceHasBeenDeleted: bool)
    returns (hiding: Faults)
    requires destination.listing.Known? ==> NoDuplicates(destination.listing.objects)
    requires !DistinctItemNames(RequestsTo(destination, conversions, spec, action, resourceHasBeenDeleted))
    requires !ListingFailureIsRetryable(destination, spec.Some?, action, resourceHasBeenDeleted)
    ensures var changed := Destination(destination.prefix, destination.listing, hiding);
      && FailsRetryably(RequestsTo(changed, conversions, spec, action, resourceHasBeenDeleted), hiding)
      && !HasRetryableCode(RecordedFor(changed, conversions, spec, action, resourceHasBeenDeleted))
  {
    var items := Items(destination.prefix, spec);
    var requests := RequestsTo(destination, conversions, spec, action, resourceHasBeenDeleted);
    ItemsAreProper(destination.prefix, spec);
    SyncRequestsAre(conversions, destination.prefix, items, action, resourceHasBeenDeleted, destination.listing);
    hide SyncErrorCodes, SyncRequests, Items, HasRetryableCode, ProperItems, IsRequested;
    var j, k :| 0 <= j < k < |requests| && requests[j].itemName == requests[k].itemName;
    hiding := OverloadedThenRejected(requests[j].target, requests[k].target);
    LaterFailureHides(requests, j, k);
    RetryableCodeIff(conversions, items, spec.Some?, action, resourceHasBeenDeleted, destination.listing, hiding);
  }

  /** A resource is not selected if all failures for all destinations are permanent. */
  lemma PermanentFailuresAreNotSelected(conversions: Conversions, destinations: seq<Destination>,
                                        spec: Option<seq<RuleGroup>>, action: Action, resourceHasBeenDeleted: bool)
    requires forall i | 0 <= i < |destinations| ::
      OnlyPermanentFailures(destinations[i],
                            RequestsTo(destinations[i], conversions, spec, action, resourceHasBeenDeleted))
    ensures !IsSelected(conversions, destinations, spec, action, resourceHasBeenDeleted)
  {
    forall i | 0 <= i < |destinations|
      ensures !HasRetryableCode(RecordedFor(destinations[i], conversions, spec, action, resourceHasBeenDeleted))
    {
      var destination := destinations[i];
      hide SyncErrorCodes, SyncRequests, Items, HasRetryableCode;
      PermanentFailuresLeaveNoRetryableCode(conversions, Items(destination.prefix, spec), spec.Some?, action,
                                            resourceHasBeenDeleted, destination.listing, destination.faults);
    }
  }

  ghost predicate OnlyPermanentFailures(destination: Destination, requests: seq<ApiRequest>) {
    && (destination.listing.FetchFailed? ==> IsPermanent(destination.listing.code))
    && forall request | request in requests ::
         var failure := FailureCode(request, destination.faults(request.target));
         failure.Some? ==> IsPermanent(failure.value)
  }

  // ---------------------------------------------------------------------------------------------
  // Errors of the mapping and errors of the calls
  // ---------------------------------------------------------------------------------------------

  lemma {:induction false} FailureIsRecorded(requests: seq<ApiRequest>, faults: Faults, k: nat)
    requires k < |requests| && FailureCode(requests[k], faults(requests[k].target)).Some?
    ensures requests[k].itemName in RecordedCodes(requests, faults)
  {
    var n := |requests| - 1;
    if k < n {
      FailureIsRecorded(requests[..n], faults, k);
    }
  }

  lemma {:induction false} ConversionErrorsAre(conversions: Conversions, action: Action, items: seq<RuleItem>,
                                               name: string)
    ensures name in ConversionErrorCodes(conversions, action, items) <==>
      exists i :: 0 <= i < |items| && Judge(conversions, action, items[i]).Unconvertible? && items[i].ItemName() == name
  {
    if items != [] {
      var n := |items| - 1;
      ConversionErrorsAre(conversions, action, items[..n], name);
      if i :| 0 <= i < n && Judge(conversions, action, items[..n][i]).Unconvertible? &&
              items[..n][i].ItemName() == name {
        assert items[i] == items[..n][i];
      }
      if i :| 0 <= i < |items| && Judge(conversions, action, items[i]).Unconvertible? && items[i].ItemName() == name {
        assert i < n ==> items[..n][i] == items[i];
      }
    }
  }

  /** No request has the item name of a rule that cannot be converted. */
  ghost predicate NamesAreSeparate(conversions: Conversions, action: Action, items: seq<RuleItem>,
                                   requests: seq<ApiRequest>)
  {
    forall i, k | 0 <= i < |items| && Judge(conversions, action, items[i]).Unconvertible? && 0 <= k < |requests| ::
      requests[k].itemName != items[i].ItemName()
  }

  /** Whatever calls fail, the errors of the mapping stage and those of the calls concern different items, if and
      only if no request has the item name of a rule that cannot be converted. */
  lemma ErrorMapsAreDisjointIff(conversions: Conversions, action: Action, items: seq<RuleItem>,
                                requests: seq<ApiRequest>)
    ensures
      (forall faults: Faults ::
         ConversionErrorCodes(conversions, action, items).Keys !! RecordedCodes(requests, faults).Keys) <==>
      NamesAreSeparate(conversions, action, items, requests)
  {
    if NamesAreSeparate(conversions, action, items, requests) {
      forall faults: Faults
        ensures ConversionErrorCodes(conversions, action, items).Keys !! RecordedCodes(requests, faults).Keys
      {
        SeparateNamesNeverOverlap(conversions, action, items, requests, faults);
      }
    } else {
      hide ConversionErrorCodes, RecordedCodes;
      var i, k :| 0 <= i < |items| && Judge(conversions, action, items[i]).Unconvertible? && 0 <= k < |requests| &&
                  requests[k].itemName == items[i].ItemName();
      var faults: Faults := _ => Fails(UnexpectedStatus(500), false);
      ConversionErrorsAre(conversions, action, items, items[i].ItemName());
      FailureIsRecorded(requests, faults, k);
      assert !(ConversionErrorCodes(conversions, action, items).Keys !! RecordedCodes(requests, faults).Keys);
    }
  }

  lemma SeparateNamesNeverOverlap(conversions: Conversions, action: Action, items: seq<RuleItem>,
                                  requests: seq<ApiRequest>, faults: Faults)
    requires NamesAreSeparate(conversions, action, items, requests)
    ensures ConversionErrorCodes(conversions, action, items).Keys !! RecordedCodes(requests, faults).Keys
  {
    hide ConversionErrorCodes, RecordedCodes, Judge;
    forall name | name in RecordedCodes(requests, faults)
      ensures name !in ConversionErrorCodes(conversions, action, items)
    {
      ConversionErrorsAre(conversions, action, items, name);
      var k := RecordedCodeIsLastFailure(requests, faults, name);
    }
  }

  /** No rule that cannot be converted has the item name of one that is sent. */
  ghost predicate RuleNamesAreSeparate(conversions: Conversions, action: Action, items: seq<RuleItem>) {
    forall i, j | 0 <= i < |items| && Judge(conversions, action, items[i]).Unconvertible? &&
                  0 <= j < |items| && Judge(conversions, action, items[j]).Send? ::
      items[i].ItemName() != items[j].ItemName()
  }

  /** For the requests of the rules themselves, the condition can be read off the rules. */
  lemma RuleErrorsAreDisjointIff(conversions: Conversions, action: Action, items: seq<RuleItem>)
    ensures
      (forall faults: Faults ::
         ConversionErrorCodes(conversions, action, items).Keys !!
         RecordedCodes(Requests(conversions, action, items), faults).Keys) <==>
      RuleNamesAreSeparate(conversions, action, items)
  {
    ErrorMapsAreDisjointIff(conversions, action, items, Requests(conversions, action, items));
    SeparateRuleNames(conversions, action, items);
    hide *;
  }

  lemma SeparateRuleNames(conversions: Conversions, action: Action, items: seq<RuleItem>)
    ensures NamesAreSeparate(conversions, action, items, Requests(conversions, action, items)) <==>
      RuleNamesAreSeparate(conversions, action, items)
  {
    hide Judge, Requests;
    var requests := Requests(conversions, action, items);
    if RuleNamesAreSeparate(conversions, action, items) {
      forall i, k | 0 <= i < |items| && Judge(conversions, action, items[i]).Unconvertible? && 0 <= k < |requests|
        ensures requests[k].itemName != items[i].ItemName()
      {
        var j := RequestFrom(conversions, action, items, k);
      }
    }
    if NamesAreSeparate(conversions, action, items, requests) {
      forall i, j | 0 <= i < |items| && Judge(conversions, action, items[i]).Unconvertible? &&
                    0 <= j < |items| && Judge(conversions, action, items[j]).Send?
        ensures items[i].ItemName() != items[j].ItemName()
      {
        var k := RequestFor(conversions, action, items, j);
      }
    }
  }

  /** A rule that cannot be converted and a rule of the same name that is sent: if the call fails, its error
      replaces the one of the conversion. */
  lemma ErrorMapsOverlap(conversions: Conversions, groupName: string, unconvertible: Rule, sent: Rule, a: string,
                         b: string)
    requires Judge(conversions, UpsertAction, RuleItem(groupName, 0, unconvertible, a)).Unconvertible?
    requires Judge(conversions, UpsertAction, RuleItem(groupName, 1, sent, b)).Send?
    requires unconvertible.Name() == sent.Name() != ""
    ensures var items := [RuleItem(groupName, 0, unconvertible, a), RuleItem(groupName, 1, sent, b)];
      var name := groupName + " - " + sent.Name();
      var faults: Faults := _ => Fails(UnexpectedStatus(503), false);
      && ConversionErrorCodes(conversions, UpsertAction, items) == map[name := 400]
      && RecordedCodes(Requests(conversions, UpsertAction, items), faults) == map[name := 503]
      && SyncErrorCodes(conversions, items, true, UpsertAction, false, Known([]), faults) == map[name := 503]
  {
    var first, second := RuleItem(groupName, 0, unconvertible, a), RuleItem(groupName, 1, sent, b);
    var items := [first, second];
    var faults: Faults := _ => Fails(UnexpectedStatus(503), false);
    assert first.ItemName() == second.ItemName() == groupName + " - " + sent.Name();
    UnconvertibleThenSent(conversions, first, second);
    hide Judge, Requests, ConversionErrorCodes;
    var requests := Requests(conversions, UpsertAction, items);
    assert requests[..0] == [];
    assert RecordedCodes(requests, faults) == map[second.ItemName() := 503];
    assert SyncRequests(conversions, items, UpsertAction, false, Known([])) == requests;
  }

  lemma UnconvertibleThenSent(conversions: Conversions, first: RuleItem, second: RuleItem)
    requires Judge(conversions, UpsertAction, first).Unconvertible? && Judge(conversions, UpsertAction, second).Send?
    ensures ConversionErrorCodes(conversions, UpsertAction, [first, second]) == map[first.ItemName() := 400]
    ensures Requests(conversions, UpsertAction, [first, second]) ==
      [ApiRequest(Judge(conversions, UpsertAction, second).verb, second.ItemName(), second.Target())]
  {
    assert [first, second][..1] == [first] && [first][..0] == [];
    hide Judge;
    assert ConversionErrorCodes(conversions, UpsertAction, [first]) == map[first.ItemName() := 400];
    assert Requests(conversions, UpsertAction, [first]) == [];
  }

  /** Two rules of a group with the same name share an item name. If the API is overloaded for the first of them and
      rejects the second, nothing is retried. */
  lemma SameItemNameHidesRetryableFailure(conversions: Conversions, rule: Rule, a: string, b: string)
    requires rule.record == "" && rule.alert != "" && a != b
    requires Judge(conversions, UpsertAction, RuleItem("g", 0, rule, a)).Send?
    ensures var items := [RuleItem("g", 0, rule, a), RuleItem("g", 1, rule, b)];
      var faults := (o: ApiObject) =>
        if o.origin == a then Fails(UnexpectedStatus(503), false) else Fails(UnexpectedStatus(400), false);
      && FailureCode(Requests(conversions, UpsertAction, items)[0], faults(items[0].Target())) == Some(503)
      && !HasRetryableCode(SyncErrorCodes(conversions, items, true, UpsertAction, false, Known([]), faults))
  {
    var items := [RuleItem("g", 0, rule, a), RuleItem("g", 1, rule, b)];
    var faults := (o: ApiObject) =>
      if o.origin == a then Fails(UnexpectedStatus(503), false) else Fails(UnexpectedStatus(400), false);
    TwoRequests(conversions, items[0], items[1]);
    RetryableCodeIff(conversions, items, true, UpsertAction, false, Known([]), faults);
  }

  lemma TwoRequests(conversions: Conversions, first: RuleItem, second: RuleItem)
    requires Judge(conversions, UpsertAction, first).Send? && Judge(conversions, UpsertAction, second).Send?
    ensures SyncRequests(conversions, [first, second], UpsertAction, false, Known([])) ==
      Requests(conversions, UpsertAction, [first, second])
    ensures Requests(conversions, UpsertAction, [first, second]) ==
      [ApiRequest(Judge(conversions, UpsertAction, first).verb, first.ItemName(), first.Target()),
       ApiRequest(Judge(conversions, UpsertAction, second).verb, second.ItemName(), second.Target())]
  {
    assert [first, second][..1] == [first] && [first][..0] == [];
    var verb := Judge(conversions, UpsertAction, first).verb;
    assert Requests(conversions, UpsertAction, [first]) == [ApiRequest(verb, first.ItemName(), first.Target())];
  }
}
