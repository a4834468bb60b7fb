/** Synchronizing one PrometheusRule resource with one Dash0 dataset: which requests are sent, and what they leave
    behind. */
module RuleSync {
  import opened Common
  import opened Text
  import opened RuleOrigins
  import opened Dash0Backend

  datatype Action = UpsertAction | DeleteAction

  /** Validation and conversion of rules, given the name of their group. An empty list of issues means the rule is
      valid. */
  datatype Conversions = Conversions(
    validationIssues: (Rule, string) -> seq<string>,
    toCheckRule: (Rule, string) -> Option<Payload>,
    toRecordingRule: (Rule, string) -> Option<Payload>)

  datatype RuleItem = RuleItem(groupName: string, ruleIdx: nat, rule: Rule, origin: string) {
    function ItemName(): string {
      groupName + " - " + (if rule.Name() != "" then rule.Name() else Itoa(ruleIdx))
    }

    function Target(): ApiObject {
      ApiObject(if rule.record != "" then RecordingRule else CheckRule, origin)
    }

    predicate IsNameless() {
      rule.Name() == ""
    }
  }

  /** What becomes of one rule. */
  datatype Verdict = Send(verb: Verb) | Invalid(issues: seq<string>) | Unconvertible

  function Judge(conversions: Conversions, action: Action, item: RuleItem): Verdict {
    if item.rule.record != "" then
      if action.DeleteAction? then Send(Delete) else Converted(conversions.toRecordingRule(item.rule, item.groupName))
    else if item.rule.alert == "" then
      Invalid(["rule has neither the alert nor the record attribute"])
    else if action.DeleteAction? then
      Send(Delete)
    else
      var issues := conversions.validationIssues(item.rule, item.groupName);
      if issues != [] then Invalid(issues) else Converted(conversions.toCheckRule(item.rule, item.groupName))
  }

  function Converted(payload: Option<Payload>): Verdict {
    match payload
    case Some(p) => Send(Put(p))
    case None => Unconvertible
  }

  // ---------------------------------------------------------------------------------------------
  // Specification of the mapping from rules to requests, rule by rule
  // ---------------------------------------------------------------------------------------------

  function Requests(conversions: Conversions, action: Action, items: seq<RuleItem>): seq<ApiRequest> {
    if items == [] then
      []
    else
      var last := items[|items| - 1];
      Requests(conversions, action, items[..|items| - 1]) +
      (match Judge(conversions, action, last)
       case Send(verb) => [ApiRequest(verb, last.ItemName(), last.Target())]
       case _ => [])
  }

  function ValidationIssues(conversions: Conversions, action: Action, items: seq<RuleItem>): map<string, seq<string>> {
    if items == [] then
      map[]
    else
      var last := items[|items| - 1];
      var before := ValidationIssues(conversions, action, items[..|items| - 1]);
      match Judge(conversions, action, last)
      case Invalid(issues) => before[last.ItemName() := issues]
      case _ => before
  }

  function ConversionErrorCodes(conversions: Conversions, action: Action, items: seq<RuleItem>): map<string, int> {
    if items == [] then
      map[]
    else
      var last := items[|items| - 1];
      var before := ConversionErrorCodes(conversions, action, items[..|items| - 1]);
      if Judge(conversions, action, last).Unconvertible? then before[last.ItemName() := 400] else before
  }

  function RecordingRules(items: seq<RuleItem>): (n: nat)
    ensures n <= |items|
  {
    if items == [] then 0
    else RecordingRules(items[..|items| - 1]) + if items[|items| - 1].rule.record != "" then 1 else 0
  }

  /** Every rule keeps its origin, whether it can be synchronized or not. */
  function KeptObjects(items: seq<RuleItem>): seq<ApiObject> {
    seq(|items|, i requires 0 <= i < |items| => items[i].Target())
  }

  function OnlyExisting(requests: seq<ApiRequest>, existing: seq<ApiObject>): seq<ApiRequest> {
    if requests == [] then
      []
    else
      var last := requests[|requests| - 1];
      OnlyExisting(requests[..|requests| - 1], existing) +
      (if last.verb.Delete? && last.target !in existing then [] else [last])
  }

  function OrphanDelete(o: ApiObject): ApiRequest {
    ApiRequest(Delete, o.origin + " (deleted)", o)
  }

  function OrphanDeletes(existing: seq<ApiObject>, kept: seq<ApiObject>): seq<ApiRequest> {
    if existing == [] then
      []
    else
      var last := existing[|existing| - 1];
      OrphanDeletes(existing[..|existing| - 1], kept) + (if last in kept then [] else [OrphanDelete(last)])
  }

  /** The result of listing the existing objects of a resource. */
  datatype Listing = Known(objects: seq<ApiObject>) | FetchFailed(code: int)

  /** The requests of one synchronization, in the order in which they are executed. An upsert without a listing skips
      the deletions, a resource that still exists is not deleted without one. */
  function SyncRequests(conversions: Conversions, items: seq<RuleItem>, action: Action, resourceHasBeenDeleted: bool,
                        listing: Listing): seq<ApiRequest>
  {
    if IsRefused(action, resourceHasBeenDeleted, listing) then
      []
    else
      var requests := Requests(conversions, action, items);
      match listing
      case FetchFailed(_) => requests
      case Known(existing) =>
        (if action == DeleteAction then OnlyExisting(requests, existing) else requests) +
        OrphanDeletes(existing, KeptObjects(items))
  }

  const PRECONDITION_ERROR_ITEM_NAME := "*"

  /** The spec of a resource that cannot be converted to groups of rules contributes no rules at all. */
  ghost function Items(prefix: string, spec: Option<seq<RuleGroup>>): seq<RuleItem> {
    match spec
    case None => []
    case Some(groups) => Flatten(ItemRows(groups, SettledOrigins(prefix, groups)))
  }

  function ItemRows(groups: seq<RuleGroup>, origins: seq<seq<string>>): (rows: seq<seq<RuleItem>>)
    requires |origins| == |groups|
    requires forall g | 0 <= g < |groups| :: |origins[g]| == |groups[g].rules|
    ensures |rows| == |groups|
    ensures forall g | 0 <= g < |groups| :: |rows[g]| == |groups[g].rules|
  {
    seq(|groups|, g requires 0 <= g < |groups| => ItemRow(groups[g], origins[g]))
  }

  function ItemRow(group: RuleGroup, origins: seq<string>): (row: seq<RuleItem>)
    requires |origins| == |group.rules|
    ensures |row| == |group.rules|
  {
    seq(|group.rules|, r requires 0 <= r < |group.rules| => RuleItem(group.name, r, group.rules[r], origins[r]))
  }

  /** The status codes under which errors are recorded before any request is executed. */
  function CodesBeforeRequests(conversions: Conversions, items: seq<RuleItem>, parsed: bool, action: Action,
                               listing: Listing): map<string, int>
  {
    var codes := MappingErrorCodes(conversions, items, parsed, action);
    if listing.FetchFailed? && action == UpsertAction && PRECONDITION_ERROR_ITEM_NAME !in codes then
      codes[PRECONDITION_ERROR_ITEM_NAME := listing.code]
    else
      codes
  }

  /** All status codes recorded by one synchronization. */
  function SyncErrorCodes(conversions: Conversions, items: seq<RuleItem>, parsed: bool, action: Action,
                          resourceHasBeenDeleted: bool, listing: Listing, faults: Faults): map<string, int>
  {
    if IsRefused(action, resourceHasBeenDeleted, listing) then
      map[PRECONDITION_ERROR_ITEM_NAME := listing.code]
    else
      CodesBeforeRequests(conversions, items, parsed, action, listing) +
      RecordedCodes(SyncRequests(conversions, items, action, resourceHasBeenDeleted, listing), faults)
  }

  // ---------------------------------------------------------------------------------------------
  // The synchronization as it is executed
  // ---------------------------------------------------------------------------------------------

  class ResourceToRequestsResult {
    var apiRequests: seq<ApiRequest>
    var originsInResource: seq<ApiObject>
    var alertingRulesTotal: nat
    var recordingRulesTotal: nat
    var orphanDeletesTotal: nat
    var validationIssues: map<string, seq<string>>
    var synchronizationErrors: set<string>
    var synchronizationErrorStatusCodes: map<string, int>

    constructor ()
      ensures apiRequests == [] && originsInResource == []
      ensures alertingRulesTotal == 0 && recordingRulesTotal == 0 && orphanDeletesTotal == 0
      ensures validationIssues == map[] && synchronizationErrors == {} && synchronizationErrorStatusCodes == map[]
    {
      apiRequests, originsInResource := [], [];
      alertingRulesTotal, recordingRulesTotal, orphanDeletesTotal := 0, 0, 0;
      validationIssues, synchronizationErrors, synchronizationErrorStatusCodes := map[], {}, map[];
    }

    method AddError(itemName: string, code: int)
      modifies this`synchronizationErrors, this`synchronizationErrorStatusCodes
      ensures synchronizationErrors == old(synchronizationErrors) + {itemName}
      ensures synchronizationErrorStatusCodes == old(synchronizationErrorStatusCodes)[itemName := code]
    {
      synchronizationErrors := synchronizationErrors + {itemName};
      synchronizationErrorStatusCodes := synchronizationErrorStatusCodes[itemName := code];
    }

    /** Drops the DELETE requests for objects that do not exist. */
    method RemoveDeleteRequestsForObjectsThatDoNotExist(existing: seq<ApiObject>)
      modifies this`apiRequests
      ensures apiRequests == OnlyExisting(old(apiRequests), existing)
    {
      var remaining: seq<ApiRequest> := [];
      assert apiRequests[..|apiRequests|] == apiRequests;
      for i := 0 to |apiRequests|
        invariant remaining == OnlyExisting(apiRequests[..i], existing)
      {
        assert apiRequests[..i + 1][..i] == apiRequests[..i];
        if !(apiRequests[i].verb.Delete? && apiRequests[i].target !in existing) {
          remaining := remaining + [apiRequests[i]];
        }
      }
      apiRequests := remaining;
    }

    /** Adds a DELETE request for every existing object that the resource does not list. */
    method AddDeleteRequestsForOrphans(existing: seq<ApiObject>)
      modifies this`apiRequests, this`orphanDeletesTotal
      ensures apiRequests == old(apiRequests) + OrphanDeletes(existing, originsInResource)
      ensures orphanDeletesTotal == |OrphanDeletes(existing, originsInResource)|
    {
      var deleteRequests := CreateDeleteRequests(existing, originsInResource);
      orphanDeletesTotal := |deleteRequests|;
      apiRequests := apiRequests + deleteRequests;
    }
  }

  method CreateDeleteRequests(existing: seq<ApiObject>, originsInResource: seq<ApiObject>)
    returns (deleteRequests: seq<ApiRequest>)
    ensures deleteRequests == OrphanDeletes(existing, originsInResource)
  {
    deleteRequests := [];
    assert existing[..|existing|] == existing;
    for i := 0 to |existing|
      invariant deleteRequests == OrphanDeletes(existing[..i], originsInResource)
    {
      assert existing[..i + 1][..i] == existing[..i];
      if existing[i] in originsInResource {
        continue;
      }
      deleteRequests := deleteRequests + [OrphanDelete(existing[i])];
    }
  }

  /** The status codes of the errors that occur while a resource is mapped to requests. */
  function MappingErrorCodes(conversions: Conversions, items: seq<RuleItem>, parsed: bool, action: Action)
    : map<string, int>
  {
    if parsed then ConversionErrorCodes(conversions, action, items) else map[PRECONDITION_ERROR_ITEM_NAME := 400]
  }

  ghost predicate Maps(result: ResourceToRequestsResult, conversions: Conversions, action: Action, items: seq<RuleItem>,
                       parsed: bool)
    reads result
  {
    && result.apiRequests == Requests(conversions, action, items)
    && result.originsInResource == KeptObjects(items)
    && result.validationIssues == ValidationIssues(conversions, action, items)
    && result.synchronizationErrorStatusCodes == MappingErrorCodes(conversions, items, parsed, action)
    && result.synchronizationErrors == result.synchronizationErrorStatusCodes.Keys
    && result.recordingRulesTotal == RecordingRules(items)
    && result.alertingRulesTotal == |items| - RecordingRules(items)
    && result.orphanDeletesTotal == 0
  }

  /** What one more rule adds. */
  lemma NextItem(conversions: Conversions, action: Action, before: seq<RuleItem>, item: RuleItem)
    ensures var items, verdict := before + [item], Judge(conversions, action, item);
      && KeptObjects(items) == KeptObjects(before) + [item.Target()]
      && RecordingRules(items) == RecordingRules(before) + (if item.rule.record != "" then 1 else 0)
      && Requests(conversions, action, items) == Requests(conversions, action, before) +
           (if verdict.Send? then [ApiRequest(verdict.verb, item.ItemName(), item.Target())] else [])
      && ValidationIssues(conversions, action, items) ==
           (if verdict.Invalid? then ValidationIssues(conversions, action, before)[item.ItemName() := verdict.issues]
            else ValidationIssues(conversions, action, before))
      && ConversionErrorCodes(conversions, action, items) ==
           (if verdict.Unconvertible? then ConversionErrorCodes(conversions, action, before)[item.ItemName() := 400]
            else ConversionErrorCodes(conversions, action, before))
  {
    assert (before + [item])[..|before|] == before;
  }

  method MapRule(result: ResourceToRequestsResult, conversions: Conversions, action: Action, item: RuleItem,
                 ghost before: seq<RuleItem>)
    requires Maps(result, conversions, action, before, true)
    modifies result
    ensures Maps(result, conversions, action, before + [item], true)
  {
    NextItem(conversions, action, before, item);
    hide Requests, ValidationIssues, ConversionErrorCodes, RecordingRules, KeptObjects, Judge;
    result.originsInResource := result.originsInResource + [item.Target()];
    if item.rule.record != "" {
      result.recordingRulesTotal := result.recordingRulesTotal + 1;
    } else {
      result.alertingRulesTotal := result.alertingRulesTotal + 1;
    }
    match Judge(conversions, action, item) {
      case Send(verb) =>
        result.apiRequests := result.apiRequests + [ApiRequest(verb, item.ItemName(), item.Target())];
      case Invalid(issues) =>
        result.validationIssues := result.validationIssues[item.ItemName() := issues];
      case Unconvertible =>
        result.AddError(item.ItemName(), 400);
    }
  }

  method MapGroup(result: ResourceToRequestsResult, conversions: Conversions, action: Action, group: RuleGroup,
                  origins: seq<string>, ghost before: seq<RuleItem>)
    requires |origins| == |group.rules|
    requires Maps(result, conversions, action, before, true)
    modifies result
    ensures Maps(result, conversions, action, before + ItemRow(group, origins), true)
  {
    hide Maps;
    ghost var row := ItemRow(group, origins);
    ghost var items := before;
    for ruleIdx := 0 to |group.rules|
      invariant items == before + row[..ruleIdx]
      invariant Maps(result, conversions, action, items, true)
    {
      var item := RuleItem(group.name, ruleIdx, group.rules[ruleIdx], origins[ruleIdx]);
      MapRule(result, conversions, action, item, items);
      TakeOneMore(row, ruleIdx);
      items := items + [row[ruleIdx]];
    }
    assert row[..|row|] == row;
  }

  method MapResourceToApiCalls(conversions: Conversions, prefix: string, spec: Option<seq<RuleGroup>>, action: Action)
    returns (result: ResourceToRequestsResult, ghost items: seq<RuleItem>)
    ensures fresh(result)
    ensures items == Items(prefix, spec)
    ensures Maps(result, conversions, action, items, spec.Some?)
  {
    result := new ResourceToRequestsResult();
    items := [];
    if spec.None? {
      result.AddError(PRECONDITION_ERROR_ITEM_NAME, 400);
      return;
    }
    var groups := spec.value;
    var ruleOrigins := RenderRuleOrigins(prefix, groups);
    ghost var rows := ItemRows(groups, ruleOrigins);
    for groupIdx := 0 to |groups|
      invariant fresh(result)
      invariant items == Flatten(rows[..groupIdx])
      invariant Maps(result, conversions, action, items, true)
    {
      MapGroup(result, conversions, action, groups[groupIdx], ruleOrigins[groupIdx], items);
      items := items + rows[groupIdx];
      FlattenNext(rows, groupIdx);
    }
    assert rows[..|groups|] == rows;
  }

  /** Executes the requests and merges the recorded failures into the result. */
  method ExecuteRequests(api: Dash0Api, result: ResourceToRequestsResult, faults: Faults)
    returns (successfullySynchronized: seq<string>)
    requires result.synchronizationErrors == result.synchronizationErrorStatusCodes.Keys
    modifies api, result`synchronizationErrors, result`synchronizationErrorStatusCodes
    ensures api.objects == ServeAll(old(api.objects), result.apiRequests, faults)
    ensures successfullySynchronized == Succeeded(result.apiRequests, faults)
    ensures result.synchronizationErrorStatusCodes ==
      old(result.synchronizationErrorStatusCodes) + RecordedCodes(result.apiRequests, faults)
    ensures result.synchronizationErrors == result.synchronizationErrorStatusCodes.Keys
  {
    var httpErrors, httpErrorStatusCodes;
    successfullySynchronized, httpErrors, httpErrorStatusCodes := ExecuteAllApiCalls(api, result.apiRequests, faults);
    result.synchronizationErrors := result.synchronizationErrors + httpErrors.Keys;
    result.synchronizationErrorStatusCodes := result.synchronizationErrorStatusCodes + httpErrorStatusCodes;
  }

  /** Without a listing, a resource that still exists is not deleted. */
  predicate IsRefused(action: Action, resourceHasBeenDeleted: bool, listing: Listing) {
    listing.FetchFailed? && !resourceHasBeenDeleted && action != UpsertAction
  }

  /** What one synchronization reports for one endpoint and dataset. */
  datatype SyncResult = SyncResult(
    successfullySynchronized: seq<string>,
    synchronizationErrors: set<string>,
    synchronizationErrorStatusCodes: map<string, int>,
    validationIssues: map<string, seq<string>>,
    alertingRulesTotal: int,
    recordingRulesTotal: int,
    orphanDeletesTotal: int)

  /** The report, which says nothing about the rules if the synchronization is refused. */
  function Report(conversions: Conversions, items: seq<RuleItem>, parsed: bool, action: Action,
                  resourceHasBeenDeleted: bool, listing: Listing, faults: Faults): SyncResult
  {
    var codes := SyncErrorCodes(conversions, items, parsed, action, resourceHasBeenDeleted, listing, faults);
    var requests := SyncRequests(conversions, items, action, resourceHasBeenDeleted, listing);
    if IsRefused(action, resourceHasBeenDeleted, listing) then
      SyncResult([], codes.Keys, codes, map[], 0, 0, 0)
    else
      SyncResult(Succeeded(requests, faults), codes.Keys, codes, ValidationIssues(conversions, action, items),
                 |items| - RecordingRules(items), RecordingRules(items),
                 if listing.Known? then |OrphanDeletes(listing.objects, KeptObjects(items))| else 0)
  }

  /** One pass of the loop over the API configurations. */
  method SynchronizeViaApi(api: Dash0Api, conversions: Conversions, prefix: string, spec: Option<seq<RuleGroup>>,
                           action: Action, resourceHasBeenDeleted: bool, listing: Listing, faults: Faults)
    returns (report: SyncResult, ghost items: seq<RuleItem>)
    modifies api
    ensures items == Items(prefix, spec)
    ensures api.objects ==
      ServeAll(old(api.objects), SyncRequests(conversions, items, action, resourceHasBeenDeleted, listing), faults)
    ensures report == Report(conversions, items, spec.Some?, action, resourceHasBeenDeleted, listing, faults)
  {
    if IsRefused(action, resourceHasBeenDeleted, listing) {
      items := Items(prefix, spec);
      var codes := map[PRECONDITION_ERROR_ITEM_NAME := listing.code];
      return SyncResult([], codes.Keys, codes, map[], 0, 0, 0), items;
    }
    var result;
    result, items := MapResourceToRequests(conversions, prefix, spec, action, listing);
    var successfullySynchronized := ExecuteRequests(api, result, faults);
    report := SyncResult(successfullySynchronized, result.synchronizationErrors, result.synchronizationErrorStatusCodes,
                         result.validationIssues, result.alertingRulesTotal, result.recordingRulesTotal,
                         result.orphanDeletesTotal);
  }

  /** The result before any request is executed. */
  method MapResourceToRequests(conversions: Conversions, prefix: string, spec: Option<seq<RuleGroup>>, action: Action,
                               listing: Listing)
    returns (result: ResourceToRequestsResult, ghost items: seq<RuleItem>)
    ensures fresh(result) && items == Items(prefix, spec)
    ensures result.apiRequests == SyncRequests(conversions, items, action, true, listing)
    ensures result.synchronizationErrorStatusCodes ==
      CodesBeforeRequests(conversions, items, spec.Some?, action, listing)
    ensures result.synchronizationErrors == result.synchronizationErrorStatusCodes.Keys
    ensures result.validationIssues == ValidationIssues(conversions, action, items)
    ensures result.recordingRulesTotal == RecordingRules(items)
    ensures result.alertingRulesTotal == |items| - RecordingRules(items)
    ensures result.orphanDeletesTotal ==
      if listing.Known? then |OrphanDeletes(listing.objects, KeptObjects(items))| else 0
  {
    result, items := MapResourceToApiCalls(conversions, prefix, spec, action);
    if listing.FetchFailed? && action == UpsertAction && PRECONDITION_ERROR_ITEM_NAME !in result.synchronizationErrors {
      result.AddError(PRECONDITION_ERROR_ITEM_NAME, listing.code);
    }
    if listing.Known? {
      if action == DeleteAction {
        result.RemoveDeleteRequestsForObjectsThatDoNotExist(listing.objects);
      }
      result.AddDeleteRequestsForOrphans(listing.objects);
    }
  }

  /** One endpoint and dataset: the prefix of the resource there, and what happens there during the synchronization. */
  datatype Destination = Destination(prefix: string, listing: Listing, faults: Faults)

  ghost predicate IsSynchronized(destination: Destination, conversions: Conversions, spec: Option<seq<RuleGroup>>,
                                 action: Action, resourceHasBeenDeleted: bool, before: map<ApiObject, Payload>,
                                 after: map<ApiObject, Payload>, report: SyncResult)
  {
    var items := Items(destination.prefix, spec);
    && after == ServeAll(before,
         SyncRequests(conversions, items, action, resourceHasBeenDeleted, destination.listing), destination.faults)
    && report == Report(conversions, items, spec.Some?, action, resourceHasBeenDeleted, destination.listing,
                        destination.faults)
  }

  method SynchronizeDestination(api: Dash0Api, conversions: Conversions, destination: Destination,
                                spec: Option<seq<RuleGroup>>, action: Action, resourceHasBeenDeleted: bool)
    returns (report: SyncResult)
    modifies api
    ensures IsSynchronized(destination, conversions, spec, action, resourceHasBeenDeleted, old(api.objects),
                           api.objects, report)
  {
    hide Report, SyncRequests, ServeAll, Items;
    ghost var items;
    report, items := SynchronizeViaApi(api, conversions, destination.prefix, spec, action, resourceHasBeenDeleted,
                                       destination.listing, destination.faults);
  }

  /** The loop over the API configurations: each one is synchronized, whatever happened with the others. A resource that
      is excluded by its label is deleted, but still exists. */
  method SynchronizeViaAllApis(apis: seq<Dash0Api>, conversions: Conversions, destinations: seq<Destination>,
                               spec: Option<seq<RuleGroup>>, action: Action, syncDisabledViaLabel: bool)
    returns (reports: seq<SyncResult>)
    requires |apis| == |destinations| && NoDuplicates(apis)
    modifies apis
    ensures |reports| == |apis|
    ensures forall i | 0 <= i < |apis| ::
      IsSynchronized(destinations[i], conversions, spec, if syncDisabledViaLabel then DeleteAction else action,
                     action == DeleteAction, old(apis[i].objects), apis[i].objects, reports[i])
  {
    var resourceHasBeenDeleted := action == DeleteAction;
    var effective := if syncDisabledViaLabel then DeleteAction else action;
    assert forall i, j | 0 <= i < |apis| && 0 <= j < |apis| && i != j :: apis[i] != apis[j];
    hide *;
    reports := [];
    for i := 0 to |apis|
      invariant |reports| == i
      invariant forall j | i <= j < |apis| :: apis[j].objects == old(apis[j].objects)
      invariant forall j | 0 <= j < i ::
        IsSynchronized(destinations[j], conversions, spec, effective, resourceHasBeenDeleted,
                       old(apis[j].objects), apis[j].objects, reports[j])
    {
      var report := SynchronizeDestination(apis[i], conversions, destinations[i], spec, effective,
                                           resourceHasBeenDeleted);
      reports := reports + [report];
    }
  }
}
