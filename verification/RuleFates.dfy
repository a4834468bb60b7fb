/** What becomes of each rule of a resource, in terms of the attributes of the rule and the position it has. */
module RuleFates {
  import opened Common
  import opened Text
  import opened RuleOrigins
  import opened Dash0Backend
  import opened RuleSync
  import opened RuleConvergence

  // ---------------------------------------------------------------------------------------------
  // The item for a rule
  // ---------------------------------------------------------------------------------------------

  ghost predicate IsPlace(groups: seq<RuleGroup>, g: nat, r: nat) {
    g < |groups| && r < |groups[g].rules|
  }

  /** The name under which errors and validation issues of a rule are recorded. */
  function RecordedName(groups: seq<RuleGroup>, g: nat, r: nat): string
    requires g < |groups| && r < |groups[g].rules|
  {
    var rule := groups[g].rules[r];
    groups[g].name + " - " +
    (if rule.record != "" then rule.record else if rule.alert != "" then rule.alert else Itoa(r))
  }

  ghost function OriginOf(prefix: string, groups: seq<RuleGroup>, g: nat, r: nat): string
    requires g < |groups| && r < |groups[g].rules|
  {
    SettledOrigins(prefix, groups)[g][r]
  }

  /** The items of a resource are its rules in order, each with the index in its group and its settled origin. */
  lemma ItemFor(prefix: string, groups: seq<RuleGroup>, g: nat, r: nat) returns (i: nat)
    requires IsPlace(groups, g, r)
    ensures i < |Items(prefix, Some(groups))|
    ensures Items(prefix, Some(groups))[i] ==
      RuleItem(groups[g].name, r, groups[g].rules[r], OriginOf(prefix, groups, g, r))
    ensures Items(prefix, Some(groups))[i].ItemName() == RecordedName(groups, g, r)
  {
    var rows := ItemRows(groups, SettledOrigins(prefix, groups));
    i := FlatIndex(rows, g, r);
    FlattenAt(rows, g, r);
  }

  /** Every item is the one for some rule. */
  lemma PlaceOf(prefix: string, groups: seq<RuleGroup>, i: nat) returns (g: nat, r: nat)
    requires i < |Items(prefix, Some(groups))|
    ensures IsPlace(groups, g, r)
    ensures Items(prefix, Some(groups))[i] ==
      RuleItem(groups[g].name, r, groups[g].rules[r], OriginOf(prefix, groups, g, r))
    ensures Items(prefix, Some(groups))[i].ItemName() == RecordedName(groups, g, r)
  {
    var rows := ItemRows(groups, SettledOrigins(prefix, groups));
    g, r := FlattenFrom(rows, i);
    FlattenAt(rows, g, r);
  }

  // ---------------------------------------------------------------------------------------------
  // Requests for an object that a rule stands for
  // ---------------------------------------------------------------------------------------------

  /** No request is sent for the object of a rule that is not sent, so it stays as it is, whatever happens. */
  lemma UnsentRuleStays(conversions: Conversions, prefix: string, items: seq<RuleItem>, action: Action, gone: bool,
                        listing: Listing, faults: Faults, before: map<ApiObject, Payload>, i: nat)
    requires ProperItems(prefix, items) && (listing.Known? ==> NoDuplicates(listing.objects))
    requires i < |items| && !Judge(conversions, action, items[i]).Send?
    ensures var requests, o := SyncRequests(conversions, items, action, gone, listing), items[i].Target();
      && (forall request | request in requests :: request.target != o)
      && Lookup(ServeAll(before, requests, faults), o) == Lookup(before, o)
  {
    var requests, o := SyncRequests(conversions, items, action, gone, listing), items[i].Target();
    SyncRequestsAre(conversions, prefix, items, action, gone, listing);
    assert KeptObjects(items)[i] == o;
    hide SyncRequests, ServeAll, Judge;
    forall k | 0 <= k < |requests|
      ensures requests[k].target != o
    {
      assert IsRequested(conversions, items, action, gone, listing, requests[k].target, requests[k].verb);
    }
    UntargetedObjectsStay(before, requests, faults, o);
  }

  lemma SentRuleIsPut(conversions: Conversions, prefix: string, items: seq<RuleItem>, gone: bool, listing: Listing,
                      faults: Faults, before: map<ApiObject, Payload>, i: nat, payload: Payload)
    requires ProperItems(prefix, items) && (listing.Known? ==> NoDuplicates(listing.objects)) && AllHealthy(faults)
    requires i < |items| && Judge(conversions, UpsertAction, items[i]) == Send(Put(payload))
    ensures var requests := SyncRequests(conversions, items, UpsertAction, gone, listing);
      Lookup(ServeAll(before, requests, faults), items[i].Target()) == Some(payload)
  {
    var o := items[i].Target();
    assert SendsFor(conversions, UpsertAction, items[i], o, Put(payload));
    assert IsRequested(conversions, items, UpsertAction, gone, listing, o, Put(payload));
    hide SyncRequests, ServeAll, Judge;
    SyncChanges(conversions, prefix, items, UpsertAction, gone, listing, faults, before, o);
  }

  lemma SentRuleIsDeleted(conversions: Conversions, prefix: string, items: seq<RuleItem>, gone: bool, listing: Listing,
                          faults: Faults, before: map<ApiObject, Payload>, i: nat)
    requires ProperItems(prefix, items) && AllHealthy(faults)
    requires i < |items| && Judge(conversions, DeleteAction, items[i]) == Send(Delete)
    requires if listing.Known? then NoDuplicates(listing.objects) && items[i].Target() in listing.objects else gone
    ensures var requests := SyncRequests(conversions, items, DeleteAction, gone, listing);
      Lookup(ServeAll(before, requests, faults), items[i].Target()) == None
  {
    var o := items[i].Target();
    assert SendsFor(conversions, DeleteAction, items[i], o, Delete);
    assert IsRequested(conversions, items, DeleteAction, gone, listing, o, Delete);
    hide SyncRequests, ServeAll, Judge;
    SyncChanges(conversions, prefix, items, DeleteAction, gone, listing, faults, before, o);
  }

  // ---------------------------------------------------------------------------------------------
  // What is recorded for a rule
  // ---------------------------------------------------------------------------------------------

  /** The issues of the last invalid rule with a name are recorded under this name. */
  lemma {:induction false} IssuesAre(conversions: Conversions, action: Action, items: seq<RuleItem>, i: nat)
    requires i < |items| && Judge(conversions, action, items[i]).Invalid?
    ensures items[i].ItemName() in ValidationIssues(conversions, action, items)
    ensures (forall j | 0 <= j < |items| && j != i :: items[j].ItemName() != items[i].ItemName()) ==>
      ValidationIssues(conversions, action, items)[items[i].ItemName()] == Judge(conversions, action, items[i]).issues
  {
    var n := |items| - 1;
    if i < n {
      assert items[..n][i] == items[i];
      IssuesAre(conversions, action, items[..n], i);
    }
  }

  lemma {:induction false} OnlyInvalidRulesHaveIssues(conversions: Conversions, action: Action, items: seq<RuleItem>,
                                                      name: string)
    returns (i: nat)
    requires name in ValidationIssues(conversions, action, items)
    ensures i < |items| && items[i].ItemName() == name && Judge(conversions, action, items[i]).Invalid?
    ensures ValidationIssues(conversions, action, items)[name] == Judge(conversions, action, items[i]).issues
  {
    var n := |items| - 1;
    if Judge(conversions, action, items[n]).Invalid? && items[n].ItemName() == name {
      i := n;
    } else {
      i := OnlyInvalidRulesHaveIssues(conversions, action, items[..n], name);
    }
  }

  /** No other rule of the resource is recorded under the same name. */
  ghost predicate IsRecordedAlone(groups: seq<RuleGroup>, g: nat, r: nat)
    requires IsPlace(groups, g, r)
  {
    forall h: nat, t: nat | IsPlace(groups, h, t) && (h, t) != (g, r) ::
      RecordedName(groups, h, t) != RecordedName(groups, g, r)
  }

  lemma AloneAmongItems(prefix: string, groups: seq<RuleGroup>, g: nat, r: nat, i: nat)
    requires IsPlace(groups, g, r) && i < |Items(prefix, Some(groups))| && IsRecordedAlone(groups, g, r)
    requires Items(prefix, Some(groups))[i].origin == OriginOf(prefix, groups, g, r)
    requires Items(prefix, Some(groups))[i].ItemName() == RecordedName(groups, g, r)
    ensures var items := Items(prefix, Some(groups));
      forall j | 0 <= j < |items| && j != i :: items[j].ItemName() != items[i].ItemName()
  {
    var items := Items(prefix, Some(groups));
    ItemsAreProper(prefix, Some(groups));
    forall j | 0 <= j < |items| && j != i
      ensures items[j].ItemName() != items[i].ItemName()
    {
      var h, t := PlaceOf(prefix, groups, j);
      assert items[j].origin != items[i].origin;
    }
  }

  // ---------------------------------------------------------------------------------------------
  // Upserts
  // ---------------------------------------------------------------------------------------------

  /** The report says what is wrong with a rule. */
  ghost predicate ReportsIssues(report: SyncResult, groups: seq<RuleGroup>, g: nat, r: nat, issues: seq<string>)
    requires IsPlace(groups, g, r)
  {
    && RecordedName(groups, g, r) in report.validationIssues
    && (IsRecordedAlone(groups, g, r) ==> report.validationIssues[RecordedName(groups, g, r)] == issues)
  }

  /** No request is sent for an object, and it stays as it is. */
  ghost predicate IsLeftAlone(conversions: Conversions, prefix: string, groups: seq<RuleGroup>, action: Action,
                              gone: bool, listing: Listing, faults: Faults, before: map<ApiObject, Payload>,
                              o: ApiObject)
  {
    && (forall request |
          request in SyncRequests(conversions, Items(prefix, Some(groups)), action, gone, listing) ::
          request.target != o)
    && Lookup(Synchronized(conversions, prefix, Some(groups), action, gone, listing, faults, before), o) ==
       Lookup(before, o)
  }

  lemma ReportedParts(conversions: Conversions, items: seq<RuleItem>, action: Action, gone: bool, listing: Listing,
                      faults: Faults)
    requires listing.Known? || gone || action == UpsertAction
    ensures var report := Report(conversions, items, true, action, gone, listing, faults);
      && report.validationIssues == ValidationIssues(conversions, action, items)
      && ConversionErrorCodes(conversions, action, items).Keys <= report.synchronizationErrors
  {
    hide Items, SyncRequests, ConversionErrorCodes, ValidationIssues, RecordedCodes, RecordingRules, OrphanDeletes;
  }

  ghost function ItemOf(prefix: string, groups: seq<RuleGroup>, g: nat, r: nat): RuleItem
    requires IsPlace(groups, g, r)
  {
    RuleItem(groups[g].name, r, groups[g].rules[r], OriginOf(prefix, groups, g, r))
  }

  lemma UnsentIsLeftAlone(conversions: Conversions, prefix: string, groups: seq<RuleGroup>, action: Action, gone: bool,
                          listing: Listing, faults: Faults, before: map<ApiObject, Payload>, g: nat, r: nat)
    requires IsPlace(groups, g, r) && (listing.Known? ==> NoDuplicates(listing.objects))
    requires !Judge(conversions, action, ItemOf(prefix, groups, g, r)).Send?
    ensures IsLeftAlone(conversions, prefix, groups, action, gone, listing, faults, before,
                        ItemOf(prefix, groups, g, r).Target())
  {
    hide Items, SyncRequests, ServeAll, SettledOrigins, Judge, ProperItems, RecordedName, Itoa;
    var i := ItemFor(prefix, groups, g, r);
    ItemsAreProper(prefix, Some(groups));
    UnsentRuleStays(conversions, prefix, Items(prefix, Some(groups)), action, gone, listing, faults, before, i);
  }

  lemma IssuesAreReported(conversions: Conversions, prefix: string, groups: seq<RuleGroup>, action: Action, gone: bool,
                          listing: Listing, faults: Faults, g: nat, r: nat)
    requires IsPlace(groups, g, r) && (listing.Known? || gone || action == UpsertAction)
    requires Judge(conversions, action, ItemOf(prefix, groups, g, r)).Invalid?
    ensures ReportsIssues(
      Report(conversions, Items(prefix, Some(groups)), true, action, gone, listing, faults), groups, g, r,
      Judge(conversions, action, ItemOf(prefix, groups, g, r)).issues)
  {
    var items := Items(prefix, Some(groups));
    var i := ItemFor(prefix, groups, g, r);
    hide Items, SettledOrigins, Report, ValidationIssues, Judge, IsRecordedAlone;
    ReportedParts(conversions, items, action, gone, listing, faults);
    IssuesAre(conversions, action, items, i);
    if IsRecordedAlone(groups, g, r) {
      AloneAmongItems(prefix, groups, g, r, i);
    }
  }

  /** An alerting rule with validation issues is not sent. Its issues are reported, and its object stays as it is,
      whatever the listing is and whatever calls fail. */
  lemma InvalidAlertingRule(conversions: Conversions, prefix: string, groups: seq<RuleGroup>, gone: bool,
                            listing: Listing, faults: Faults, before: map<ApiObject, Payload>, g: nat, r: nat)
    requires IsPlace(groups, g, r) && (listing.Known? ==> NoDuplicates(listing.objects))
    requires var rule := groups[g].rules[r];
      rule.record == "" && rule.alert != "" && conversions.validationIssues(rule, groups[g].name) != []
    ensures IsLeftAlone(conversions, prefix, groups, UpsertAction, gone, listing, faults, before,
                        ApiObject(CheckRule, OriginOf(prefix, groups, g, r)))
    ensures ReportsIssues(
      Report(conversions, Items(prefix, Some(groups)), true, UpsertAction, gone, listing, faults), groups, g, r,
      conversions.validationIssues(groups[g].rules[r], groups[g].name))
  {
    hide Items, SyncRequests, ServeAll, SettledOrigins, Report, ReportsIssues, IsLeftAlone;
    UnsentIsLeftAlone(conversions, prefix, groups, UpsertAction, gone, listing, faults, before, g, r);
    IssuesAreReported(conversions, prefix, groups, UpsertAction, gone, listing, faults, g, r);
  }

  /** A rule without a name is not sent either, nor deleted. */
  lemma NamelessRule(conversions: Conversions, prefix: string, groups: seq<RuleGroup>, action: Action, gone: bool,
                     listing: Listing, faults: Faults, before: map<ApiObject, Payload>, g: nat, r: nat)
    requires IsPlace(groups, g, r) && (listing.Known? ==> NoDuplicates(listing.objects))
    requires groups[g].rules[r].record == "" && groups[g].rules[r].alert == ""
    ensures IsLeftAlone(conversions, prefix, groups, action, gone, listing, faults, before,
                        ApiObject(CheckRule, OriginOf(prefix, groups, g, r)))
    ensures listing.Known? || gone || action == UpsertAction ==> ReportsIssues(
      Report(conversions, Items(prefix, Some(groups)), true, action, gone, listing, faults), groups, g, r,
      ["rule has neither the alert nor the record attribute"])
  {
    hide Items, SyncRequests, ServeAll, SettledOrigins, Report, ReportsIssues, IsLeftAlone;
    UnsentIsLeftAlone(conversions, prefix, groups, action, gone, listing, faults, before, g, r);
    if listing.Known? || gone || action == UpsertAction {
      IssuesAreReported(conversions, prefix, groups, action, gone, listing, faults, g, r);
    }
  }

  /** After a healthy upsert, the object of a valid alerting rule is a check rule with the payload of this rule. */
  lemma ValidAlertingRule(conversions: Conversions, prefix: string, groups: seq<RuleGroup>, gone: bool,
                          listing: Listing, faults: Faults, before: map<ApiObject, Payload>, g: nat, r: nat,
                          payload: Payload)
    requires IsPlace(groups, g, r) && (listing.Known? ==> NoDuplicates(listing.objects)) && AllHealthy(faults)
    requires var rule := groups[g].rules[r];
      && rule.record == "" && rule.alert != ""
      && conversions.validationIssues(rule, groups[g].name) == []
      && conversions.toCheckRule(rule, groups[g].name) == Some(payload)
    ensures Lookup(Synchronized(conversions, prefix, Some(groups), UpsertAction, gone, listing, faults, before),
                   ApiObject(CheckRule, OriginOf(prefix, groups, g, r))) == Some(payload)
  {
    var items := Items(prefix, Some(groups));
    var i := ItemFor(prefix, groups, g, r);
    ItemsAreProper(prefix, Some(groups));
    hide Items, SyncRequests, ServeAll, SettledOrigins;
    SentRuleIsPut(conversions, prefix, items, gone, listing, faults, before, i, payload);
  }

  /** After a healthy upsert, the object of a recording rule is a recording rule with the payload of this rule.
      Recording rules are not validated. */
  lemma ConvertibleRecordingRule(conversions: Conversions, prefix: string, groups: seq<RuleGroup>, gone: bool,
                                 listing: Listing, faults: Faults, before: map<ApiObject, Payload>, g: nat, r: nat,
                                 payload: Payload)
    requires IsPlace(groups, g, r) && (listing.Known? ==> NoDuplicates(listing.objects)) && AllHealthy(faults)
    requires groups[g].rules[r].record != ""
    requires conversions.toRecordingRule(groups[g].rules[r], groups[g].name) == Some(payload)
    ensures Lookup(Synchronized(conversions, prefix, Some(groups), UpsertAction, gone, listing, faults, before),
                   ApiObject(RecordingRule, OriginOf(prefix, groups, g, r))) == Some(payload)
  {
    var items := Items(prefix, Some(groups));
    var i := ItemFor(prefix, groups, g, r);
    ItemsAreProper(prefix, Some(groups));
    hide Items, SyncRequests, ServeAll, SettledOrigins;
    SentRuleIsPut(conversions, prefix, items, gone, listing, faults, before, i, payload);
  }

  /** A rule that cannot be converted is not sent, and an error is reported for it. */
  lemma UnconvertibleRule(conversions: Conversions, prefix: string, groups: seq<RuleGroup>, gone: bool,
                          listing: Listing, faults: Faults, before: map<ApiObject, Payload>, g: nat, r: nat)
    requires IsPlace(groups, g, r) && (listing.Known? ==> NoDuplicates(listing.objects))
    requires var rule, groupName := groups[g].rules[r], groups[g].name;
      if rule.record != "" then
        conversions.toRecordingRule(rule, groupName) == None
      else
        rule.alert != "" && conversions.validationIssues(rule, groupName) == [] &&
        conversions.toCheckRule(rule, groupName) == None
    ensures IsLeftAlone(conversions, prefix, groups, UpsertAction, gone, listing, faults, before,
                        ApiObject(if groups[g].rules[r].record != "" then RecordingRule else CheckRule,
                                  OriginOf(prefix, groups, g, r)))
    ensures RecordedName(groups, g, r) in
      Report(conversions, Items(prefix, Some(groups)), true, UpsertAction, gone, listing, faults).synchronizationErrors
  {
    var items := Items(prefix, Some(groups));
    var i := ItemFor(prefix, groups, g, r);
    hide Items, SettledOrigins, IsLeftAlone, ConversionErrorCodes, Report;
    UnsentIsLeftAlone(conversions, prefix, groups, UpsertAction, gone, listing, faults, before, g, r);
    ReportedParts(conversions, items, UpsertAction, gone, listing, faults);
    ConversionErrorIsRecorded(conversions, UpsertAction, items, i);
  }

  lemma {:induction false} ConversionErrorIsRecorded(conversions: Conversions, action: Action, items: seq<RuleItem>,
                                                     i: nat)
    requires i < |items| && Judge(conversions, action, items[i]).Unconvertible?
    ensures items[i].ItemName() in ConversionErrorCodes(conversions, action, items)
    ensures ConversionErrorCodes(conversions, action, items)[items[i].ItemName()] == 400
  {
    var n := |items| - 1;
    if i < n {
      assert items[..n][i] == items[i];
      ConversionErrorIsRecorded(conversions, action, items[..n], i);
    }
  }

  // ---------------------------------------------------------------------------------------------
  // Deletions
  // ---------------------------------------------------------------------------------------------

  /** After a healthy deletion, the object of a rule with a name is gone, if it is listed, or if the resource is
      gone and there is no listing. */
  lemma NamedRuleIsDeleted(conversions: Conversions, prefix: string, groups: seq<RuleGroup>, gone: bool,
                           listing: Listing, faults: Faults, before: map<ApiObject, Payload>, g: nat, r: nat)
    requires IsPlace(groups, g, r) && AllHealthy(faults)
    requires groups[g].rules[r].record != "" || groups[g].rules[r].alert != ""
    requires var o := ApiObject(if groups[g].rules[r].record != "" then RecordingRule else CheckRule,
                                OriginOf(prefix, groups, g, r));
      if listing.Known? then NoDuplicates(listing.objects) && o in listing.objects else gone
    ensures var o := ApiObject(if groups[g].rules[r].record != "" then RecordingRule else CheckRule,
                               OriginOf(prefix, groups, g, r));
      Lookup(Synchronized(conversions, prefix, Some(groups), DeleteAction, gone, listing, faults, before), o) == None
  {
    var items := Items(prefix, Some(groups));
    var i := ItemFor(prefix, groups, g, r);
    ItemsAreProper(prefix, Some(groups));
    hide Items, SyncRequests, ServeAll, SettledOrigins;
    SentRuleIsDeleted(conversions, prefix, items, gone, listing, faults, before, i);
  }

  // ---------------------------------------------------------------------------------------------
  // The report
  // ---------------------------------------------------------------------------------------------

  function RecordingIndexes(items: seq<RuleItem>, n: nat): set<int>
    requires n <= |items|
  {
    set i | 0 <= i < n && items[i].rule.record != ""
  }

  lemma NextRecordingIndex(items: seq<RuleItem>, n: nat)
    requires n < |items|
    ensures n !in RecordingIndexes(items, n)
    ensures RecordingIndexes(items, n + 1) ==
      if items[n].rule.record != "" then RecordingIndexes(items, n) + {n} else RecordingIndexes(items, n)
  {
  }

  /** The recording rules that are counted are those with a record. */
  lemma {:induction false} RecordingRulesAreCounted(items: seq<RuleItem>, n: nat)
    requires n <= |items|
    ensures RecordingRules(items[..n]) == |RecordingIndexes(items, n)|
  {
    if n > 0 {
      RecordingRulesAreCounted(items, n - 1);
      assert items[..n][..n - 1] == items[..n - 1] && items[..n][n - 1] == items[n - 1];
      NextRecordingIndex(items, n - 1);
      hide RecordingIndexes;
    }
  }

  /** A name is reported as successful exactly if some request with this name has succeeded; deleting what does not
      exist anymore counts as success. */
  lemma {:induction false} SucceededIff(requests: seq<ApiRequest>, faults: Faults, name: string)
    ensures name in Succeeded(requests, faults) <==>
      exists k :: 0 <= k < |requests| && requests[k].itemName == name &&
        (faults(requests[k].target).Healthy? ||
         (requests[k].verb.Delete? && faults(requests[k].target).error == UnexpectedStatus(404)))
  {
    if requests != [] {
      var n := |requests| - 1;
      SucceededIff(requests[..n], faults, name);
      var init := requests[..n];
      assert forall k | 0 <= k < n :: init[k] == requests[k];
      if k :| 0 <= k < |requests| && requests[k].itemName == name &&
              (faults(requests[k].target).Healthy? ||
               (requests[k].verb.Delete? && faults(requests[k].target).error == UnexpectedStatus(404))) {
        assert k < n ==> init[k].itemName == name;
      }
    }
  }

  /** The number of orphans is the number of listed objects that no rule stands for. */
  lemma {:induction false} OrphansAreCounted(existing: seq<ApiObject>, kept: seq<ApiObject>, n: nat)
    requires n <= |existing| && NoDuplicates(existing)
    ensures |OrphanDeletes(existing[..n], kept)| == |OrphanIndexes(existing, kept, n)|
  {
    if n > 0 {
      OrphansAreCounted(existing, kept, n - 1);
      assert existing[..n][..n - 1] == existing[..n - 1] && existing[..n][n - 1] == existing[n - 1];
      NextOrphanIndex(existing, kept, n - 1);
      hide OrphanIndexes;
    }
  }

  function OrphanIndexes(existing: seq<ApiObject>, kept: seq<ApiObject>, n: nat): set<int>
    requires n <= |existing|
  {
    set i | 0 <= i < n && existing[i] !in kept
  }

  lemma NextOrphanIndex(existing: seq<ApiObject>, kept: seq<ApiObject>, n: nat)
    requires n < |existing|
    ensures n !in OrphanIndexes(existing, kept, n)
    ensures OrphanIndexes(existing, kept, n + 1) ==
      if existing[n] !in kept then OrphanIndexes(existing, kept, n) + {n} else OrphanIndexes(existing, kept, n)
  {
  }

  /** The totals of the report: recording rules, alerting rules, and orphans; and the items that are reported as
      successful. */
  lemma TotalsAreReported(conversions: Conversions, items: seq<RuleItem>, action: Action, gone: bool, listing: Listing,
                          faults: Faults, name: string)
    requires listing.Known? && NoDuplicates(listing.objects)
    ensures var report := Report(conversions, items, true, action, gone, listing, faults);
      var requests := SyncRequests(conversions, items, action, gone, listing);
      && report.recordingRulesTotal == |RecordingIndexes(items, |items|)|
      && report.alertingRulesTotal == |items| - |RecordingIndexes(items, |items|)|
      && report.orphanDeletesTotal == |OrphanIndexes(listing.objects, KeptObjects(items), |listing.objects|)|
      && (name in report.successfullySynchronized <==>
          exists k :: 0 <= k < |requests| && requests[k].itemName == name &&
            (faults(requests[k].target).Healthy? ||
             (requests[k].verb.Delete? && faults(requests[k].target).error == UnexpectedStatus(404))))
  {
    RecordingRulesAreCounted(items, |items|);
    OrphansAreCounted(listing.objects, KeptObjects(items), |listing.objects|);
    SucceededIff(SyncRequests(conversions, items, action, gone, listing), faults, name);
    assert items[..|items|] == items && listing.objects[..|listing.objects|] == listing.objects;
    hide SyncRequests, Succeeded, RecordingRules, OrphanDeletes, RecordingIndexes, OrphanIndexes, SyncErrorCodes,
         ValidationIssues, KeptObjects;
  }

  /** What is recorded for a request whose item name no other request has. */
  lemma {:induction false} RecordedCodeIs(requests: seq<ApiRequest>, faults: Faults, k: nat)
    requires k < |requests|
    requires forall j | 0 <= j < |requests| && j != k :: requests[j].itemName != requests[k].itemName
    ensures Lookup(RecordedCodes(requests, faults), requests[k].itemName) ==
      match faults(requests[k].target)
      case Healthy => None
      case Fails(InvalidAuthToken, _) => Some(401)
      case Fails(TransportError, _) => Some(0)
      case Fails(UnexpectedStatus(code), _) => if requests[k].verb.Delete? && code == 404 then None else Some(code)
  {
    var n := |requests| - 1;
    if k < n {
      assert requests[..n][k] == requests[k];
      RecordedCodeIs(requests[..n], faults, k);
    } else {
      NothingRecorded(requests[..n], faults, requests[k].itemName);
    }
  }

  lemma {:induction false} NothingRecorded(requests: seq<ApiRequest>, faults: Faults, name: string)
    requires forall j | 0 <= j < |requests| :: requests[j].itemName != name
    ensures name !in RecordedCodes(requests, faults)
  {
    if requests != [] {
      NothingRecorded(requests[..|requests| - 1], faults, name);
    }
  }

  /** The deletion of an orphan that fails is recorded under the origin of the orphan, with a remark. */
  lemma FailedOrphanDeletion(conversions: Conversions, items: seq<RuleItem>, action: Action, gone: bool,
                             listing: Listing, o: ApiObject)
    requires listing.Known? && o in listing.objects
    requires forall i | 0 <= i < |items| :: items[i].Target() != o
    ensures ApiRequest(Delete, o.origin + " (deleted)", o) in SyncRequests(conversions, items, action, gone, listing)
  {
    OrphanDeletesAre(listing.objects, KeptObjects(items), OrphanDelete(o));
  }

  /** For a spec that cannot be converted, there is one error and nothing else, if the calls succeed. */
  lemma UnparsableSpecIsReported(conversions: Conversions, prefix: string, action: Action, gone: bool,
                                 listing: Listing, faults: Faults)
    requires AllHealthy(faults) && listing.Known?
    ensures var report := Report(conversions, Items(prefix, None), false, action, gone, listing, faults);
      && report.synchronizationErrorStatusCodes == map["*" := 400] && report.synchronizationErrors == {"*"}
      && report.validationIssues == map[]
      && report.alertingRulesTotal == report.recordingRulesTotal == 0
  {
    NoCodes(SyncRequests(conversions, [], action, gone, listing), faults);
  }

  lemma {:induction false} NoCodes(requests: seq<ApiRequest>, faults: Faults)
    requires AllHealthy(faults)
    ensures RecordedCodes(requests, faults) == map[]
  {
    if requests != [] {
      NoCodes(requests[..|requests| - 1], faults);
    }
  }

  /** Without a listing, an upsert records the failure of the listing, and a deletion of an existing resource does
      nothing else. */
  lemma FailedListingIsReported(conversions: Conversions, prefix: string, groups: seq<RuleGroup>, action: Action,
                                gone: bool, code: int, faults: Faults)
    requires action == UpsertAction || !gone
    ensures var report :=
        Report(conversions, Items(prefix, Some(groups)), true, action, gone, FetchFailed(code), faults);
      "*" in report.synchronizationErrors &&
      (action == DeleteAction ==> report == SyncResult([], {"*"}, map["*" := code], map[], 0, 0, 0))
  {
  }
}
