/** What one synchronization leaves behind in the Dash0 backend, for every resource and every state of the backend. */
module RuleConvergence {
  import opened Common
  import opened Text
  import opened RuleOrigins
  import opened Dash0Backend
  import opened RuleSync

  // ---------------------------------------------------------------------------------------------
  // Items
  // ---------------------------------------------------------------------------------------------

  lemma ItemOrigin(prefix: string, groups: seq<RuleGroup>, i: nat)
    requires i < |Items(prefix, Some(groups))|
    ensures i < |Flatten(DerivedOrigins(prefix, groups))|
    ensures Items(prefix, Some(groups))[i].origin == Settled(Flatten(DerivedOrigins(prefix, groups)))[i]
  {
    hide Settled, DerivedOrigins, Flatten;
    var origins := SettledOrigins(prefix, groups);
    var rows, derivedRows := ItemRows(groups, origins), DerivedOrigins(prefix, groups);
    var g, r := FlattenFrom(rows, i);
    FlattenAt(rows, g, r);
    SameShapeSameIndex(rows, derivedRows);
    FlattenAt(derivedRows, g, r);
    assert FlatIndex(rows, g, r) == FlatIndex(derivedRows, g, r);
  }

  /** The rules of a resource are synchronized to pairwise different objects, all under the prefix of the resource. */
  ghost predicate ProperItems(prefix: string, items: seq<RuleItem>) {
    && (forall i, j | 0 <= i < j < |items| :: items[i].origin != items[j].origin)
    && forall i | 0 <= i < |items| :: prefix <= items[i].origin
  }

  lemma ItemsAreProper(prefix: string, spec: Option<seq<RuleGroup>>)
    ensures ProperItems(prefix, Items(prefix, spec))
  {
    if spec.Some? {
      var groups, items := spec.value, Items(prefix, spec);
      forall i | 0 <= i < |items|
        ensures prefix <= items[i].origin
      {
        ItemOrigin(prefix, groups, i);
        OriginsCarryPrefix(prefix, groups, i);
      }
      forall i, j | 0 <= i < j < |items|
        ensures items[i].origin != items[j].origin
      {
        ItemOrigin(prefix, groups, i);
        ItemOrigin(prefix, groups, j);
        OriginsAreDistinct(Flatten(DerivedOrigins(prefix, groups)), i, j);
      }
    }
  }

  // ---------------------------------------------------------------------------------------------
  // Requests: which there are, and that they have pairwise different targets
  // ---------------------------------------------------------------------------------------------

  ghost predicate Targets(requests: seq<ApiRequest>, o: ApiObject) {
    exists i :: 0 <= i < |requests| && requests[i].target == o
  }

  /** The item, if any, that sends a request for the given object. */
  ghost predicate SendsFor(conversions: Conversions, action: Action, item: RuleItem, o: ApiObject, verb: Verb) {
    item.Target() == o && Judge(conversions, action, item) == Send(verb)
  }

  lemma {:induction false} RequestFrom(conversions: Conversions, action: Action, items: seq<RuleItem>, k: nat)
    returns (i: nat)
    requires k < |Requests(conversions, action, items)|
    ensures i < |items|
    ensures var request := Requests(conversions, action, items)[k];
      SendsFor(conversions, action, items[i], request.target, request.verb) && request.itemName == items[i].ItemName()
  {
    var n := |items| - 1;
    if k < |Requests(conversions, action, items[..n])| {
      i := RequestFrom(conversions, action, items[..n], k);
    } else {
      i := n;
    }
  }

  lemma {:induction false} RequestFor(conversions: Conversions, action: Action, items: seq<RuleItem>, i: nat)
    returns (k: nat)
    requires i < |items| && Judge(conversions, action, items[i]).Send?
    ensures k < |Requests(conversions, action, items)|
    ensures var request := Requests(conversions, action, items)[k];
      SendsFor(conversions, action, items[i], request.target, request.verb) && request.itemName == items[i].ItemName()
  {
    var n := |items| - 1;
    if i < n {
      k := RequestFor(conversions, action, items[..n], i);
    } else {
      k := |Requests(conversions, action, items[..n])|;
    }
  }

  lemma {:induction false} RequestsDistinct(conversions: Conversions, action: Action, prefix: string,
                                            items: seq<RuleItem>)
    requires ProperItems(prefix, items)
    ensures DistinctTargets(Requests(conversions, action, items))
  {
    if items != [] {
      var n := |items| - 1;
      var before := Requests(conversions, action, items[..n]);
      RequestsDistinct(conversions, action, prefix, items[..n]);
      forall k | 0 <= k < |before|
        ensures before[k].target != items[n].Target()
      {
        var i := RequestFrom(conversions, action, items[..n], k);
      }
    }
  }

  lemma {:induction false} OnlyExistingKeeps(requests: seq<ApiRequest>, existing: seq<ApiObject>, request: ApiRequest)
    ensures request in OnlyExisting(requests, existing) <==>
      request in requests && (request.verb.Delete? ==> request.target in existing)
  {
    if requests != [] {
      OnlyExistingKeeps(requests[..|requests| - 1], existing, request);
    }
  }

  lemma {:induction false} OnlyExistingDistinct(requests: seq<ApiRequest>, existing: seq<ApiObject>)
    requires DistinctTargets(requests)
    ensures DistinctTargets(OnlyExisting(requests, existing))
  {
    if requests != [] {
      var n := |requests| - 1;
      var before := OnlyExisting(requests[..n], existing);
      OnlyExistingDistinct(requests[..n], existing);
      forall k | 0 <= k < |before|
        ensures before[k].target != requests[n].target
      {
        OnlyExistingKeeps(requests[..n], existing, before[k]);
      }
    }
  }

  lemma {:induction false} OrphanDeletesAre(existing: seq<ApiObject>, kept: seq<ApiObject>, request: ApiRequest)
    ensures request in OrphanDeletes(existing, kept) <==>
      request.target in existing && request.target !in kept && request == OrphanDelete(request.target)
  {
    if existing != [] {
      OrphanDeletesAre(existing[..|existing| - 1], kept, request);
    }
  }

  lemma {:induction false} OrphanDeletesDistinct(existing: seq<ApiObject>, kept: seq<ApiObject>)
    requires NoDuplicates(existing)
    ensures DistinctTargets(OrphanDeletes(existing, kept))
  {
    if existing != [] {
      var n := |existing| - 1;
      var before := OrphanDeletes(existing[..n], kept);
      OrphanDeletesDistinct(existing[..n], kept);
      forall k | 0 <= k < |before|
        ensures before[k].target != existing[n]
      {
        OrphanDeletesAre(existing[..n], kept, before[k]);
      }
    }
  }

  /** The verb, if any, of the requests for an object: what the item for this object sends, restricted to existing
      objects for a deletion, or the deletion of an orphan. */
  ghost predicate IsRequested(conversions: Conversions, items: seq<RuleItem>, action: Action,
                              resourceHasBeenDeleted: bool, listing: Listing, o: ApiObject, verb: Verb)
  {
    && (listing.FetchFailed? && action == DeleteAction ==> resourceHasBeenDeleted)
    && (|| (&& (exists i :: 0 <= i < |items| && SendsFor(conversions, action, items[i], o, verb))
            && (listing.Known? && action == DeleteAction && verb.Delete? ==> o in listing.objects))
        || (listing.Known? && o in listing.objects && o !in KeptObjects(items) && verb == Delete))
  }

  lemma SyncRequestsAre(conversions: Conversions, prefix: string, items: seq<RuleItem>, action: Action,
                        resourceHasBeenDeleted: bool, listing: Listing)
    requires ProperItems(prefix, items) && (listing.Known? ==> NoDuplicates(listing.objects))
    ensures var requests := SyncRequests(conversions, items, action, resourceHasBeenDeleted, listing);
      && DistinctTargets(requests)
      && (forall k | 0 <= k < |requests| ::
        IsRequested(conversions, items, action, resourceHasBeenDeleted, listing, requests[k].target, requests[k].verb))
      && forall o, verb | IsRequested(conversions, items, action, resourceHasBeenDeleted, listing, o, verb) ::
        exists k :: 0 <= k < |requests| && requests[k].target == o && requests[k].verb == verb
  {
    var requests := SyncRequests(conversions, items, action, resourceHasBeenDeleted, listing);
    var fromItems := Requests(conversions, action, items);
    RequestsDistinct(conversions, action, prefix, items);
    if !(listing.FetchFailed? && action == DeleteAction && !resourceHasBeenDeleted) {
      var kept :=
        if listing.Known? && action == DeleteAction then OnlyExisting(fromItems, listing.objects) else fromItems;
      var orphans := if listing.Known? then OrphanDeletes(listing.objects, KeptObjects(items)) else [];
      assert requests == kept + orphans;
      if listing.Known? {
        OnlyExistingDistinct(fromItems, listing.objects);
        OrphanDeletesDistinct(listing.objects, KeptObjects(items));
      }
      forall k | 0 <= k < |kept|
        ensures kept[k].target in KeptObjects(items)
        ensures IsRequested(conversions, items, action, resourceHasBeenDeleted, listing, kept[k].target, kept[k].verb)
      {
        KeptRequestFrom(conversions, items, action, resourceHasBeenDeleted, listing, kept[k]);
      }
      forall k | 0 <= k < |orphans|
        ensures orphans[k].target !in KeptObjects(items)
        ensures IsRequested(conversions, items, action, resourceHasBeenDeleted, listing, orphans[k].target,
                            orphans[k].verb)
      {
        OrphanDeletesAre(listing.objects, KeptObjects(items), orphans[k]);
      }
      forall o, verb | IsRequested(conversions, items, action, resourceHasBeenDeleted, listing, o, verb)
        ensures exists k :: 0 <= k < |requests| && requests[k].target == o && requests[k].verb == verb
      {
        if i :| 0 <= i < |items| && SendsFor(conversions, action, items[i], o, verb) {
          var k := RequestFor(conversions, action, items, i);
          if listing.Known? {
            OnlyExistingKeeps(fromItems, listing.objects, fromItems[k]);
          }
          assert fromItems[k] in kept + orphans;
        } else {
          OrphanDeletesAre(listing.objects, KeptObjects(items), OrphanDelete(o));
          assert OrphanDelete(o) in kept + orphans;
        }
      }
    }
  }

  lemma KeptRequestFrom(conversions: Conversions, items: seq<RuleItem>, action: Action, resourceHasBeenDeleted: bool,
                        listing: Listing, request: ApiRequest)
    requires !(listing.FetchFailed? && action == DeleteAction && !resourceHasBeenDeleted)
    requires var fromItems := Requests(conversions, action, items);
      request in
        if listing.Known? && action == DeleteAction then OnlyExisting(fromItems, listing.objects) else fromItems
    ensures request.target in KeptObjects(items)
    ensures IsRequested(conversions, items, action, resourceHasBeenDeleted, listing, request.target, request.verb)
  {
    var fromItems := Requests(conversions, action, items);
    if listing.Known? {
      OnlyExistingKeeps(fromItems, listing.objects, request);
    }
    var k :| 0 <= k < |fromItems| && fromItems[k] == request;
    var i := RequestFrom(conversions, action, items, k);
    assert KeptObjects(items)[i] == request.target;
  }

  // ---------------------------------------------------------------------------------------------
  // What a synchronization does to each object
  // ---------------------------------------------------------------------------------------------

  /** The state of an object after a request for it. */
  function Requested(verb: Verb, fault: Fault, before: Option<Payload>): Option<Payload> {
    if fault.Fails? && !fault.applied then before
    else match verb
      case Put(payload) => Some(payload)
      case Delete => None
  }

  /** Whatever calls fail, an object that nothing is requested for stays, and every other object ends in the state that
      the one request for it leaves it in. */
  lemma SyncChanges(conversions: Conversions, prefix: string, items: seq<RuleItem>, action: Action,
                    resourceHasBeenDeleted: bool, listing: Listing, faults: Faults, before: map<ApiObject, Payload>,
                    o: ApiObject)
    requires ProperItems(prefix, items) && (listing.Known? ==> NoDuplicates(listing.objects))
    ensures var after :=
        ServeAll(before, SyncRequests(conversions, items, action, resourceHasBeenDeleted, listing), faults);
      && (forall verb | IsRequested(conversions, items, action, resourceHasBeenDeleted, listing, o, verb) ::
        Lookup(after, o) == Requested(verb, faults(o), Lookup(before, o)))
      && ((forall verb :: !IsRequested(conversions, items, action, resourceHasBeenDeleted, listing, o, verb)) ==>
        Lookup(after, o) == Lookup(before, o))
  {
    var requests := SyncRequests(conversions, items, action, resourceHasBeenDeleted, listing);
    SyncRequestsAre(conversions, prefix, items, action, resourceHasBeenDeleted, listing);
    forall verb | IsRequested(conversions, items, action, resourceHasBeenDeleted, listing, o, verb)
      ensures Lookup(ServeAll(before, requests, faults), o) == Requested(verb, faults(o), Lookup(before, o))
    {
      var k :| 0 <= k < |requests| && requests[k].target == o && requests[k].verb == verb;
      TargetedObjectsChange(before, requests, faults, k);
    }
    if forall verb :: !IsRequested(conversions, items, action, resourceHasBeenDeleted, listing, o, verb) {
      forall k | 0 <= k < |requests|
        ensures requests[k].target != o
      {
        assert IsRequested(conversions, items, action, resourceHasBeenDeleted, listing, requests[k].target,
                           requests[k].verb);
      }
      UntargetedObjectsStay(before, requests, faults, o);
    }
  }

  /** What the synchronization of a resource makes of the backend. */
  ghost function Synchronized(conversions: Conversions, prefix: string, spec: Option<seq<RuleGroup>>, action: Action,
                              resourceHasBeenDeleted: bool, listing: Listing, faults: Faults,
                              before: map<ApiObject, Payload>): map<ApiObject, Payload>
  {
    ServeAll(before, SyncRequests(conversions, Items(prefix, spec), action, resourceHasBeenDeleted, listing), faults)
  }

  /** A listing, if there is one, holds objects with the given prefix, each once. */
  ghost predicate IsUnder(prefix: string, listing: Listing) {
    listing.Known? ==> NoDuplicates(listing.objects) && forall o | o in listing.objects :: prefix <= o.origin
  }

  /** A synchronization only touches objects under the prefix of its own resource. */
  lemma SynchronizedStaysUnderPrefix(conversions: Conversions, prefix: string, spec: Option<seq<RuleGroup>>,
                                     action: Action, resourceHasBeenDeleted: bool, listing: Listing, faults: Faults,
                                     before: map<ApiObject, Payload>, o: ApiObject)
    requires IsUnder(prefix, listing) && !(prefix <= o.origin)
    ensures var after :=
        Synchronized(conversions, prefix, spec, action, resourceHasBeenDeleted, listing, faults, before);
      Lookup(after, o) == Lookup(before, o)
  {
    var items := Items(prefix, spec);
    ItemsAreProper(prefix, spec);
    SyncChanges(conversions, prefix, items, action, resourceHasBeenDeleted, listing, faults, before, o);
    assert forall verb :: !IsRequested(conversions, items, action, resourceHasBeenDeleted, listing, o, verb);
  }

  /** The existing objects with the given prefix, each once, in any order. */
  ghost predicate IsListing(objects: map<ApiObject, Payload>, prefix: string, listing: seq<ApiObject>) {
    && NoDuplicates(listing)
    && forall o :: o in listing <==> o in objects && prefix <= o.origin
  }

  ghost predicate AllHealthy(faults: Faults) {
    forall o :: faults(o).Healthy?
  }

  /** What the valid rules among the items want an object to be. */
  ghost function SentPayload(conversions: Conversions, items: seq<RuleItem>, o: ApiObject): Option<Payload> {
    if exists i, payload :: 0 <= i < |items| && SendsFor(conversions, UpsertAction, items[i], o, Put(payload)) then
      var i, payload :| 0 <= i < |items| && SendsFor(conversions, UpsertAction, items[i], o, Put(payload));
      Some(payload)
    else
      None
  }

  lemma RequestedOnUpsert(conversions: Conversions, items: seq<RuleItem>, resourceHasBeenDeleted: bool,
                          listing: Listing, o: ApiObject, verb: Verb)
    requires IsRequested(conversions, items, UpsertAction, resourceHasBeenDeleted, listing, o, verb)
    ensures verb.Put? ==> SentPayload(conversions, items, o).Some?
    ensures verb.Delete? ==> listing.Known? && o in listing.objects && o !in KeptObjects(items)
  {
    if i :| 0 <= i < |items| && SendsFor(conversions, UpsertAction, items[i], o, verb) {
      assert verb.Put?;
    }
  }

  function Upsert(conversions: Conversions, items: seq<RuleItem>, listing: Listing, faults: Faults,
                  before: map<ApiObject, Payload>): map<ApiObject, Payload>
  {
    ServeAll(before, SyncRequests(conversions, items, UpsertAction, false, listing), faults)
  }

  /** If the listing and all calls succeed, the objects under the prefix of the resource become those of its valid rules
      plus the previous objects of its other rules, and no other object changes. */
  lemma UpsertConverges(conversions: Conversions, prefix: string, spec: Option<seq<RuleGroup>>, listing: seq<ApiObject>,
                        faults: Faults, before: map<ApiObject, Payload>, o: ApiObject)
    requires IsListing(before, prefix, listing) && AllHealthy(faults)
    ensures var items := Items(prefix, spec);
      Lookup(Upsert(conversions, items, Known(listing), faults, before), o) ==
        if SentPayload(conversions, items, o).Some? then SentPayload(conversions, items, o)
        else if prefix <= o.origin && o !in KeptObjects(items) then None
        else Lookup(before, o)
  {
    var items := Items(prefix, spec);
    ItemsAreProper(prefix, spec);
    SyncChanges(conversions, prefix, items, UpsertAction, false, Known(listing), faults, before, o);
    if SentPayload(conversions, items, o).Some? {
      var i, payload :| 0 <= i < |items| && SendsFor(conversions, UpsertAction, items[i], o, Put(payload)) &&
        SentPayload(conversions, items, o) == Some(payload);
      assert KeptObjects(items)[i] == o;
      assert IsRequested(conversions, items, UpsertAction, false, Known(listing), o, Put(payload));
    } else if o in listing && o !in KeptObjects(items) {
      assert IsRequested(conversions, items, UpsertAction, false, Known(listing), o, Delete);
    } else {
      forall verb
        ensures !IsRequested(conversions, items, UpsertAction, false, Known(listing), o, verb)
      {
        if IsRequested(conversions, items, UpsertAction, false, Known(listing), o, verb) {
          RequestedOnUpsert(conversions, items, false, Known(listing), o, verb);
        }
      }
    }
  }

  /** What an upsert sends is under the prefix of the resource, and listed by it. */
  lemma SentIsListed(conversions: Conversions, prefix: string, spec: Option<seq<RuleGroup>>, o: ApiObject)
    requires SentPayload(conversions, Items(prefix, spec), o).Some?
    ensures prefix <= o.origin && o in KeptObjects(Items(prefix, spec))
  {
    var items := Items(prefix, spec);
    ItemsAreProper(prefix, spec);
    var i, payload :| 0 <= i < |items| && SendsFor(conversions, UpsertAction, items[i], o, Put(payload));
    assert KeptObjects(items)[i] == o;
  }

  ghost predicate AllRulesValid(conversions: Conversions, items: seq<RuleItem>) {
    forall i | 0 <= i < |items| :: Judge(conversions, UpsertAction, items[i]).Send?
  }

  /** If all rules are valid, what is left under the prefix does not depend on what was there before. */
  lemma UpsertForgetsHistory(conversions: Conversions, prefix: string, spec: Option<seq<RuleGroup>>,
                             listing: seq<ApiObject>, faults: Faults, before: map<ApiObject, Payload>,
                             listing': seq<ApiObject>, faults': Faults, before': map<ApiObject, Payload>, o: ApiObject)
    requires IsListing(before, prefix, listing) && AllHealthy(faults)
    requires IsListing(before', prefix, listing') && AllHealthy(faults')
    requires AllRulesValid(conversions, Items(prefix, spec)) && prefix <= o.origin
    ensures var items := Items(prefix, spec);
      Lookup(Upsert(conversions, items, Known(listing), faults, before), o) ==
        Lookup(Upsert(conversions, items, Known(listing'), faults', before'), o)
  {
    UpsertConverges(conversions, prefix, spec, listing, faults, before, o);
    UpsertConverges(conversions, prefix, spec, listing', faults', before', o);
    ValidRulesAreSent(conversions, Items(prefix, spec), o);
  }

  lemma ValidRulesAreSent(conversions: Conversions, items: seq<RuleItem>, o: ApiObject)
    requires AllRulesValid(conversions, items)
    ensures o in KeptObjects(items) ==> SentPayload(conversions, items, o).Some?
  {
    if o in KeptObjects(items) {
      var i :| 0 <= i < |items| && items[i].Target() == o;
      var verb := Judge(conversions, UpsertAction, items[i]).verb;
      assert SendsFor(conversions, UpsertAction, items[i], o, Put(verb.payload));
    }
  }

  /** Repeating a successful upsert sends no DELETE request and changes nothing. */
  lemma UpsertIsIdempotent(conversions: Conversions, prefix: string, spec: Option<seq<RuleGroup>>,
                           listing: seq<ApiObject>, faults: Faults, before: map<ApiObject, Payload>,
                           listing': seq<ApiObject>, faults': Faults)
    requires IsListing(before, prefix, listing) && AllHealthy(faults) && AllHealthy(faults')
    requires IsListing(Upsert(conversions, Items(prefix, spec), Known(listing), faults, before), prefix, listing')
    ensures var items := Items(prefix, spec);
      var after := Upsert(conversions, items, Known(listing), faults, before);
      && Upsert(conversions, items, Known(listing'), faults', after) == after
      && forall request | request in SyncRequests(conversions, items, UpsertAction, false, Known(listing')) ::
           request.verb.Put?
  {
    var items := Items(prefix, spec);
    var after := Upsert(conversions, items, Known(listing), faults, before);
    var again := Upsert(conversions, items, Known(listing'), faults', after);
    forall o
      ensures Lookup(again, o) == Lookup(after, o)
      ensures o in listing' ==> o in KeptObjects(items)
    {
      UpsertConverges(conversions, prefix, spec, listing, faults, before, o);
      UpsertConverges(conversions, prefix, spec, listing', faults', after, o);
      if SentPayload(conversions, items, o).Some? {
        SentIsListed(conversions, prefix, spec, o);
      }
    }
    SameLookups(again, after);
    ItemsAreProper(prefix, spec);
    SyncRequestsAre(conversions, prefix, items, UpsertAction, false, Known(listing'));
    forall request | request in SyncRequests(conversions, items, UpsertAction, false, Known(listing'))
      ensures request.verb.Put?
    {
      RequestedOnUpsert(conversions, items, false, Known(listing'), request.target, request.verb);
    }
  }

  lemma SameLookups<K(!new), V>(a: map<K, V>, b: map<K, V>)
    requires forall key :: Lookup(a, key) == Lookup(b, key)
    ensures a == b
  {
    forall key
      ensures key in a <==> key in b
      ensures key in a ==> a[key] == b[key]
    {
      assert Lookup(a, key) == Lookup(b, key);
    }
  }

  /** If listing the existing objects fails, an upsert removes nothing, whatever else fails. */
  lemma UpsertWithoutListingRemovesNothing(conversions: Conversions, prefix: string, spec: Option<seq<RuleGroup>>,
                                           code: int, faults: Faults, before: map<ApiObject, Payload>, o: ApiObject)
    requires o in before
    ensures o in Upsert(conversions, Items(prefix, spec), FetchFailed(code), faults, before)
  {
    var items := Items(prefix, spec);
    ItemsAreProper(prefix, spec);
    SyncChanges(conversions, prefix, items, UpsertAction, false, FetchFailed(code), faults, before, o);
    if verb :| IsRequested(conversions, items, UpsertAction, false, FetchFailed(code), o, verb) {
      RequestedOnUpsert(conversions, items, false, FetchFailed(code), o, verb);
    }
  }

  /** A resource whose spec cannot be converted lists no rules, so an upsert removes everything it has synchronized
      before, unlike the invalid rules of a resource whose spec can be converted. */
  lemma UnparsableSpecRemovesEverything(conversions: Conversions, prefix: string, listing: seq<ApiObject>,
                                        faults: Faults, before: map<ApiObject, Payload>, o: ApiObject)
    requires IsListing(before, prefix, listing) && AllHealthy(faults)
    ensures Lookup(Upsert(conversions, Items(prefix, None), Known(listing), faults, before), o) ==
      if prefix <= o.origin then None else Lookup(before, o)
  {
    UpsertConverges(conversions, prefix, None, listing, faults, before, o);
    assert SentPayload(conversions, [], o).None?;
  }

  /** A successful upsert removes nothing exactly if the resource still lists every existing object. */
  lemma UpsertRemovesNothingIff(conversions: Conversions, prefix: string, spec: Option<seq<RuleGroup>>,
                                listing: seq<ApiObject>, faults: Faults, before: map<ApiObject, Payload>)
    requires IsListing(before, prefix, listing) && AllHealthy(faults)
    ensures var items := Items(prefix, spec);
      (forall o | o in before :: o in Upsert(conversions, items, Known(listing), faults, before)) <==>
      (forall o | o in listing :: o in KeptObjects(items))
  {
    var items := Items(prefix, spec);
    var after := Upsert(conversions, items, Known(listing), faults, before);
    hide Items, Upsert, SentPayload, KeptObjects;
    forall o | o in before
      ensures o !in after <==> o in listing && o !in KeptObjects(items)
    {
      UpsertConverges(conversions, prefix, spec, listing, faults, before, o);
      if SentPayload(conversions, items, o).Some? {
        SentIsListed(conversions, prefix, spec, o);
      }
    }
  }

  // ---------------------------------------------------------------------------------------------
  // Deletion
  // ---------------------------------------------------------------------------------------------

  /** The objects that rules without a name would have. No request is sent for them, but they count as listed. */
  ghost predicate IsTargetOfNamelessRule(items: seq<RuleItem>, o: ApiObject) {
    exists i :: 0 <= i < |items| && items[i].IsNameless() && items[i].Target() == o
  }

  /** With a listing, a deletion sends exactly one DELETE request for each existing object of the resource, except for
      those of rules without a name. */
  lemma DeletionIsExact(conversions: Conversions, prefix: string, spec: Option<seq<RuleGroup>>,
                        resourceHasBeenDeleted: bool, listing: seq<ApiObject>)
    requires NoDuplicates(listing)
    ensures var items := Items(prefix, spec);
      var requests := SyncRequests(conversions, items, DeleteAction, resourceHasBeenDeleted, Known(listing));
      && DistinctTargets(requests)
      && (forall k | 0 <= k < |requests| :: requests[k].verb.Delete?)
      && forall o :: Targets(requests, o) <==> o in listing && !IsTargetOfNamelessRule(items, o)
  {
    var items := Items(prefix, spec);
    var requests := SyncRequests(conversions, items, DeleteAction, resourceHasBeenDeleted, Known(listing));
    ItemsAreProper(prefix, spec);
    SyncRequestsAre(conversions, prefix, items, DeleteAction, resourceHasBeenDeleted, Known(listing));
    hide Items, SyncRequests, IsTargetOfNamelessRule, ProperItems, IsRequested;
    forall k | 0 <= k < |requests|
      ensures requests[k].verb.Delete?
      ensures requests[k].target in listing && !IsTargetOfNamelessRule(items, requests[k].target)
    {
      NamedTarget(conversions, prefix, items, resourceHasBeenDeleted, listing, requests[k].target, requests[k].verb);
    }
    forall o | o in listing && !IsTargetOfNamelessRule(items, o)
      ensures Targets(requests, o)
    {
      ListedIsRequested(conversions, items, resourceHasBeenDeleted, listing, o);
    }
  }

  lemma ListedIsRequested(conversions: Conversions, items: seq<RuleItem>, resourceHasBeenDeleted: bool,
                          listing: seq<ApiObject>, o: ApiObject)
    requires o in listing && !IsTargetOfNamelessRule(items, o)
    ensures IsRequested(conversions, items, DeleteAction, resourceHasBeenDeleted, Known(listing), o, Delete)
  {
    if o in KeptObjects(items) {
      var i :| 0 <= i < |items| && items[i].Target() == o;
      assert SendsFor(conversions, DeleteAction, items[i], o, Delete);
    }
  }

  lemma NamedTarget(conversions: Conversions, prefix: string, items: seq<RuleItem>, resourceHasBeenDeleted: bool,
                    listing: seq<ApiObject>, o: ApiObject, verb: Verb)
    requires ProperItems(prefix, items)
    requires IsRequested(conversions, items, DeleteAction, resourceHasBeenDeleted, Known(listing), o, verb)
    ensures verb.Delete? && o in listing && !IsTargetOfNamelessRule(items, o)
  {
    assert forall j | 0 <= j < |items| :: items[j].Target() in KeptObjects(items) by {
      assert forall j | 0 <= j < |items| :: KeptObjects(items)[j] == items[j].Target();
    }
    if i :| 0 <= i < |items| && SendsFor(conversions, DeleteAction, items[i], o, verb) {
      assert forall j | 0 <= j < |items| && items[j].Target() == o :: j == i;
    }
  }

  /** After a successful deletion nothing is left under the prefix except objects of rules without a name, and nothing
      outside the prefix has changed. */
  lemma DeletionLeaves(conversions: Conversions, prefix: string, spec: Option<seq<RuleGroup>>,
                       resourceHasBeenDeleted: bool, listing: seq<ApiObject>, faults: Faults,
                       before: map<ApiObject, Payload>, o: ApiObject)
    requires IsListing(before, prefix, listing) && AllHealthy(faults)
    ensures var items := Items(prefix, spec);
      var requests := SyncRequests(conversions, items, DeleteAction, resourceHasBeenDeleted, Known(listing));
      Lookup(ServeAll(before, requests, faults), o) ==
        if prefix <= o.origin && !IsTargetOfNamelessRule(items, o) then None else Lookup(before, o)
  {
    var items := Items(prefix, spec);
    var requests := SyncRequests(conversions, items, DeleteAction, resourceHasBeenDeleted, Known(listing));
    DeletionIsExact(conversions, prefix, spec, resourceHasBeenDeleted, listing);
    if Targets(requests, o) {
      var k :| 0 <= k < |requests| && requests[k].target == o;
      TargetedObjectsChange(before, requests, faults, k);
    } else {
      assert forall k | 0 <= k < |requests| :: requests[k].target != o;
      UntargetedObjectsStay(before, requests, faults, o);
    }
  }

  /** A deletion is complete exactly if no object exists under the name of a rule without a name. */
  lemma DeletionIsCompleteIff(conversions: Conversions, prefix: string, spec: Option<seq<RuleGroup>>,
                              resourceHasBeenDeleted: bool, listing: seq<ApiObject>, faults: Faults,
                              before: map<ApiObject, Payload>)
    requires IsListing(before, prefix, listing) && AllHealthy(faults)
    ensures var items := Items(prefix, spec);
      var requests := SyncRequests(conversions, items, DeleteAction, resourceHasBeenDeleted, Known(listing));
      (forall o | o in ServeAll(before, requests, faults) :: !(prefix <= o.origin)) <==>
      (forall i | 0 <= i < |items| && items[i].IsNameless() :: items[i].Target() !in before)
  {
    var items := Items(prefix, spec);
    var after := ServeAll(before,
      SyncRequests(conversions, items, DeleteAction, resourceHasBeenDeleted, Known(listing)), faults);
    ItemsAreProper(prefix, spec);
    forall o
      ensures Lookup(after, o) ==
        if prefix <= o.origin && !IsTargetOfNamelessRule(items, o) then None else Lookup(before, o)
    {
      DeletionLeaves(conversions, prefix, spec, resourceHasBeenDeleted, listing, faults, before, o);
    }
    if forall o | o in after :: !(prefix <= o.origin) {
      forall i | 0 <= i < |items| && items[i].IsNameless()
        ensures items[i].Target() !in before
      {
        var o := items[i].Target();
        assert IsTargetOfNamelessRule(items, o);
        assert Lookup(after, o) == Lookup(before, o);
      }
    }
    if forall i | 0 <= i < |items| && items[i].IsNameless() :: items[i].Target() !in before {
      forall o | o in after
        ensures !(prefix <= o.origin)
      {
        assert Lookup(after, o).Some?;
      }
    }
  }

  /** The check rule of a rule that was called "unnamed rule" survives the deletion of the resource if that rule has
      lost its name in the meantime. */
  lemma NamelessRuleSurvivesDeletion(conversions: Conversions, prefix: string, groupName: string, faults: Faults)
    requires AllHealthy(faults)
    ensures var spec := Some([RuleGroup(groupName, [Rule("", "", "")])]);
      var o := ApiObject(CheckRule, RuleOrigin(prefix, groupName, UNNAMED_RULE));
      var before := map[o := "payload"];
      && IsListing(before, prefix, [o])
      && o in ServeAll(before, SyncRequests(conversions, Items(prefix, spec), DeleteAction, true, Known([o])), faults)
  {
    var spec := Some([RuleGroup(groupName, [Rule("", "", "")])]);
    var o := ApiObject(CheckRule, RuleOrigin(prefix, groupName, UNNAMED_RULE));
    var before: map<ApiObject, Payload> := map[o := "payload"];
    NamelessItem(prefix, groupName);
    hide Items, SyncRequests, ServeAll, RuleOrigin, IsTargetOfNamelessRule;
    DeletionLeaves(conversions, prefix, spec, true, [o], faults, before, o);
    assert Lookup(before, o).Some?;
  }

  lemma NamelessItem(prefix: string, groupName: string)
    ensures var o := ApiObject(CheckRule, RuleOrigin(prefix, groupName, UNNAMED_RULE));
      && IsTargetOfNamelessRule(Items(prefix, Some([RuleGroup(groupName, [Rule("", "", "")])])), o)
      && prefix <= o.origin
  {
    var group := RuleGroup(groupName, [Rule("", "", "")]);
    SingleItem(prefix, group);
    var item := Items(prefix, Some([group]))[0];
    assert item.IsNameless() && item.Target() == ApiObject(CheckRule, RuleOrigin(prefix, groupName, UNNAMED_RULE));
  }

  lemma SingleItem(prefix: string, group: RuleGroup)
    requires |group.rules| == 1
    ensures Items(prefix, Some([group])) ==
      [RuleItem(group.name, 0, group.rules[0], RuleOrigin(prefix, group.name, group.rules[0].Name()))]
  {
    var rows, itemRows := DerivedOrigins(prefix, [group]), ItemRows([group], SettledOrigins(prefix, [group]));
    assert Flatten(rows) == rows[0] && Flatten(itemRows) == itemRows[0];
    FirstKeepsDerivedOrigin(Flatten(rows), 0);
    ItemOrigin(prefix, [group], 0);
  }
}
