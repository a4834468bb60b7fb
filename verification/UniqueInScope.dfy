/** The rule that of several resources of one type in a scope the most recently created one is in force, and the
    others are degraded. */
module UniqueInScope {
  import opened Common

  type Uid = string

  datatype Resource = Resource(created: int, beingDeleted: bool, degraded: bool)

  type Scope = map<Uid, Resource>

  datatype Verdict = Continue | Stop | StopWithError

  // ---------------------------------------------------------------------------------------------
  // Specification of one check
  // ---------------------------------------------------------------------------------------------

  function Unmarked(scope: Scope): set<Uid> {
    set uid | uid in scope && !scope[uid].beingDeleted
  }

  /** No resource that is not being deleted is more recent. There can be several of them. */
  ghost predicate IsNewest(scope: Scope, uid: Uid) {
    uid in Unmarked(scope) && forall other | other in Unmarked(scope) :: scope[other].created <= scope[uid].created
  }

  function WithDegraded(scope: Scope, uids: set<Uid>): Scope {
    map uid | uid in scope :: if uid in uids then scope[uid].(degraded := true) else scope[uid]
  }

  /** A check of a resource, the one that the sorting puts last, and the resources whose status cannot be updated. */
  datatype Check = Check(uid: Uid, newest: Uid, failing: set<Uid>)

  ghost predicate IsPossible(scope: Scope, check: Check) {
    check.uid in scope && IsNewest(scope, check.newest)
  }

  ghost function Judge(scope: Scope, check: Check): Verdict
    requires check.uid in scope
  {
    if |Unmarked(scope)| <= 1 || check.uid == check.newest then Continue
    else if !scope[check.uid].degraded && check.uid in check.failing then StopWithError
    else Stop
  }

  ghost function Checked(scope: Scope, check: Check): Scope
    requires check.uid in scope
  {
    if |Unmarked(scope)| <= 1 || Judge(scope, check) == StopWithError then scope
    else WithDegraded(scope, Unmarked(scope) + {check.uid} - {check.newest} - check.failing)
  }

  // ---------------------------------------------------------------------------------------------
  // Runs of checks
  // ---------------------------------------------------------------------------------------------

  ghost predicate ArePossible(scope: Scope, checks: seq<Check>) {
    forall i | 0 <= i < |checks| :: IsPossible(scope, checks[i])
  }

  ghost function AfterChecks(scope: Scope, checks: seq<Check>): Scope
    requires forall i | 0 <= i < |checks| :: checks[i].uid in scope
  {
    if checks == [] then scope else AfterChecks(Checked(scope, checks[0]), checks[1..])
  }

  /** Two states of a scope that differ at most in what is degraded. */
  ghost predicate SameResources(before: Scope, after: Scope) {
    && after.Keys == before.Keys
    && forall uid | uid in before ::
         && after[uid].created == before[uid].created && after[uid].beingDeleted == before[uid].beingDeleted
         && (before[uid].degraded ==> after[uid].degraded)
  }

  lemma SameResourcesSameNewest(before: Scope, after: Scope)
    requires SameResources(before, after)
    ensures Unmarked(after) == Unmarked(before)
    ensures forall uid :: IsNewest(after, uid) <==> IsNewest(before, uid)
  {
    assert forall uid :: uid in Unmarked(after) <==> uid in Unmarked(before);
  }

  lemma CheckedKeepsResources(scope: Scope, check: Check)
    requires check.uid in scope
    ensures SameResources(scope, Checked(scope, check))
  {
  }

  lemma {:induction false} ChecksStayPossible(scope: Scope, checks: seq<Check>)
    requires ArePossible(scope, checks)
    ensures checks != [] ==> ArePossible(Checked(scope, checks[0]), checks[1..])
    ensures SameResources(scope, AfterChecks(scope, checks))
  {
    if checks != [] {
      CheckedKeepsResources(scope, checks[0]);
      SameResourcesSameNewest(scope, Checked(scope, checks[0]));
      ChecksStayPossible(Checked(scope, checks[0]), checks[1..]);
    }
  }

  // ---------------------------------------------------------------------------------------------
  // Newest wins
  // ---------------------------------------------------------------------------------------------

  /** Exactly one resource has the latest timestamp. */
  ghost predicate HasUniqueNewest(scope: Scope) {
    forall u, v | IsNewest(scope, u) && IsNewest(scope, v) :: u == v
  }

  lemma DistinctTimestampsSuffice(scope: Scope)
    requires forall u, v | u in scope && v in scope && scope[u].created == scope[v].created :: u == v
    ensures HasUniqueNewest(scope)
  {
    forall u, v | IsNewest(scope, u) && IsNewest(scope, v)
      ensures u == v
    {
      assert scope[u].created <= scope[v].created <= scope[u].created;
    }
  }

  /** No check of any resource, whatever updates fail, changes the newest one. */
  lemma {:induction false} NewestIsNeverDegraded(scope: Scope, newest: Uid, checks: seq<Check>)
    requires HasUniqueNewest(scope) && IsNewest(scope, newest) && ArePossible(scope, checks)
    ensures newest in AfterChecks(scope, checks) && AfterChecks(scope, checks)[newest] == scope[newest]
  {
    if checks != [] {
      ChecksStayPossible(scope, checks);
      CheckedKeepsResources(scope, checks[0]);
      SameResourcesSameNewest(scope, Checked(scope, checks[0]));
      NewestIsNeverDegraded(Checked(scope, checks[0]), newest, checks[1..]);
    }
  }

  ghost predicate IsSettled(scope: Scope, newest: Uid) {
    forall uid | uid in Unmarked(scope) && uid != newest :: scope[uid].degraded
  }

  /** A check without failing updates that sees several resources degrades all but the newest, and continues only for
      the newest. */
  lemma FaultlessCheckSettles(scope: Scope, check: Check)
    requires IsPossible(scope, check) && |Unmarked(scope)| > 1 && check.failing == {}
    ensures IsSettled(Checked(scope, check), check.newest)
    ensures Judge(scope, check) == if check.uid == check.newest then Continue else Stop
  {
    CheckedKeepsResources(scope, check);
    SameResourcesSameNewest(scope, Checked(scope, check));
  }

  /** Checks of resources that are not being deleted bring the scope into one and the same state, in whatever order they
      come and whatever updates fail, as soon as there was one check without failing updates. */
  lemma {:induction false} ChecksConverge(scope: Scope, newest: Uid, checks: seq<Check>)
    requires HasUniqueNewest(scope) && IsNewest(scope, newest) && |Unmarked(scope)| > 1 && ArePossible(scope, checks)
    requires forall i | 0 <= i < |checks| :: checks[i].uid in Unmarked(scope)
    requires IsSettled(scope, newest) || exists check :: check in checks && check.failing == {}
    ensures AfterChecks(scope, checks) == WithDegraded(scope, Unmarked(scope) - {newest})
  {
    if checks == [] {
      assert AfterChecks(scope, checks) == scope;
    } else {
      var first, next := checks[0], Checked(scope, checks[0]);
      ChecksStayPossible(scope, checks);
      CheckedKeepsResources(scope, first);
      SameResourcesSameNewest(scope, next);
      if first.failing == {} {
        FaultlessCheckSettles(scope, first);
      } else if !IsSettled(scope, newest) {
        var check :| check in checks && check.failing == {};
        assert check in checks[1..];
      }
      ChecksConverge(next, newest, checks[1..]);
      assert WithDegraded(next, Unmarked(next) - {newest}) == WithDegraded(scope, Unmarked(scope) - {newest});
    }
  }

  // ---------------------------------------------------------------------------------------------
  // Resources that are being deleted
  // ---------------------------------------------------------------------------------------------

  ghost predicate IsAlive(scope: Scope, uid: Uid) {
    uid in scope && !scope[uid].beingDeleted
  }

  /** Which resources a check degrades: if there are several that are not being deleted, all of those except the
      newest, and the checked one even if it is being deleted, as far as their updates succeed; but none if the
      check gives up. */
  lemma DegradedIff(scope: Scope, check: Check, other: Uid)
    requires IsPossible(scope, check) && other in scope
    ensures var several := exists u, v :: IsAlive(scope, u) && IsAlive(scope, v) && u != v;
      var givesUp := check.uid != check.newest && !scope[check.uid].degraded && check.uid in check.failing;
      && Checked(scope, check)[other].degraded == (scope[other].degraded ||
           (several && !givesUp && other != check.newest && other !in check.failing &&
            (!scope[other].beingDeleted || other == check.uid)))
      && Judge(scope, check) == (if !several || check.uid == check.newest then Continue
                                 else if givesUp then StopWithError else Stop)
  {
    SeveralIff(scope);
  }

  lemma SeveralIff(scope: Scope)
    ensures |Unmarked(scope)| > 1 <==> exists u, v :: IsAlive(scope, u) && IsAlive(scope, v) && u != v
  {
    if u, v :| IsAlive(scope, u) && IsAlive(scope, v) && u != v {
      SubsetSize({u, v}, Unmarked(scope));
    }
    if |Unmarked(scope)| > 1 {
      var u :| u in Unmarked(scope);
      assert |Unmarked(scope) - {u}| > 0;
      var v :| v in Unmarked(scope) - {u};
      assert IsAlive(scope, u) && IsAlive(scope, v) && u != v;
    }
  }

  /** The newest resource is one that is not being deleted, and no other such one has been created later. */
  lemma NewestIff(scope: Scope, uid: Uid)
    ensures IsNewest(scope, uid) <==>
      IsAlive(scope, uid) && forall other | IsAlive(scope, other) :: scope[other].created <= scope[uid].created
  {
    assert forall other :: IsAlive(scope, other) <==> other in Unmarked(scope);
  }

  // ---------------------------------------------------------------------------------------------
  // Equal timestamps
  // ---------------------------------------------------------------------------------------------

  ghost predicate SomeIsInForce(scope: Scope) {
    exists uid :: uid in Unmarked(scope) && !scope[uid].degraded
  }

  ghost predicate SomeStaysInForce(scope: Scope) {
    forall checks | ArePossible(scope, checks) :: SomeIsInForce(AfterChecks(scope, checks))
  }

  /** Creation timestamps have a resolution of seconds. When two resources share the latest one, checking each of them
      can degrade both, because the sorting is not stable. */
  lemma TiedResourcesDegradeEachOther(scope: Scope, u: Uid, v: Uid)
    requires IsNewest(scope, u) && IsNewest(scope, v) && u != v
    ensures var checks := [Check(u, v, {}), Check(v, u, {})];
      ArePossible(scope, checks) && !SomeIsInForce(AfterChecks(scope, checks))
  {
    var first, second := Check(u, v, {}), Check(v, u, {});
    var checks := [first, second];
    assert checks[1..] == [second] && checks[1..][1..] == [];
    assert {u, v} <= Unmarked(scope) && |{u, v}| == 2;
    SubsetSize({u, v}, Unmarked(scope));
    var middle := Checked(scope, first);
    var last := Checked(middle, second);
    CheckedKeepsResources(scope, first);
    SameResourcesSameNewest(scope, middle);
    CheckedKeepsResources(middle, second);
    SameResourcesSameNewest(middle, last);
    FaultlessCheckSettles(scope, first);
    FaultlessCheckSettles(middle, second);
    assert AfterChecks(scope, checks) == AfterChecks(middle, [second]) == AfterChecks(last, []) == last;
  }

  /** Starting from a scope without degraded resources, one resource stays in force through every run of checks
      exactly if the latest timestamp is not shared. */
  lemma SomeStaysInForceIff(scope: Scope)
    requires Unmarked(scope) != {} && forall uid | uid in scope :: !scope[uid].degraded
    ensures SomeStaysInForce(scope) <==> HasUniqueNewest(scope)
  {
    if HasUniqueNewest(scope) {
      var newest := NewestOf(scope);
      forall checks | ArePossible(scope, checks)
        ensures SomeIsInForce(AfterChecks(scope, checks))
      {
        NewestIsNeverDegraded(scope, newest, checks);
        assert newest in Unmarked(AfterChecks(scope, checks));
      }
    } else {
      var u, v :| IsNewest(scope, u) && IsNewest(scope, v) && u != v;
      TiedResourcesDegradeEachOther(scope, u, v);
    }
  }

  lemma NewestOf(scope: Scope) returns (newest: Uid)
    requires Unmarked(scope) != {}
    ensures IsNewest(scope, newest)
  {
    newest := NewestAmong(scope, Unmarked(scope));
  }

  lemma {:induction false} NewestAmong(scope: Scope, uids: set<Uid>) returns (newest: Uid)
    requires uids != {} && uids <= scope.Keys
    ensures newest in uids && forall uid | uid in uids :: scope[uid].created <= scope[newest].created
  {
    newest :| newest in uids;
    if uids != {newest} {
      var other := NewestAmong(scope, uids - {newest});
      if scope[newest].created < scope[other].created {
        newest := other;
      }
    }
  }

  // ---------------------------------------------------------------------------------------------
  // The check
  // ---------------------------------------------------------------------------------------------

  class Cluster {
    var scope: Scope

    /** The status update can fail, which leaves the resource as it is. */
    method MarkAsDegraded(uid: Uid, failing: set<Uid>) returns (ok: bool)
      requires uid in scope
      modifies this
      ensures ok <==> uid !in failing
      ensures scope == if ok then old(scope)[uid := old(scope)[uid].(degraded := true)] else old(scope)
    {
      ok := uid !in failing;
      if ok {
        scope := scope[uid := scope[uid].(degraded := true)];
      }
    }

    /** Degrades everything that is listed, except for some, and goes on when an update fails. */
    method MarkOthers(listed: seq<Uid>, except: set<Uid>, failing: set<Uid>)
      requires forall uid | uid in listed :: uid in scope
      modifies this
      ensures scope == WithDegraded(old(scope), (set uid | uid in listed) - except - failing)
    {
      for i := 0 to |listed|
        invariant scope == WithDegraded(old(scope), (set uid | uid in listed[..i]) - except - failing)
      {
        assert listed[..i + 1] == listed[..i] + [listed[i]];
        if listed[i] !in except {
          var _ := MarkAsDegraded(listed[i], failing);
        }
      }
      assert listed[..|listed|] == listed;
    }

    /** The resources that are not being deleted, in the order of the listing. */
    method WithoutMarked(listing: seq<Uid>) returns (unmarked: seq<Uid>)
      requires NoDuplicates(listing) && forall uid :: uid in listing <==> uid in scope
      ensures forall uid :: uid in unmarked <==> uid in Unmarked(scope)
      ensures |unmarked| == |Unmarked(scope)|
    {
      unmarked := [];
      ghost var seen: set<Uid> := {};
      for i := 0 to |listing|
        invariant forall uid :: uid in unmarked <==> uid in seen
        invariant forall uid :: uid in seen <==> uid in listing[..i] && !scope[uid].beingDeleted
        invariant |unmarked| == |seen|
      {
        if !scope[listing[i]].beingDeleted {
          assert listing[i] !in listing[..i];
          unmarked := unmarked + [listing[i]];
          seen := seen + {listing[i]};
        }
      }
      assert seen == Unmarked(scope);
    }

    /** The listing fails, or holds every resource once, in any order. */
    method VerifyThatResourceIsUniqueInScope(uid: Uid, listing: Option<seq<Uid>>, failing: set<Uid>)
      returns (verdict: Verdict, ghost newest: Uid)
      requires uid in scope
      requires listing.Some? ==>
        NoDuplicates(listing.value) && forall other :: other in listing.value <==> other in scope
      modifies this
      ensures listing.None? ==> verdict == StopWithError && scope == old(scope)
      ensures listing.Some? && |Unmarked(old(scope))| > 1 ==> IsPossible(old(scope), Check(uid, newest, failing))
      ensures listing.Some? ==> verdict == Judge(old(scope), Check(uid, newest, failing))
      ensures listing.Some? ==> scope == Checked(old(scope), Check(uid, newest, failing))
    {
      newest := uid;
      hide WithDegraded, IsNewest;
      if listing.None? {
        return StopWithError, newest;
      }
      if |listing.value| <= 1 {
        SingletonListing(listing.value, scope);
        return Continue, newest;
      }
      var unmarked := WithoutMarked(listing.value);
      if |unmarked| <= 1 {
        return Continue, newest;
      }
      var mostRecent := LastAfterSorting(unmarked);
      newest := mostRecent;
      assert (set other | other in unmarked) == Unmarked(scope);
      if mostRecent == uid {
        assert Unmarked(scope) - {uid} - failing == Unmarked(scope) + {uid} - {mostRecent} - failing;
        MarkOthers(unmarked, {uid}, failing);
        return Continue, newest;
      }
      if !scope[uid].degraded {
        var ok := MarkAsDegraded(uid, failing);
        if !ok {
          return StopWithError, newest;
        }
      }
      assert scope == old(scope)[uid := old(scope)[uid].(degraded := true)];
      MarkOthers(unmarked, {mostRecent, uid}, failing);
      MarkedInTwoSteps(old(scope), Unmarked(old(scope)), uid, mostRecent, failing);
      return Stop, newest;
    }

    /** Some resource that no other one is more recent than. Which one is up to the sorting. */
    method LastAfterSorting(unmarked: seq<Uid>) returns (mostRecent: Uid)
      requires unmarked != [] && forall uid :: uid in unmarked <==> uid in Unmarked(scope)
      ensures IsNewest(scope, mostRecent)
    {
      ghost var existing := NewestOf(scope) by {
        assert unmarked[0] in Unmarked(scope);
      }
      mostRecent :| mostRecent in unmarked &&
        forall uid | uid in unmarked :: scope[uid].created <= scope[mostRecent].created;
    }
  }

  /** Degrading the checked resource first and then the others is degrading all of them. */
  lemma MarkedInTwoSteps(scope: Scope, unmarked: set<Uid>, uid: Uid, newest: Uid, failing: set<Uid>)
    requires uid in scope && uid != newest && (!scope[uid].degraded ==> uid !in failing)
    ensures WithDegraded(scope[uid := scope[uid].(degraded := true)], unmarked - {newest, uid} - failing) ==
      WithDegraded(scope, unmarked + {uid} - {newest} - failing)
  {
  }

  lemma SingletonListing(listing: seq<Uid>, scope: Scope)
    requires |listing| <= 1 && forall uid :: uid in listing <==> uid in scope
    ensures |Unmarked(scope)| <= 1
  {
    if listing != [] {
      SubsetSize(Unmarked(scope), {listing[0]});
    } else {
      SubsetSize(Unmarked(scope), {});
    }
  }
}
