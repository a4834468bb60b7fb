/** Waiting until no allowlist has been seen for a quiet period. */
module QuietPeriod {
  import opened Common

  datatype Allowlist = Allowlist(name: string, beingDeleted: bool)

  /** KindIsGone stands for a listing that fails because the resource type does not exist anymore. */
  datatype Listing = Failed | KindIsGone | Listed(items: seq<Allowlist>)

  /** What one poll sees. The clock is read before and after, if at all. */
  datatype Poll = Poll(listing: Listing, now: int, later: int)

  datatype Outcome = Quiet | Gone | TimedOut

  datatype Report = NoneLeft | Left(names: seq<string>) | UnknownNumberLeft

  // ---------------------------------------------------------------------------------------------
  // Specification: when the loop ends and what it reports
  // ---------------------------------------------------------------------------------------------

  ghost predicate IsMonotone(polls: seq<Poll>) {
    && (forall i | 0 <= i < |polls| :: polls[i].now <= polls[i].later)
    && (forall i, j | 0 <= i < j < |polls| :: polls[i].later <= polls[j].now)
  }

  predicate IsEmptyListing(poll: Poll) {
    poll.listing == Listed([])
  }

  predicate IsNonEmptyListing(poll: Poll) {
    poll.listing.Listed? && poll.listing.items != []
  }

  /** The poll sees an empty list, and so did a poll that lies the quiet period back, and none in between saw
      anything. */
  ghost predicate IsQuiet(polls: seq<Poll>, k: int, quietPeriod: int)
    requires 0 <= k < |polls|
  {
    && IsEmptyListing(polls[k])
    && exists j | 0 <= j <= k ::
         && IsEmptyListing(polls[j])
         && polls[k].later - polls[j].now >= quietPeriod
         && NothingSeen(polls, j, k)
  }

  ghost predicate NothingSeen(polls: seq<Poll>, j: int, k: int)
    requires 0 <= j <= k < |polls|
  {
    forall i | j <= i <= k :: !IsNonEmptyListing(polls[i])
  }

  ghost predicate EndsAt(polls: seq<Poll>, k: int, quietPeriod: int)
    requires 0 <= k < |polls|
  {
    polls[k].listing.KindIsGone? || IsQuiet(polls, k, quietPeriod)
  }

  /** The names in the last successful listing, if there was one. */
  function LastSeen(polls: seq<Poll>): Option<seq<string>> {
    if polls == [] then None
    else
      var last := polls[|polls| - 1];
      if last.listing.Listed? then Some(Names(last.listing.items)) else LastSeen(polls[..|polls| - 1])
  }

  function Names(items: seq<Allowlist>): (names: seq<string>)
    ensures |names| == |items| && forall i | 0 <= i < |items| :: names[i] == items[i].name
  {
    seq(|items|, i requires 0 <= i < |items| => items[i].name)
  }

  function ReportOf(outcome: Outcome, polls: seq<Poll>): Report {
    if !outcome.TimedOut? then NoneLeft
    else
      match LastSeen(polls)
      case None => UnknownNumberLeft
      case Some(names) => if names == [] then NoneLeft else Left(names)
  }

  function NotBeingDeleted(items: seq<Allowlist>): seq<string> {
    if items == [] then []
    else
      var last := items[|items| - 1];
      NotBeingDeleted(items[..|items| - 1]) + if last.beingDeleted then [] else [last.name]
  }

  function DeletionRequests(polls: seq<Poll>): seq<string> {
    if polls == [] then []
    else
      var last := polls[|polls| - 1];
      DeletionRequests(polls[..|polls| - 1]) + if last.listing.Listed? then NotBeingDeleted(last.listing.items) else []
  }

  // ---------------------------------------------------------------------------------------------
  // What the specification means
  // ---------------------------------------------------------------------------------------------

  /** When the loop ends quietly, no successful listing within the quiet period saw an allowlist. */
  lemma QuietMeansNothingSeen(polls: seq<Poll>, k: int, i: int, quietPeriod: int)
    requires IsMonotone(polls) && 0 <= i <= k < |polls| && IsQuiet(polls, k, quietPeriod)
    requires polls[k].later - polls[i].now < quietPeriod
    ensures !IsNonEmptyListing(polls[i])
  {
    var j :| 0 <= j <= k && polls[k].later - polls[j].now >= quietPeriod && NothingSeen(polls, j, k);
    if i < j {
      assert polls[i].now <= polls[i].later <= polls[j].now;
    }
  }

  /** Polls that keep seeing an empty list over the quiet period end the loop, and failed listings do not reset it. */
  lemma StayingEmptyEndsTheLoop(polls: seq<Poll>, j: int, quietPeriod: int)
    requires 0 <= j < |polls| && IsEmptyListing(polls[j]) && IsEmptyListing(polls[|polls| - 1])
    requires forall i | j <= i < |polls| :: !IsNonEmptyListing(polls[i])
    requires polls[|polls| - 1].later - polls[j].now >= quietPeriod
    ensures EndsAt(polls, |polls| - 1, quietPeriod)
  {
    assert NothingSeen(polls, j, |polls| - 1);
  }

  lemma {:induction false} NotBeingDeletedAre(items: seq<Allowlist>, name: string)
    ensures name in NotBeingDeleted(items) <==> exists item :: item in items && !item.beingDeleted && item.name == name
  {
    if items != [] {
      var init, last := items[..|items| - 1], items[|items| - 1];
      assert items == init + [last];
      NotBeingDeletedAre(init, name);
    }
  }

  /** Deletion is requested of exactly the allowlists that some poll has seen and that were not being deleted then. In
      particular, what is recreated is deleted again. */
  lemma {:induction false} DeletionRequestsAre(polls: seq<Poll>, name: string)
    ensures name in DeletionRequests(polls) <==>
      exists i, item :: 0 <= i < |polls| && polls[i].listing.Listed? && item in polls[i].listing.items
                        && !item.beingDeleted && item.name == name
  {
    if polls != [] {
      var init, last := polls[..|polls| - 1], polls[|polls| - 1];
      DeletionRequestsAre(init, name);
      if last.listing.Listed? {
        NotBeingDeletedAre(last.listing.items, name);
      }
      if name in DeletionRequests(init) {
        var i, item :| 0 <= i < |init| && init[i].listing.Listed? && item in init[i].listing.items
          && !item.beingDeleted && item.name == name;
        assert polls[i] == init[i];
      }
      if i, item :| 0 <= i < |polls| && polls[i].listing.Listed? && item in polls[i].listing.items
                    && !item.beingDeleted && item.name == name {
        assert i < |init| ==> init[i] == polls[i];
      }
    }
  }

  /** After a timeout, nothing is reported to be left exactly if there was a successful listing and the last one was
      empty. */
  lemma {:induction false} NoneLeftAfterTimeout(polls: seq<Poll>)
    ensures ReportOf(TimedOut, polls) == NoneLeft <==>
      exists k :: 0 <= k < |polls| && IsEmptyListing(polls[k]) && NothingSeen(polls, k, |polls| - 1)
  {
    if polls != [] {
      var init, n := polls[..|polls| - 1], |polls| - 1;
      NoneLeftAfterTimeout(init);
      if polls[n].listing.Listed? {
        if IsEmptyListing(polls[n]) {
          assert NothingSeen(polls, n, n);
        }
      } else {
        assert LastSeen(polls) == LastSeen(init);
        if k :| 0 <= k < |init| && IsEmptyListing(init[k]) && NothingSeen(init, k, |init| - 1) {
          assert IsEmptyListing(polls[k]) && NothingSeen(polls, k, n);
        }
        if k :| 0 <= k < |polls| && IsEmptyListing(polls[k]) && NothingSeen(polls, k, n) {
          assert IsEmptyListing(init[k]) && NothingSeen(init, k, |init| - 1);
        }
      }
    }
  }

  /** After a timeout, what is reported to be left is what the last successful listing held, in its order; without a
      successful listing, the number is unknown. */
  lemma {:induction false} LeftAfterTimeout(polls: seq<Poll>, k: nat)
    requires k <= |polls| && forall i | k <= i < |polls| :: !polls[i].listing.Listed?
    requires k > 0 ==> polls[k - 1].listing.Listed?
    ensures k == 0 ==> ReportOf(TimedOut, polls) == UnknownNumberLeft
    ensures k > 0 && polls[k - 1].listing.items != [] ==>
      && ReportOf(TimedOut, polls).Left? && |ReportOf(TimedOut, polls).names| == |polls[k - 1].listing.items|
      && forall i | 0 <= i < |polls[k - 1].listing.items| ::
           ReportOf(TimedOut, polls).names[i] == polls[k - 1].listing.items[i].name
  {
    if k < |polls| {
      LeftAfterTimeout(polls[..|polls| - 1], k);
    }
  }

  /** Deletions are requested in the order of the listing. */
  lemma {:induction false} DeletionsKeepOrder(items: seq<Allowlist>, i: nat)
    requires i < |items|
    ensures NotBeingDeleted(items[..i]) <= NotBeingDeleted(items[..i + 1]) <= NotBeingDeleted(items)
    ensures |NotBeingDeleted(items[..i + 1])| == |NotBeingDeleted(items[..i])| + if items[i].beingDeleted then 0 else 1
    ensures !items[i].beingDeleted ==> NotBeingDeleted(items)[|NotBeingDeleted(items[..i])|] == items[i].name
  {
    assert items[..i + 1][..i] == items[..i];
    if i + 1 < |items| {
      var init := items[..|items| - 1];
      assert init[..i] == items[..i] && init[..i + 1] == items[..i + 1];
      DeletionsKeepOrder(init, i);
    } else {
      assert items[..i + 1] == items;
    }
  }

  // ---------------------------------------------------------------------------------------------
  // The loop
  // ---------------------------------------------------------------------------------------------

  /** Nothing was seen since the given time, which is that of the first empty listing after the last non-empty one. */
  ghost predicate TracksQuiet(polls: seq<Poll>, n: int, since: Option<int>)
    requires 0 <= n <= |polls|
  {
    match since
    case None =>
      forall j | 0 <= j < n && IsEmptyListing(polls[j]) :: !NothingSeen(polls, j, n - 1)
    case Some(start) =>
      exists j :: IsStart(polls, n, j, start)
  }

  ghost predicate IsStart(polls: seq<Poll>, n: int, j: int, start: int)
    requires 0 <= n <= |polls|
  {
    && 0 <= j < n && IsEmptyListing(polls[j]) && polls[j].now == start && NothingSeen(polls, j, n - 1)
    && forall i | 0 <= i < j && IsEmptyListing(polls[i]) :: !NothingSeen(polls, i, j)
  }

  /** What the loop keeps after each poll. */
  function NextSince(since: Option<int>, poll: Poll): Option<int> {
    if IsEmptyListing(poll) then (if since.None? then Some(poll.now) else since)
    else if IsNonEmptyListing(poll) then None
    else since
  }

  lemma EarlierEmptyListing(polls: seq<Poll>, i: int, j: int, n: int)
    requires 0 <= i <= j < n < |polls| && IsEmptyListing(polls[i])
    ensures NothingSeen(polls, i, n) ==> NothingSeen(polls, i, j)
  {
  }

  lemma NextSinceTracksQuiet(polls: seq<Poll>, n: int, since: Option<int>)
    requires 0 <= n < |polls| && TracksQuiet(polls, n, since)
    ensures TracksQuiet(polls, n + 1, NextSince(since, polls[n]))
  {
    if since.Some? {
      var j :| IsStart(polls, n, j, since.value);
      if !IsNonEmptyListing(polls[n]) {
        assert IsStart(polls, n + 1, j, since.value);
      }
    } else {
      forall j | 0 <= j < n && IsEmptyListing(polls[j])
        ensures !NothingSeen(polls, j, n)
      {
        EarlierEmptyListing(polls, j, n - 1, n);
      }
      if IsEmptyListing(polls[n]) {
        assert IsStart(polls, n + 1, n, polls[n].now);
      }
    }
  }

  lemma QuietIff(polls: seq<Poll>, n: int, since: Option<int>, quietPeriod: int)
    requires 0 <= n < |polls| && TracksQuiet(polls, n + 1, since) && IsMonotone(polls) && IsEmptyListing(polls[n])
    ensures since.Some? && (IsQuiet(polls, n, quietPeriod) <==> polls[n].later - since.value >= quietPeriod)
  {
    assert NothingSeen(polls, n, n);
    var j :| IsStart(polls, n + 1, j, since.value);
    if i :| 0 <= i <= n && IsEmptyListing(polls[i]) && polls[n].later - polls[i].now >= quietPeriod
            && NothingSeen(polls, i, n) {
      if i < j {
        EarlierEmptyListing(polls, i, j, n);
      } else if i > j {
        assert polls[j].now <= polls[j].later <= polls[i].now;
      }
    }
  }

  lemma OnlyEmptyListingsAreQuiet(polls: seq<Poll>, k: nat, quietPeriod: int)
    requires k < |polls| && !IsEmptyListing(polls[k])
    ensures !IsQuiet(polls, k, quietPeriod)
  {
  }

  /** The deletion of an allowlist that is listed twice is requested twice, and failures are only logged. */
  method RequestDeletionOfAllowlistsNotBeingDeletedYet(items: seq<Allowlist>) returns (requested: seq<string>)
    ensures requested == NotBeingDeleted(items)
  {
    requested := [];
    for i := 0 to |items|
      invariant requested == NotBeingDeleted(items[..i])
    {
      assert items[..i + 1][..i] == items[..i];
      if items[i].beingDeleted {
        continue;
      }
      requested := requested + [items[i].name];
    }
    assert items[..|items|] == items;
  }

  /** The polls are those that happen before the timeout, unless the loop ends earlier. */
  method WaitUntilNoAllowlistsAreLeft(polls: seq<Poll>, quietPeriod: int, deleteRemaining: bool)
    returns (outcome: Outcome, report: Report, requested: seq<string>, count: nat)
    requires IsMonotone(polls)
    ensures count <= |polls|
    ensures forall k | 0 <= k < count - 1 :: !EndsAt(polls, k, quietPeriod)
    ensures outcome.Quiet? ==> count > 0 && IsQuiet(polls, count - 1, quietPeriod)
    ensures outcome.Gone? ==> count > 0 && polls[count - 1].listing.KindIsGone?
    ensures outcome.TimedOut? ==> count == |polls| && forall k | 0 <= k < count :: !EndsAt(polls, k, quietPeriod)
    ensures report == ReportOf(outcome, polls[..count])
    ensures !outcome.TimedOut? ==> report == NoneLeft
    ensures requested == if deleteRemaining then DeletionRequests(polls[..count]) else []
  {
    var lastSeen: Option<seq<string>> := None;
    var listSucceededAtLeastOnce := false;
    var since: Option<int> := None;
    requested := [];
    outcome := TimedOut;
    count := 0;
    assert TracksQuiet(polls, 0, None);
    hide TracksQuiet, IsQuiet, IsMonotone;
    while count < |polls| && outcome.TimedOut?
      invariant count <= |polls|
      invariant TracksQuiet(polls, count, since)
      invariant forall k | 0 <= k < count - 1 :: !EndsAt(polls, k, quietPeriod)
      invariant outcome.TimedOut? && count > 0 ==> !EndsAt(polls, count - 1, quietPeriod)
      invariant outcome.Quiet? ==> count > 0 && IsQuiet(polls, count - 1, quietPeriod)
      invariant outcome.Gone? ==> count > 0 && polls[count - 1].listing.KindIsGone?
      invariant outcome.TimedOut? ==>
        && (listSucceededAtLeastOnce <==> LastSeen(polls[..count]).Some?)
        && lastSeen == (if LastSeen(polls[..count]) == Some([]) then None else LastSeen(polls[..count]))
      invariant requested == if deleteRemaining then DeletionRequests(polls[..count]) else []
      decreases |polls| - count, outcome.TimedOut?
    {
      var poll := polls[count];
      assert polls[..count + 1][..count] == polls[..count];
      NextSinceTracksQuiet(polls, count, since);
      if !IsEmptyListing(poll) {
        OnlyEmptyListingsAreQuiet(polls, count, quietPeriod);
      }
      match poll.listing {
        case KindIsGone =>
          lastSeen := None;
          outcome := Gone;
        case Failed =>
        case Listed(items) =>
          listSucceededAtLeastOnce := true;
          if items == [] {
            lastSeen := None;
            if since.None? {
              since := Some(poll.now);
            }
            QuietIff(polls, count, since, quietPeriod);
            if poll.later - since.value >= quietPeriod {
              outcome := Quiet;
            }
          } else {
            since := None;
            lastSeen := Some(Names(items));
            if deleteRemaining {
              var now := RequestDeletionOfAllowlistsNotBeingDeletedYet(items);
              requested := requested + now;
            }
          }
      }
      count := count + 1;
    }
    if !outcome.TimedOut? || (listSucceededAtLeastOnce && lastSeen.None?) {
      report := NoneLeft;
    } else if lastSeen.Some? {
      report := Left(lastSeen.value);
    } else {
      report := UnknownNumberLeft;
    }
  }
}
