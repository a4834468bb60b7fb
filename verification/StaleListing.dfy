/** A run in which the listing that the jobs of a resync share is out of date when one of them is processed, so that an
    object is left over although every call succeeds and the latest version of its resource is processed last. */
module StaleListing {
  import opened Common
  import opened Text
  import opened RuleOrigins
  import opened Dash0Backend
  import opened RuleSync
  import opened RuleConvergence
  import opened SyncQueue
  import opened QueueConvergence
  import opened ResyncRace
  import NamespaceResync

  const CONTROLLER := "prometheusrule"
  const KEY := Key(CONTROLLER, "namespace", "a")
  const OTHER := Key(CONTROLLER, "namespace", "b")
  const SITE := NamespaceResync.Site("cluster", "dataset", "namespace")

  const ONE_RULE := "one rule"
  const NO_RULES := "no rules"
  const GROUP := RuleGroup("group", [Rule("", "alert", "")])

  /** Every rule is valid. */
  const WORLD := World(SITE.clusterUid, SITE.dataset,
    Conversions((rule, groupName) => [], (rule, groupName) => Some("payload"), (rule, groupName) => Some("payload")),
    content => Content(Some(if content == ONE_RULE then [GROUP] else []), UpsertAction, false))

  const SEES_NOTHING := Outcome(Known([]), o => Healthy)

  // ---------------------------------------------------------------------------------------------
  // Runs of a queue with one adder and one worker
  // ---------------------------------------------------------------------------------------------

  function AtRest(stored: map<Key, seq<Job>>, taken: map<Key, seq<Take>>): State {
    State(WorkQueue([], {}, {}), map[], 0, [Outside], [Idle], stored, taken)
  }

  /** The steps add jobs with the given key only, and the last but one finishes the given job, and no other step
      does. */
  ghost predicate FinishesOnce(states: seq<State>, steps: seq<Step>, job: Job) {
    && |states| == |steps| + 1 >= 3
    && steps[|steps| - 2] == DoneCount(0) && states[|steps| - 2].workers == [Processing(job)]
    && forall i | 0 <= i < |steps| ::
      && (steps[i].AddStore? ==> steps[i].key == job.queueKey)
      && (steps[i].DoneCount? ==> i == |steps| - 2)
  }

  /** The states that a job passes through from the moment in which its key is queued. */
  lemma Processed(stored: map<Key, seq<Job>>, taken: map<Key, seq<Take>>, job: Job)
    returns (states: seq<State>)
    requires job.queueKey in stored && stored[job.queueKey] != []
    ensures var key := job.queueKey;
      var taken' :=
        taken[key := (if key in taken then taken[key] else []) + [Take(job, |stored[key]| - 1)]];
      && |states| == 5 && IsRun(states, [GetKey(0), GetTake(0), DoneCount(0), DoneKey(0)])
      && states[0] == State(WorkQueue([key], {key}, {}), map[key := job], 0, [Outside], [Idle], stored, taken)
      && states[2].workers == [Processing(job)]
      && states[4] == AtRest(stored, taken')
  {
    var key := job.queueKey;
    var s0 := State(WorkQueue([key], {key}, {}), map[key := job], 0, [Outside], [Idle], stored, taken);
    var s1 := Next(s0, GetKey(0));
    assert s1 == State(WorkQueue([], {}, {key}), s0.pendingJobs, 0, [Outside], [Holding(key)], stored, taken);
    var s2 := Next(s1, GetTake(0));
    assert s2 == State(s1.keys, map[], 1, [Outside], [Processing(job)], stored, s2.taken);
    var s3 := Next(s2, DoneCount(0));
    assert s3 == State(s1.keys, map[], 0, [Outside], [Finishing(key)], stored, s2.taken);
    var s4 := Next(s3, DoneKey(0));
    assert s4.keys == WorkQueue([], {}, {}) && s4.workers == [Idle];
    states := [s0, s1, s2, s3, s4];
  }

  /** A job is added while nothing is going on, or while a job for the same key is pending. */
  lemma Added(s: State, job: Job) returns (states: seq<State>)
    requires s.adders == [Outside] && s.keys.processing == {}
    requires s.keys == WorkQueue([], {}, {}) || s.keys == WorkQueue([job.queueKey], {job.queueKey}, {})
    ensures |states| == 3 && IsRun(states, [AddStore(0, job.queueKey, job.content), AddEnqueue(0)]) && states[0] == s
    ensures states[2] == s.(
      keys := WorkQueue([job.queueKey], {job.queueKey}, {}),
      pendingJobs := s.pendingJobs[job.queueKey := job],
      stored := s.stored[job.queueKey := StoredFor(s, job.queueKey) + [job]])
  {
    var s1 := Next(s, AddStore(0, job.queueKey, job.content));
    var s2 := Next(s1, AddEnqueue(0));
    assert s2.adders == [Outside];
    states := [s, s1, s2];
  }

  /** The steps only add jobs for the given key. */
  ghost predicate OnlyAdds(steps: seq<Step>, key: Key) {
    forall i | 0 <= i < |steps| :: !steps[i].DoneCount? && (steps[i].AddStore? ==> steps[i].key == key)
  }

  /** After jobs have been added, the last one is processed. */
  lemma AddedAndProcessed(added: seq<State>, adding: seq<Step>, stored: map<Key, seq<Job>>, taken: map<Key, seq<Take>>,
                          job: Job)
    returns (states: seq<State>, steps: seq<Step>)
    requires job.queueKey in stored && stored[job.queueKey] != []
    requires |added| == |adding| + 1 && IsRun(added, adding) && OnlyAdds(adding, job.queueKey)
    requires added[|adding|] == State(WorkQueue([job.queueKey], {job.queueKey}, {}), map[job.queueKey := job], 0,
                                      [Outside], [Idle], stored, taken)
    ensures |steps| == |adding| + 4 && |states| == |steps| + 1 && IsRun(states, steps)
    ensures FinishesOnce(states, steps, job) && states[0] == added[0]
    ensures var key := job.queueKey;
      states[|steps|] ==
      AtRest(stored, taken[key := (if key in taken then taken[key] else []) + [Take(job, |stored[key]| - 1)]])
  {
    hide IsRun, Next;
    var processed := Processed(stored, taken, job);
    var processing := [GetKey(0), GetTake(0), DoneCount(0), DoneKey(0)];
    JoinedRun(added, adding, processed, processing);
    states, steps := added + processed[1..], adding + processing;
    assert states[|adding| + 2] == processed[2] && states[|adding| + 4] == processed[4];
  }

  /** A job is added and processed. */
  lemma OneJob(stored: map<Key, seq<Job>>, taken: map<Key, seq<Take>>, job: Job)
    returns (states: seq<State>, steps: seq<Step>)
    requires job.queueKey !in stored && job.queueKey !in taken
    ensures |states| == 7 && |steps| == 6 && IsRun(states, steps) && FinishesOnce(states, steps, job)
    ensures states[0] == AtRest(stored, taken)
    ensures states[6] == AtRest(stored[job.queueKey := [job]], taken[job.queueKey := [Take(job, 0)]])
  {
    hide IsRun, Next, FinishesOnce;
    var stored' := stored[job.queueKey := [job]];
    var added := Added(AtRest(stored, taken), job);
    assert [] + [job] == [job] && [] + [Take(job, 0)] == [Take(job, 0)];
    assert added[2].stored == stored' && added[2].pendingJobs == map[job.queueKey := job];
    states, steps := AddedAndProcessed(added, [AddStore(0, job.queueKey, job.content), AddEnqueue(0)], stored', taken,
                                       job);
  }

  /** A job is added, replaced by another one with the same contents, and that one is processed. */
  lemma ReplacedJob(stored: map<Key, seq<Job>>, taken: map<Key, seq<Take>>, earlier: Job, job: Job)
    returns (states: seq<State>, steps: seq<Step>)
    requires job.queueKey in stored && stored[job.queueKey] == [earlier]
    requires job.queueKey in taken && taken[job.queueKey] == [Take(earlier, 0)]
    ensures |states| == 9 && |steps| == 8 && IsRun(states, steps) && FinishesOnce(states, steps, job)
    ensures states[0] == AtRest(stored, taken)
    ensures states[8] == AtRest(stored[job.queueKey := [earlier, job, job]],
                                taken[job.queueKey := [Take(earlier, 0), Take(job, 2)]])
  {
    hide IsRun, Next, FinishesOnce;
    var key := job.queueKey;
    var add := [AddStore(0, key, job.content), AddEnqueue(0)];
    var stored' := stored[key := [earlier, job, job]];
    var first := Added(AtRest(stored, taken), job);
    var second := Added(first[2], job);
    var added := first + second[1..];
    JoinedRun(first, add, second, add);
    assert added[2 + 2] == second[2];
    assert [earlier] + [job] == [earlier, job] && [earlier, job] + [job] == [earlier, job, job];
    assert second[2].stored == stored' && second[2].pendingJobs == map[key := job];
    assert [Take(earlier, 0)] + [Take(job, 2)] == [Take(earlier, 0), Take(job, 2)];
    states, steps := AddedAndProcessed(added, add + add, stored', taken, job);
  }

  lemma JoinedRun(states: seq<State>, steps: seq<Step>, states': seq<State>, steps': seq<Step>)
    requires IsRun(states, steps) && IsRun(states', steps')
    requires |states| == |steps| + 1 && |states'| == |steps'| + 1 && states[|steps|] == states'[0]
    ensures IsRun(states + states'[1..], steps + steps')
    ensures forall i | 0 <= i <= |steps'| :: (states + states'[1..])[|steps| + i] == states'[i]
  {
    var all := states + states'[1..];
    assert forall i | 0 <= i <= |steps'| :: all[|steps| + i] == states'[i];
    forall i | 0 <= i < |steps + steps'|
      ensures Enabled(all[i], (steps + steps')[i]) && all[i + 1] == Next(all[i], (steps + steps')[i])
    {
      if i >= |steps| {
        var k := i - |steps|;
        assert all[|steps| + k] == states'[k] && all[|steps| + (k + 1)] == states'[k + 1];
      }
    }
  }

  const OF_OTHER := Job(OTHER, NO_RULES)
  const WITH_RULE := Job(KEY, ONE_RULE)
  const WITHOUT_RULE := Job(KEY, NO_RULES)

  /** Steps 4, 10 and 18 finish these three jobs. */
  ghost predicate IsTheRun(states: seq<State>, steps: seq<Step>) {
    && |steps| == 20 && IsRun(states, steps) && Init(states[0])
    && steps[4] == steps[10] == steps[18] == DoneCount(0)
    && states[4].workers == [Processing(OF_OTHER)]
    && states[10].workers == [Processing(WITH_RULE)]
    && states[18].workers == [Processing(WITHOUT_RULE)]
    && (forall i | 0 <= i < 20 && steps[i].DoneCount? :: i == 4 || i == 10 || i == 18)
    && (forall i | 0 <= i < 20 && steps[i].AddStore? :: steps[i].key == KEY || steps[i].key == OTHER)
    && states[20].keys.queue == [] && states[20].adders == [Outside] && states[20].workers == [Idle]
    && StoredFor(states[20], KEY) == [WITH_RULE, WITHOUT_RULE, WITHOUT_RULE]
  }

  /** The job of the other resource is processed, then the one for the version with a rule, then the one for the version
      without rules, which is enqueued by the event for it and replaced by the resync. */
  lemma TheRun() returns (states: seq<State>, steps: seq<Step>)
    ensures IsTheRun(states, steps)
  {
    hide IsRun, Init, FinishesOnce;
    var first, firstSteps := OneJob(map[], map[], OF_OTHER);
    var second, secondSteps := OneJob(first[6].stored, first[6].taken, WITH_RULE);
    var third, thirdSteps := ReplacedJob(second[6].stored, second[6].taken, WITH_RULE, WITHOUT_RULE);
    Lengths(first, firstSteps, OF_OTHER);
    Lengths(second, secondSteps, WITH_RULE);
    Lengths(third, thirdSteps, WITHOUT_RULE);
    var both := first + second[1..];
    JoinedRun(first, firstSteps, second, secondSteps);
    assert both[6 + 4] == second[4] && both[6 + 6] == second[6];
    JoinedRun(both, firstSteps + secondSteps, third, thirdSteps);
    states := both + third[1..];
    steps := firstSteps + secondSteps + thirdSteps;
    assert states[12 + 6] == third[6] && states[12 + 8] == third[8];
    AtRestIsInitial(states[0]);
  }

  lemma Lengths(states: seq<State>, steps: seq<Step>, job: Job)
    requires FinishesOnce(states, steps, job)
    ensures |states| == |steps| + 1 >= 3
    ensures steps[|steps| - 2] == DoneCount(0) && states[|steps| - 2].workers == [Processing(job)]
    ensures forall i | 0 <= i < |steps| && steps[i].AddStore? :: steps[i].key == job.queueKey
    ensures forall i | 0 <= i < |steps| && steps[i].DoneCount? :: i == |steps| - 2
  {
  }

  lemma AtRestIsInitial(s: State)
    requires s == AtRest(map[], map[])
    ensures Init(s)
  {
  }

  // ---------------------------------------------------------------------------------------------
  // What is left behind
  // ---------------------------------------------------------------------------------------------

  /** The object of the rule. */
  const LEFT_OVER := ApiObject(CheckRule, RuleOrigin(WORLD.PrefixOf(KEY), GROUP.name, GROUP.rules[0].Name()))

  lemma WithRuleWantsIt()
    ensures WORLD.PrefixOf(KEY) <= LEFT_OVER.origin
    ensures Wanted(WORLD, WITH_RULE, LEFT_OVER).Some?
  {
    var items := WORLD.ItemsOf(WITH_RULE);
    WithRuleItems();
    hide RuleOrigin, ResourcePrefix, Items, SentPayload;
    assert items[0].Target() == LEFT_OVER;
    IsWanted(items[0]);
    assert items == [items[0]];
  }

  lemma WithRuleItems()
    ensures WORLD.decode(WITH_RULE.content) == Content(Some([GROUP]), UpsertAction, false)
    ensures WORLD.ItemsOf(WITH_RULE) == [RuleItem(GROUP.name, 0, GROUP.rules[0], LEFT_OVER.origin)]
    ensures WORLD.PrefixOf(KEY) <= LEFT_OVER.origin
  {
    var prefix := WORLD.PrefixOf(KEY);
    hide RuleOrigin, ResourcePrefix, Items, ProperItems;
    SingleItem(prefix, GROUP);
    ItemsAreProper(prefix, Some([GROUP]));
    ProperOrigin(prefix, Items(prefix, Some([GROUP])), 0);
  }

  lemma ProperOrigin(prefix: string, items: seq<RuleItem>, i: nat)
    requires ProperItems(prefix, items) && i < |items|
    ensures prefix <= items[i].origin
  {
  }

  lemma IsWanted(item: RuleItem)
    requires item.rule == Rule("", "alert", "")
    ensures SentPayload(WORLD.conversions, [item], item.Target()).Some?
  {
    assert SendsFor(WORLD.conversions, UpsertAction, [item][0], item.Target(), Put("payload"));
  }

  lemma WithoutRulesNothingIsSent(job: Job)
    requires job.content == NO_RULES
    ensures WORLD.ItemsOf(job) == [] && IsDecisive(WORLD, job)
    ensures forall o :: Wanted(WORLD, job, o) == None && !Removes(WORLD, job, Known([]), o)
    ensures forall before :: Synced(WORLD, job, SEES_NOTHING, before) == before
  {
    assert ONE_RULE[0] != NO_RULES[0];
    var prefix := WORLD.PrefixOf(job.queueKey);
    assert WORLD.decode(job.content) == Content(Some([]), UpsertAction, false);
    assert Flatten(ItemRows([], SettledOrigins(prefix, []))) == [];
    assert SyncRequests(WORLD.conversions, [], UpsertAction, false, Known([])) == [];
  }

  /** The backend is empty until the job for the version with a rule is finished. */
  ghost function BackendAt(i: nat): map<ApiObject, Payload> {
    if i <= 10 then map[]
    else Synced(WORLD, WITH_RULE, SEES_NOTHING, map[])
  }

  lemma TheSyncRun(states: seq<State>, steps: seq<Step>)
    returns (outcomes: seq<Outcome>, backends: seq<map<ApiObject, Payload>>)
    requires IsTheRun(states, steps)
    ensures |outcomes| == 20 && |backends| == 21
    ensures forall i | 0 <= i < 20 :: outcomes[i] == SEES_NOTHING
    ensures forall i | 0 <= i < 21 :: backends[i] == BackendAt(i)
    ensures IsSyncRun(WORLD, states, steps, outcomes, backends) && CallsSucceed(steps, outcomes)
  {
    outcomes := seq(20, _ => SEES_NOTHING);
    backends := seq(21, i requires i >= 0 => BackendAt(i));
    TheRunIsARun(states, steps);
    forall i | 0 <= i < 20
      ensures IsEffect(WORLD, states[i], steps[i], SEES_NOTHING, BackendAt(i), BackendAt(i + 1))
    {
      TheEffect(states, steps, i);
    }
    hide IsEffect, IsTheRun, IsRun, Init, Next, BackendAt, Synced;
  }

  lemma TheRunIsARun(states: seq<State>, steps: seq<Step>)
    requires IsTheRun(states, steps)
    ensures |steps| == 20 && IsRun(states, steps) && |states| == 21 && Init(states[0])
    ensures forall i | 0 <= i < 20 :: Enabled(states[i], steps[i])
  {
  }

  lemma TheEffect(states: seq<State>, steps: seq<Step>, i: nat)
    requires IsTheRun(states, steps) && i < 20 && Enabled(states[i], steps[i])
    ensures IsEffect(WORLD, states[i], steps[i], SEES_NOTHING, BackendAt(i), BackendAt(i + 1))
  {
    hide Synced, IsRun, Init, Next;
    WithoutRulesNothingIsSent(OF_OTHER);
    WithoutRulesNothingIsSent(WITHOUT_RULE);
  }

  /** Both versions exist when the resync reads the resource. The events for them are handled one after the other, and
      then the resync enqueues the latest version once more. */
  lemma TheRace() returns (races: seq<Race>, moves: seq<Move>)
    ensures IsRaceRun(races, moves) && |moves| == 6 && moves[2].Read?
    ensures IsQuiet(races[6]) && AreVersions(races[6])
    ensures races[6].versions == [Present(ONE_RULE), Present(NO_RULES)] && races[6].enqueued == [1, 2, 2]
  {
    var one, two := [Present(ONE_RULE)], [Present(ONE_RULE), Present(NO_RULES)];
    moves := [Change(Present(ONE_RULE)), Change(Present(NO_RULES)), Read, Handle, Handle, Enqueue(0)];
    races := [START, Race(one, 0, [], []), Race(two, 0, [], []), Race(two, 0, [Reading(2)], []),
              Race(two, 1, [Reading(2)], [1]), Race(two, 2, [Reading(2)], [1, 2]), Race(two, 2, [Over], [1, 2, 2])];
  }

  /** All calls succeed, and the latest version, which has no rules, is enqueued and processed last. But the resync has
      fetched the listing of the namespace, which is empty, for its job for another resource, before the event for the
      earlier version created the object of its rule. So this object is left over. */
  lemma LatestIsProcessedLastInVain()
    returns (states: seq<State>, steps: seq<Step>, outcomes: seq<Outcome>, backends: seq<map<ApiObject, Payload>>,
             races: seq<Race>, moves: seq<Move>)
    ensures Settles(WORLD, states, steps, outcomes, backends, CONTROLLER, KEY, races, moves)
    ensures LatestIsLast(races[|moves|]) && !WasOvertaken(races, moves)
    ensures IsDecisive(WORLD, LatestJob(KEY, races[|moves|]))
    ensures |steps| == 20
    ensures IsFinished(states[4], steps[4], OF_OTHER) && IsFinished(states[18], steps[18], WITHOUT_RULE)
    ensures NamespaceResync.IsNamespaceListing(backends[4], SITE, [])
    ensures outcomes[4].listing == Known([]) == NamespaceResync.ListingFor(Known([]), WORLD.PrefixOf(OTHER))
    ensures outcomes[18].listing == Known([]) == NamespaceResync.ListingFor(Known([]), WORLD.PrefixOf(KEY))
    ensures IsFinished(states[10], steps[10], WITH_RULE) && outcomes[10].listing == Known([])
    ensures IsListing(backends[10], WORLD.PrefixOf(KEY), [])
    ensures WORLD.PrefixOf(KEY) <= LEFT_OVER.origin && LEFT_OVER in backends[|steps|]
    ensures !BackendIsAsWanted(WORLD, LatestJob(KEY, races[|moves|]), backends[|steps|])
  {
    states, steps := TheRun();
    outcomes, backends := TheSyncRun(states, steps);
    races, moves := TheRace();
    TheEnd(states, steps, races, moves);
    LatestIsLastIff(races, moves);
    TheJobs(states, steps);
    WithoutRulesNothingIsSent(WITHOUT_RULE);
    TheObjectStays();
    TheListings();
    assert IsRun(states, steps) && |states| == 21 && Enabled(states[4], steps[4]);
    hide IsTheRun, IsRun, IsRaceRun, IsQuiet, AreVersions, AreStored, IsSyncRun, HasProperKeys, CallsSucceed, IsDrained,
         Wanted, IsFinished, IsDecisive, WasOvertaken, Enabled, BackendAt;
  }

  lemma TheListings()
    ensures NamespaceResync.IsNamespaceListing(BackendAt(4), SITE, [])
    ensures IsListing(BackendAt(10), WORLD.PrefixOf(KEY), [])
    ensures forall prefix :: NamespaceResync.ListingFor(Known([]), prefix) == Known([])
  {
  }

  lemma TheObjectStays()
    ensures LEFT_OVER in BackendAt(20) && WORLD.PrefixOf(KEY) <= LEFT_OVER.origin
  {
    WithRuleWantsIt();
    NothingGoesWrong();
    hide Synced, Wanted, Removes, RuleOrigin, ResourcePrefix, AllHealthy, IsUnder;
    JobLeaves(WORLD, WITH_RULE, SEES_NOTHING, map[], LEFT_OVER);
  }

  lemma NothingGoesWrong()
    ensures AllHealthy(SEES_NOTHING.faults)
    ensures forall prefix :: IsUnder(prefix, SEES_NOTHING.listing)
  {
  }

  lemma TheJobs(states: seq<State>, steps: seq<Step>)
    requires IsTheRun(states, steps)
    ensures IsFinished(states[4], steps[4], OF_OTHER) && IsFinished(states[10], steps[10], WITH_RULE)
    ensures IsFinished(states[18], steps[18], WITHOUT_RULE)
  {
  }

  lemma TheEnd(states: seq<State>, steps: seq<Step>, races: seq<Race>, moves: seq<Move>)
    requires IsTheRun(states, steps) && |races| == 7 && AreVersions(races[6])
    requires races[6].versions == [Present(ONE_RULE), Present(NO_RULES)] && races[6].enqueued == [1, 2, 2]
    ensures IsDrained(states[20]) && HasProperKeys(CONTROLLER, steps)
    ensures AreStored(races[6], KEY, states[20])
  {
  }
}
