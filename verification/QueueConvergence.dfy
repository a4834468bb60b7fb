/** The queue and the synchronization together: what is left behind in the Dash0 backend when the queue has drained. */
module QueueConvergence {
  import opened Common
  import opened RuleOrigins
  import opened Dash0Backend
  import opened RuleSync
  import opened RuleConvergence
  import opened SyncQueue

  /** What a job carries. A resource that is deleted because of its label is not gone. */
  datatype Content = Content(spec: Option<seq<RuleGroup>>, action: Action, gone: bool)

  /** Where the objects live, and what the jobs of the queue mean. */
  datatype World = World(clusterUid: string, dataset: string, conversions: Conversions, decode: string -> Content) {
    function PrefixOf(key: Key): string {
      ResourcePrefix(clusterUid, dataset, key.namespace, key.name)
    }

    ghost function ItemsOf(job: Job): seq<RuleItem> {
      Items(PrefixOf(job.queueKey), decode(job.content).spec)
    }
  }

  /** What the synchronization for a job gets to see, and what goes wrong with its calls. */
  datatype Outcome = Outcome(listing: Listing, faults: Faults)

  ghost function Synced(world: World, job: Job, outcome: Outcome, before: map<ApiObject, Payload>)
    : map<ApiObject, Payload>
  {
    var content := world.decode(job.content);
    Synchronized(world.conversions, world.PrefixOf(job.queueKey), content.spec, content.action, content.gone,
                 outcome.listing, outcome.faults, before)
  }

  ghost predicate IsFinished(s: State, step: Step, job: Job) {
    step.DoneCount? && Enabled(s, step) && s.workers[step.worker].job == job
  }

  /** A run of the queue in which a job has its effect on the backend when it is finished. */
  ghost predicate IsSyncRun(world: World, states: seq<State>, steps: seq<Step>, outcomes: seq<Outcome>,
                            backends: seq<map<ApiObject, Payload>>)
  {
    && IsRun(states, steps) && Init(states[0])
    && |outcomes| == |steps| && |backends| == |states|
    && forall i | 0 <= i < |steps| :: IsEffect(world, states[i], steps[i], outcomes[i], backends[i], backends[i + 1])
  }

  ghost predicate IsEffect(world: World, s: State, step: Step, outcome: Outcome, before: map<ApiObject, Payload>,
                           after: map<ApiObject, Payload>)
    requires Enabled(s, step)
  {
    if step.DoneCount? then
      var job := s.workers[step.worker].job;
      IsUnder(world.PrefixOf(job.queueKey), outcome.listing) && after == Synced(world, job, outcome, before)
    else
      after == before
  }

  /** All resources are of the type that the queue is for, and have names that Kubernetes accepts. */
  ghost predicate HasProperKeys(controllerName: string, steps: seq<Step>) {
    forall i | 0 <= i < |steps| && steps[i].AddStore? :: IsProperKey(controllerName, steps[i].key)
  }

  predicate IsProperKey(controllerName: string, key: Key) {
    key.controllerName == controllerName && IsKubernetesName(key.namespace) && IsKubernetesName(key.name)
  }

  // ---------------------------------------------------------------------------------------------
  // The last job has the last word
  // ---------------------------------------------------------------------------------------------

  ghost predicate IsProcessing(s: State, key: Key) {
    exists w :: 0 <= w < |s.workers| && s.workers[w].Processing? && s.workers[w].job.queueKey == key
  }

  /** Whoever processes a job of a key processes the one taken last. */
  ghost predicate ProcessesLastTaken(s: State) {
    forall w | 0 <= w < |s.workers| && s.workers[w].Processing? ::
      var taken := TakenFor(s, s.workers[w].job.queueKey);
      taken != [] && taken[|taken| - 1].job == s.workers[w].job
  }

  /** A worker starts to process a job only by taking it, and stops only by finishing it. */
  lemma ProcessingStartsAndStops(s: State, step: Step, w: nat)
    requires Enabled(s, step) && w < |s.workers|
    ensures var t := Next(s, step);
      && |t.workers| == |s.workers|
      && (s.workers[w].Processing? && step != DoneCount(w) ==> t.workers[w] == s.workers[w])
      && (t.workers[w].Processing? && t.workers[w] != s.workers[w] ==>
            && step == GetTake(w) && s.workers[w].key in s.pendingJobs
            && t.workers[w] == Processing(s.pendingJobs[s.workers[w].key]))
  {
  }

  /** The jobs taken for a key change only when a worker takes the pending one. */
  lemma TakingStep(s: State, step: Step, key: Key)
    requires Enabled(s, step)
    ensures var t := Next(s, step);
      TakenFor(t, key) == TakenFor(s, key) ||
      (&& step.GetTake? && s.workers[step.worker] == Holding(key) && key in s.pendingJobs
       && t.workers[step.worker] == Processing(s.pendingJobs[key])
       && TakenFor(t, key) == TakenFor(s, key) + [Take(s.pendingJobs[key], |StoredFor(s, key)| - 1)])
  {
    match step
    case GetTake(w) =>
    case _ =>
  }

  lemma NextProcessesLastTaken(s: State, step: Step)
    requires Inv(s) && ProcessesLastTaken(s) && Enabled(s, step)
    ensures ProcessesLastTaken(Next(s, step))
  {
    var t := Next(s, step);
    forall w | 0 <= w < |t.workers| && t.workers[w].Processing?
      ensures var taken := TakenFor(t, t.workers[w].job.queueKey);
        taken != [] && taken[|taken| - 1].job == t.workers[w].job
    {
      var key := t.workers[w].job.queueKey;
      ProcessingStartsAndStops(s, step, w);
      TakingStep(s, step, key);
      if t.workers[w] != s.workers[w] {
        assert HistoryOf(s, s.workers[w].key);
        TakenByTaking(s, w);
      } else {
        assert forall v | 0 <= v < |s.workers| && v != w :: HeldKey(s.workers[v]) != HeldKey(s.workers[w]);
        assert TakenFor(t, key) == TakenFor(s, key);
      }
    }
  }

  lemma TakenByTaking(s: State, w: nat)
    requires Enabled(s, GetTake(w)) && s.workers[w].key in s.pendingJobs
    ensures var key := s.workers[w].key;
      TakenFor(Next(s, GetTake(w)), key) ==
      TakenFor(s, key) + [Take(s.pendingJobs[key], |StoredFor(s, key)| - 1)]
  {
  }

  lemma {:induction false} RunProcessesLastTaken(states: seq<State>, steps: seq<Step>, m: nat)
    requires IsRun(states, steps) && Init(states[0]) && m <= |steps|
    ensures ProcessesLastTaken(states[m])
  {
    if m > 0 {
      RunProcessesLastTaken(states, steps, m - 1);
      ReachableInv(states, steps, m - 1);
      hide ProcessesLastTaken, Inv, Next, Init;
      NextProcessesLastTaken(states[m - 1], steps[m - 1]);
      assert states[m - 1 + 1] == Next(states[m - 1], steps[m - 1]);
    }
  }

  /** A job only touches objects under the prefix of its own resource. */
  lemma SyncedStaysUnderPrefix(world: World, job: Job, outcome: Outcome, before: map<ApiObject, Payload>, o: ApiObject)
    requires IsUnder(world.PrefixOf(job.queueKey), outcome.listing) && !(world.PrefixOf(job.queueKey) <= o.origin)
    ensures Lookup(Synced(world, job, outcome, before), o) == Lookup(before, o)
  {
    var content := world.decode(job.content);
    SynchronizedStaysUnderPrefix(world.conversions, world.PrefixOf(job.queueKey), content.spec, content.action,
                                 content.gone, outcome.listing, outcome.faults, before, o);
  }

  ghost predicate AgreeUnder(prefix: string, a: map<ApiObject, Payload>, b: map<ApiObject, Payload>) {
    forall o: ApiObject | prefix <= o.origin :: Lookup(a, o) == Lookup(b, o)
  }

  lemma OtherJobsDoNotInterfere(world: World, controllerName: string, key: Key, job: Job, outcome: Outcome,
                                before: map<ApiObject, Payload>)
    requires IsProperKey(controllerName, key) && IsProperKey(controllerName, job.queueKey) && job.queueKey != key
    requires IsUnder(world.PrefixOf(job.queueKey), outcome.listing)
    ensures AgreeUnder(world.PrefixOf(key), before, Synced(world, job, outcome, before))
  {
    hide Synced, IsUnder;
    forall o: ApiObject | world.PrefixOf(key) <= o.origin
      ensures Lookup(before, o) == Lookup(Synced(world, job, outcome, before), o)
    {
      if world.PrefixOf(job.queueKey) <= o.origin {
        PrefixesNeverOverlap(world.clusterUid, world.dataset, key.namespace, key.name, job.queueKey.namespace,
                             job.queueKey.name, o.origin);
      }
      SyncedStaysUnderPrefix(world, job, outcome, before, o);
    }
  }

  /** The keys of all jobs in use are proper. */
  lemma JobKeysAreProper(states: seq<State>, steps: seq<Step>, controllerName: string, key: Key, m: nat)
    requires IsRun(states, steps) && Init(states[0]) && HasProperKeys(controllerName, steps) && m <= |steps|
    requires StoredFor(states[m], key) != []
    ensures IsProperKey(controllerName, key)
  {
    HistoryOnlyGrows(states, steps, key, m, |steps|);
    var n := StoringStep(states, steps, key, 0);
  }

  /** The job that a worker processes has a proper key. */
  lemma ProcessedKeyIsProper(states: seq<State>, steps: seq<Step>, controllerName: string, m: nat, w: nat)
    requires IsRun(states, steps) && Init(states[0]) && HasProperKeys(controllerName, steps) && m <= |steps|
    requires w < |states[m].workers| && states[m].workers[w].Processing?
    ensures IsProperKey(controllerName, states[m].workers[w].job.queueKey)
  {
    ProcessedKeyIsStored(states, steps, m, w);
    JobKeysAreProper(states, steps, controllerName, states[m].workers[w].job.queueKey, m);
  }

  lemma ProcessedKeyIsStored(states: seq<State>, steps: seq<Step>, m: nat, w: nat)
    requires IsRun(states, steps) && Init(states[0]) && m <= |steps|
    requires w < |states[m].workers| && states[m].workers[w].Processing?
    ensures StoredFor(states[m], states[m].workers[w].job.queueKey) != []
  {
    RunProcessesLastTaken(states, steps, m);
    ReachableInv(states, steps, m);
    assert HistoryOf(states[m], states[m].workers[w].job.queueKey);
  }

  /** Step n has finished the given job, and no later step before m has changed anything under the prefix of its
      resource. */
  ghost predicate HasLastWord(world: World, states: seq<State>, steps: seq<Step>,
                              backends: seq<map<ApiObject, Payload>>, job: Job, n: int, m: nat)
    requires |states| == |backends| == |steps| + 1 && m <= |steps|
  {
    && 0 <= n < m
    && IsFinished(states[n], steps[n], job)
    && AgreeUnder(world.PrefixOf(job.queueKey), backends[n + 1], backends[m])
  }

  function LastTaken(s: State, key: Key): Job
    requires TakenFor(s, key) != []
  {
    TakenFor(s, key)[|TakenFor(s, key)| - 1].job
  }

  ghost predicate Finishes(s: State, step: Step, key: Key)
    requires Enabled(s, step)
  {
    step.DoneCount? && s.workers[step.worker].job.queueKey == key
  }

  /** A step that does not finish a job of a resource does not change its objects. */
  lemma OtherStepsDoNotInterfere(world: World, states: seq<State>, steps: seq<Step>, outcomes: seq<Outcome>,
                                 backends: seq<map<ApiObject, Payload>>, controllerName: string, key: Key, l: nat)
    requires IsSyncRun(world, states, steps, outcomes, backends) && HasProperKeys(controllerName, steps)
    requires IsProperKey(controllerName, key) && l < |steps| && !Finishes(states[l], steps[l], key)
    ensures AgreeUnder(world.PrefixOf(key), backends[l], backends[l + 1])
  {
    assert IsEffect(world, states[l], steps[l], outcomes[l], backends[l], backends[l + 1]);
    if steps[l].DoneCount? {
      ProcessedKeyIsProper(states, steps, controllerName, l, steps[l].worker);
      hide Synced, Next, Inv, Init, IsUnder, HasProperKeys, IsProperKey;
      OtherJobsDoNotInterfere(world, controllerName, key, states[l].workers[steps[l].worker].job, outcomes[l],
                              backends[l]);
    }
  }

  /** If no job of a resource is being processed, the one taken last has had the last word on its objects. */
  lemma {:induction false} LastTakenHasLastWord(world: World, states: seq<State>, steps: seq<Step>,
                                                outcomes: seq<Outcome>, backends: seq<map<ApiObject, Payload>>,
                                                controllerName: string, key: Key, m: nat)
    returns (n: nat)
    requires IsSyncRun(world, states, steps, outcomes, backends) && HasProperKeys(controllerName, steps)
    requires m <= |steps| && TakenFor(states[m], key) != [] && !IsProcessing(states[m], key)
    ensures HasLastWord(world, states, steps, backends, LastTaken(states[m], key), n, m)
  {
    var l := m - 1;
    BeforeLastStep(states, steps, key, m);
    var job := LastTaken(states[m], key);
    assert IsRun(states, steps) && Init(states[0]) && |states| == |backends| == |outcomes| + 1 == |steps| + 1;
    hide *;
    if Finishes(states[l], steps[l], key) {
      n := l;
      FinishingHasLastWord(world, states, steps, backends, job, l);
    } else {
      n := LastTakenHasLastWord(world, states, steps, outcomes, backends, controllerName, key, l);
      SameLastTaken(states[l], states[m], key);
      TakenKeyIsProper(states, steps, controllerName, key, l);
      OtherStepsDoNotInterfere(world, states, steps, outcomes, backends, controllerName, key, l);
      LastWordStays(world, states, steps, backends, job, n, l);
    }
  }

  lemma SameLastTaken(s: State, t: State, key: Key)
    requires TakenFor(s, key) == TakenFor(t, key) != []
    ensures LastTaken(s, key) == LastTaken(t, key)
  {
  }

  lemma FinishingHasLastWord(world: World, states: seq<State>, steps: seq<Step>, backends: seq<map<ApiObject, Payload>>,
                             job: Job, l: nat)
    requires |states| == |backends| == |steps| + 1 && l < |steps| && IsFinished(states[l], steps[l], job)
    ensures HasLastWord(world, states, steps, backends, job, l, l + 1)
  {
    AgreeWithItself(world.PrefixOf(job.queueKey), backends[l + 1]);
  }

  lemma LastWordStays(world: World, states: seq<State>, steps: seq<Step>, backends: seq<map<ApiObject, Payload>>,
                      job: Job, n: nat, l: nat)
    requires |states| == |backends| == |steps| + 1 && l < |steps|
    requires HasLastWord(world, states, steps, backends, job, n, l)
    requires AgreeUnder(world.PrefixOf(job.queueKey), backends[l], backends[l + 1])
    ensures HasLastWord(world, states, steps, backends, job, n, l + 1)
  {
    AgreeTransitively(world.PrefixOf(job.queueKey), backends[n + 1], backends[l], backends[l + 1]);
  }

  lemma BeforeLastStep(states: seq<State>, steps: seq<Step>, key: Key, m: nat)
    requires IsRun(states, steps) && Init(states[0]) && m <= |steps|
    requires TakenFor(states[m], key) != [] && !IsProcessing(states[m], key)
    ensures m > 0 && Enabled(states[m - 1], steps[m - 1]) && LastTaken(states[m], key).queueKey == key
    ensures if Finishes(states[m - 1], steps[m - 1], key) then
        IsFinished(states[m - 1], steps[m - 1], LastTaken(states[m], key))
      else
        TakenFor(states[m - 1], key) == TakenFor(states[m], key) && !IsProcessing(states[m - 1], key)
  {
    var l := m - 1;
    ReachableInv(states, steps, l);
    ReachableInv(states, steps, m);
    LastTakenKey(states[m], key);
    RunProcessesLastTaken(states, steps, l);
    hide Inv, ProcessesLastTaken, IsProcessing, Next, Init, Enabled;
    assert states[l + 1] == Next(states[l], steps[l]);
    LastStep(states[l], steps[l], key);
  }

  lemma AgreeWithItself(prefix: string, a: map<ApiObject, Payload>)
    ensures AgreeUnder(prefix, a, a)
  {
  }

  lemma AgreeTransitively(prefix: string, a: map<ApiObject, Payload>, b: map<ApiObject, Payload>,
                          c: map<ApiObject, Payload>)
    requires AgreeUnder(prefix, a, b) && AgreeUnder(prefix, b, c)
    ensures AgreeUnder(prefix, a, c)
  {
  }

  lemma LastTakenKey(s: State, key: Key)
    requires Inv(s) && TakenFor(s, key) != []
    ensures LastTaken(s, key).queueKey == key && StoredFor(s, key) != []
  {
    assert HistoryOf(s, key);
  }

  lemma TakenKeyIsProper(states: seq<State>, steps: seq<Step>, controllerName: string, key: Key, m: nat)
    requires IsRun(states, steps) && Init(states[0]) && HasProperKeys(controllerName, steps) && m <= |steps|
    requires TakenFor(states[m], key) != []
    ensures IsProperKey(controllerName, key)
  {
    ReachableInv(states, steps, m);
    LastTakenKey(states[m], key);
    JobKeysAreProper(states, steps, controllerName, key, m);
  }

  /** A step after which no job of a resource is being processed has either finished one or not changed which one was
      taken last. */
  lemma LastStep(s: State, step: Step, key: Key)
    requires Inv(s) && ProcessesLastTaken(s) && Enabled(s, step)
    requires var t := Next(s, step); TakenFor(t, key) != [] && !IsProcessing(t, key)
    ensures var t := Next(s, step);
      if Finishes(s, step, key) then
        LastTaken(t, key) == s.workers[step.worker].job
      else
        TakenFor(s, key) == TakenFor(t, key) && !IsProcessing(s, key)
  {
    hide Next, Inv, ProcessesLastTaken, IsProcessing;
    if Finishes(s, step, key) {
      FinishedIsLastTaken(s, step, key);
    } else {
      ProcessingGoesOn(s, step, key);
      TakingStartsProcessing(s, step, key);
    }
  }

  lemma FinishedIsLastTaken(s: State, step: Step, key: Key)
    requires ProcessesLastTaken(s) && Enabled(s, step) && Finishes(s, step, key)
    ensures var t := Next(s, step); TakenFor(t, key) != [] && LastTaken(t, key) == s.workers[step.worker].job
  {
    hide Inv;
    assert s.workers[step.worker].Processing?;
  }

  lemma ProcessingGoesOn(s: State, step: Step, key: Key)
    requires Enabled(s, step) && !Finishes(s, step, key)
    ensures IsProcessing(s, key) ==> IsProcessing(Next(s, step), key)
  {
    if w :| 0 <= w < |s.workers| && s.workers[w].Processing? && s.workers[w].job.queueKey == key {
      ProcessingStartsAndStops(s, step, w);
      hide Next, Enabled;
      assert Next(s, step).workers[w] == s.workers[w];
    }
  }

  /** A worker that has just taken a job of a resource is processing it. */
  lemma TakingStartsProcessing(s: State, step: Step, key: Key)
    requires Inv(s) && Enabled(s, step)
    ensures TakenFor(Next(s, step), key) == TakenFor(s, key) || IsProcessing(Next(s, step), key)
  {
    assert HistoryOf(s, key);
    TakingStep(s, step, key);
  }

  // ---------------------------------------------------------------------------------------------
  // When the queue has drained
  // ---------------------------------------------------------------------------------------------

  /** No step but adding a job is left, and there is a worker. */
  ghost predicate IsDrained(s: State) {
    s.workers != [] && forall step | Enabled(s, step) :: step.AddStore?
  }

  function LastStored(s: State, key: Key): Job
    requires StoredFor(s, key) != []
  {
    StoredFor(s, key)[|StoredFor(s, key)| - 1]
  }

  /** Whatever was stored, replaced, taken and finished in whatever order, and whatever calls failed: when the queue has
      drained, the job stored last for a resource has been synchronized, and nothing has touched the objects of the
      resource since. */
  lemma LastStoredHasLastWord(world: World, states: seq<State>, steps: seq<Step>, outcomes: seq<Outcome>,
                              backends: seq<map<ApiObject, Payload>>, controllerName: string, key: Key)
    returns (n: nat)
    requires IsSyncRun(world, states, steps, outcomes, backends) && HasProperKeys(controllerName, steps)
    requires IsDrained(states[|steps|]) && StoredFor(states[|steps|], key) != []
    ensures HasLastWord(world, states, steps, backends, LastStored(states[|steps|], key), n, |steps|)
  {
    var s := states[|steps|];
    ReachableInv(states, steps, |steps|);
    DrainedQueueHasProcessedEverything(s, key);
    DrainedMeansNotProcessing(s, key);
    n := LastTakenHasLastWord(world, states, steps, outcomes, backends, controllerName, key, |steps|);
  }

  lemma DrainedMeansNotProcessing(s: State, key: Key)
    requires IsDrained(s)
    ensures !IsProcessing(s, key)
  {
    forall w | 0 <= w < |s.workers|
      ensures !s.workers[w].Processing?
    {
      assert !Enabled(s, DoneCount(w));
    }
  }

  /** What a job wants an object of its resource to be. */
  ghost function Wanted(world: World, job: Job, o: ApiObject): Option<Payload> {
    if world.decode(job.content).action == DeleteAction then None
    else SentPayload(world.conversions, world.ItemsOf(job), o)
  }

  /** A rule of the job stands for the object, but is not sent: it is invalid or cannot be converted, or, for a
      deletion, has no name. */
  ghost predicate IsSpared(world: World, job: Job, o: ApiObject) {
    var content, items := world.decode(job.content), world.ItemsOf(job);
    IsUnsent(world.conversions, content.action, items, o)
  }

  /** Whether a job removes an object of its resource that it does not want, if the call for that succeeds: only if it
      gets to see that the object exists, or, for a deletion that does without a listing, if a rule stands for it. */
  ghost predicate Removes(world: World, job: Job, listing: Listing, o: ApiObject) {
    var content := world.decode(job.content);
    && !IsSpared(world, job, o)
    && if listing.Known? then o in listing.objects
       else content.action == DeleteAction && content.gone && o in KeptObjects(world.ItemsOf(job))
  }

  /** What a job leaves of an object of its resource if its calls succeed. */
  ghost function Left(world: World, job: Job, listing: Listing, before: map<ApiObject, Payload>, o: ApiObject)
    : Option<Payload>
  {
    if Wanted(world, job, o).Some? || Removes(world, job, listing, o) then Wanted(world, job, o) else Lookup(before, o)
  }

  /** What a job leaves behind if its calls succeed, whatever it gets to see. */
  lemma JobLeaves(world: World, job: Job, outcome: Outcome, before: map<ApiObject, Payload>, o: ApiObject)
    requires AllHealthy(outcome.faults) && IsUnder(world.PrefixOf(job.queueKey), outcome.listing)
    ensures world.PrefixOf(job.queueKey) <= o.origin ==>
      Lookup(Synced(world, job, outcome, before), o) == Left(world, job, outcome.listing, before, o)
  {
    var content, prefix, items := world.decode(job.content), world.PrefixOf(job.queueKey), world.ItemsOf(job);
    ItemsAreProper(prefix, content.spec);
    hide Items, ServeAll, SyncRequests, SentPayload, ProperItems, IsRequested, KeptObjects, AllHealthy, Judge;
    if content.action == DeleteAction {
      RequestOfDeletion(world.conversions, prefix, items, content.gone, outcome.listing, o);
    } else {
      RequestOfUpsert(world.conversions, prefix, items, content.gone, outcome.listing, o);
    }
    var wanted := Wanted(world, job, o);
    var request := if wanted.Some? then Some(Put(wanted.value))
      else if Removes(world, job, outcome.listing, o) then Some(Delete) else None;
    RequestDecides(world.conversions, prefix, items, content.action, content.gone, outcome.listing, outcome.faults,
                   before, o, request);
  }

  /** The only request for an object, if any, decides what it becomes if it succeeds. */
  lemma RequestDecides(conversions: Conversions, prefix: string, items: seq<RuleItem>, action: Action, gone: bool,
                       listing: Listing, faults: Faults, before: map<ApiObject, Payload>, o: ApiObject,
                       request: Option<Verb>)
    requires ProperItems(prefix, items) && (listing.Known? ==> NoDuplicates(listing.objects)) && AllHealthy(faults)
    requires forall verb :: IsRequested(conversions, items, action, gone, listing, o, verb) <==> request == Some(verb)
    ensures var after := ServeAll(before, SyncRequests(conversions, items, action, gone, listing), faults);
      Lookup(after, o) == match request
        case None => Lookup(before, o)
        case Some(Delete) => None
        case Some(Put(payload)) => Some(payload)
  {
    hide SyncRequests, ServeAll, ProperItems;
    SyncChanges(conversions, prefix, items, action, gone, listing, faults, before, o);
    if request.Some? {
      assert IsRequested(conversions, items, action, gone, listing, o, request.value);
    }
  }

  ghost predicate IsUnsent(conversions: Conversions, action: Action, items: seq<RuleItem>, o: ApiObject) {
    exists i :: 0 <= i < |items| && items[i].Target() == o && !Judge(conversions, action, items[i]).Send?
  }

  /** At most one rule stands for an object. */
  lemma OneRulePerObject(conversions: Conversions, prefix: string, action: Action, items: seq<RuleItem>, o: ApiObject)
    requires ProperItems(prefix, items)
    ensures o !in KeptObjects(items) <==> forall i | 0 <= i < |items| :: items[i].Target() != o
    ensures forall i | 0 <= i < |items| && items[i].Target() == o ::
      Judge(conversions, action, items[i]).Send? <==> !IsUnsent(conversions, action, items, o)
  {
    assert forall i | 0 <= i < |items| :: KeptObjects(items)[i] == items[i].Target();
  }

  lemma RequestOfDeletion(conversions: Conversions, prefix: string, items: seq<RuleItem>, gone: bool, listing: Listing,
                          o: ApiObject)
    requires ProperItems(prefix, items)
    ensures forall verb :: IsRequested(conversions, items, DeleteAction, gone, listing, o, verb) <==>
      && verb == Delete && !IsUnsent(conversions, DeleteAction, items, o)
      && if listing.Known? then o in listing.objects else gone && o in KeptObjects(items)
  {
    OneRulePerObject(conversions, prefix, DeleteAction, items, o);
    assert forall i | 0 <= i < |items| && Judge(conversions, DeleteAction, items[i]).Send? ::
      Judge(conversions, DeleteAction, items[i]) == Send(Delete);
    hide KeptObjects, ProperItems, Judge;
    if o in KeptObjects(items) && !IsUnsent(conversions, DeleteAction, items, o) {
      var i :| 0 <= i < |items| && items[i].Target() == o;
      assert SendsFor(conversions, DeleteAction, items[i], o, Delete);
    }
  }

  lemma RequestOfUpsert(conversions: Conversions, prefix: string, items: seq<RuleItem>, gone: bool, listing: Listing,
                        o: ApiObject)
    requires ProperItems(prefix, items)
    ensures var sent := SentPayload(conversions, items, o);
      forall verb :: IsRequested(conversions, items, UpsertAction, gone, listing, o, verb) <==>
        if sent.Some? then verb == Put(sent.value)
        else && verb == Delete && !IsUnsent(conversions, UpsertAction, items, o)
             && listing.Known? && o in listing.objects
  {
    OneRulePerObject(conversions, prefix, UpsertAction, items, o);
    assert forall i | 0 <= i < |items| && Judge(conversions, UpsertAction, items[i]).Send? ::
      Judge(conversions, UpsertAction, items[i]).verb.Put?;
    UpsertSends(conversions, prefix, items, o);
    hide KeptObjects, ProperItems, Judge;
    if o in KeptObjects(items) && !IsUnsent(conversions, UpsertAction, items, o) {
      var i :| 0 <= i < |items| && items[i].Target() == o;
      assert SendsFor(conversions, UpsertAction, items[i], o, Judge(conversions, UpsertAction, items[i]).verb);
    }
  }

  lemma UpsertSends(conversions: Conversions, prefix: string, items: seq<RuleItem>, o: ApiObject)
    requires ProperItems(prefix, items)
    ensures var sent := SentPayload(conversions, items, o);
      && (forall i, verb | 0 <= i < |items| && SendsFor(conversions, UpsertAction, items[i], o, verb) ::
            sent.Some? && verb == Put(sent.value))
      && (sent.Some? ==>
            exists i :: 0 <= i < |items| && SendsFor(conversions, UpsertAction, items[i], o, Put(sent.value)))
  {
    var sent := SentPayload(conversions, items, o);
    forall i, verb | 0 <= i < |items| && SendsFor(conversions, UpsertAction, items[i], o, verb)
      ensures sent.Some? && verb == Put(sent.value)
    {
      assert verb.Put? && SendsFor(conversions, UpsertAction, items[i], o, Put(verb.payload));
      var j :| 0 <= j < |items| && SendsFor(conversions, UpsertAction, items[j], o, Put(sent.value));
      assert items[i].origin == items[j].origin;
    }
  }

  ghost predicate CallsSucceed(steps: seq<Step>, outcomes: seq<Outcome>)
    requires |outcomes| == |steps|
  {
    forall i | 0 <= i < |steps| && steps[i].DoneCount? :: AllHealthy(outcomes[i].faults)
  }

  /** When the queue has drained and no call has failed, whatever the jobs got to see, also from listings that failed or
      were out of date: every object of a resource that the job stored last wants is as it wants it; of the others,
      those that this job removes are gone, and the rest is as this job has found it. */
  lemma DrainedQueueLeaves(world: World, states: seq<State>, steps: seq<Step>, outcomes: seq<Outcome>,
                           backends: seq<map<ApiObject, Payload>>, controllerName: string, key: Key)
    returns (n: nat)
    requires IsSyncRun(world, states, steps, outcomes, backends) && HasProperKeys(controllerName, steps)
    requires CallsSucceed(steps, outcomes)
    requires IsDrained(states[|steps|]) && StoredFor(states[|steps|], key) != []
    ensures var job := LastStored(states[|steps|], key);
      && n < |steps| && IsFinished(states[n], steps[n], job)
      && forall o: ApiObject | world.PrefixOf(key) <= o.origin ::
        Lookup(backends[|steps|], o) == Left(world, job, outcomes[n].listing, backends[n], o)
  {
    var job := LastStored(states[|steps|], key);
    ReachableInv(states, steps, |steps|);
    assert HistoryOf(states[|steps|], key);
    n := LastStoredHasLastWord(world, states, steps, outcomes, backends, controllerName, key);
    hide IsDecisive, Wanted, Synced, Removes, IsUnder, IsRun, Inv;
    assert IsEffect(world, states[n], steps[n], outcomes[n], backends[n], backends[n + 1]);
    forall o: ApiObject | world.PrefixOf(key) <= o.origin
      ensures Lookup(backends[|steps|], o) == Left(world, job, outcomes[n].listing, backends[n], o)
    {
      JobLeaves(world, job, outcomes[n], backends[n], o);
    }
  }

  /** The objects of the resource are as the job wants them. */
  ghost predicate BackendIsAsWanted(world: World, job: Job, backend: map<ApiObject, Payload>) {
    forall o: ApiObject | world.PrefixOf(job.queueKey) <= o.origin :: Lookup(backend, o) == Wanted(world, job, o)
  }

  /** When the queue has drained and no call has failed, the objects of a resource are exactly those that the job stored
      last wants, if and only if this job removed every object that it found and did not want. */
  lemma DrainedQueueConvergesIff(world: World, states: seq<State>, steps: seq<Step>, outcomes: seq<Outcome>,
                                 backends: seq<map<ApiObject, Payload>>, controllerName: string, key: Key)
    returns (n: nat)
    requires IsSyncRun(world, states, steps, outcomes, backends) && HasProperKeys(controllerName, steps)
    requires CallsSucceed(steps, outcomes)
    requires IsDrained(states[|steps|]) && StoredFor(states[|steps|], key) != []
    ensures var job := LastStored(states[|steps|], key);
      && n < |steps| && IsFinished(states[n], steps[n], job)
      && (BackendIsAsWanted(world, job, backends[|steps|]) <==>
          forall o | o in backends[n] && world.PrefixOf(key) <= o.origin && Wanted(world, job, o).None? ::
            Removes(world, job, outcomes[n].listing, o))
  {
    var job := LastStored(states[|steps|], key);
    ReachableInv(states, steps, |steps|);
    assert HistoryOf(states[|steps|], key);
    n := DrainedQueueLeaves(world, states, steps, outcomes, backends, controllerName, key);
    hide IsDecisive, Wanted, Synced, Removes, IsSyncRun, Inv, HistoryOf, HasProperKeys, CallsSucceed, IsDrained;
    if BackendIsAsWanted(world, job, backends[|steps|]) {
      forall o | o in backends[n] && world.PrefixOf(key) <= o.origin && Wanted(world, job, o).None?
        ensures Removes(world, job, outcomes[n].listing, o)
      {
        assert Lookup(backends[|steps|], o) == Wanted(world, job, o);
      }
    }
  }

  // ---------------------------------------------------------------------------------------------
  // Listings that are still right
  // ---------------------------------------------------------------------------------------------

  /** From step f on and before step n, no job of the resource has been finished. */
  ghost predicate IsUntouched(states: seq<State>, steps: seq<Step>, key: Key, f: int, n: int)
    requires IsRun(states, steps)
  {
    && 0 <= f <= n <= |steps|
    && forall i | f <= i < n :: !Finishes(states[i], steps[i], key)
  }

  /** The objects that the job of step n gets to see are those of its resource at some earlier moment, since when no job
      of the resource has been finished. This is the case for a listing of its own, and for one that it shares with the
      other jobs of a resync, if no other job has come between. */
  ghost predicate IsUpToDate(world: World, states: seq<State>, steps: seq<Step>, outcomes: seq<Outcome>,
                             backends: seq<map<ApiObject, Payload>>, key: Key, n: int)
    requires IsSyncRun(world, states, steps, outcomes, backends) && 0 <= n < |steps|
  {
    && outcomes[n].listing.Known?
    && exists f :: IsUntouched(states, steps, key, f, n)
                   && IsListing(backends[f], world.PrefixOf(key), outcomes[n].listing.objects)
  }

  lemma {:induction false} UntouchedObjectsStay(world: World, states: seq<State>, steps: seq<Step>,
                                                outcomes: seq<Outcome>, backends: seq<map<ApiObject, Payload>>,
                                                controllerName: string, key: Key, f: nat, n: nat)
    requires IsSyncRun(world, states, steps, outcomes, backends) && HasProperKeys(controllerName, steps)
    requires IsProperKey(controllerName, key) && IsUntouched(states, steps, key, f, n)
    ensures AgreeUnder(world.PrefixOf(key), backends[f], backends[n])
  {
    hide AgreeUnder, IsEffect, Init, HasProperKeys, IsProperKey, Next, Finishes;
    if f == n {
      AgreeWithItself(world.PrefixOf(key), backends[n]);
    } else {
      UntouchedObjectsStay(world, states, steps, outcomes, backends, controllerName, key, f, n - 1);
      OtherStepsDoNotInterfere(world, states, steps, outcomes, backends, controllerName, key, n - 1);
      AgreeTransitively(world.PrefixOf(key), backends[f], backends[n - 1], backends[n]);
    }
  }

  /** A listing that is up to date in this sense is one of the objects that exist now. */
  lemma UpToDateListing(world: World, states: seq<State>, steps: seq<Step>, outcomes: seq<Outcome>,
                        backends: seq<map<ApiObject, Payload>>, controllerName: string, key: Key, n: nat)
    requires IsSyncRun(world, states, steps, outcomes, backends) && HasProperKeys(controllerName, steps)
    requires IsProperKey(controllerName, key) && n < |steps|
    requires IsUpToDate(world, states, steps, outcomes, backends, key, n)
    ensures IsListing(backends[n], world.PrefixOf(key), outcomes[n].listing.objects)
  {
    var f :| IsUntouched(states, steps, key, f, n) &&
             IsListing(backends[f], world.PrefixOf(key), outcomes[n].listing.objects);
    UntouchedObjectsStay(world, states, steps, outcomes, backends, controllerName, key, f, n);
    forall o: ApiObject | world.PrefixOf(key) <= o.origin
      ensures o in backends[n] <==> o in backends[f]
    {
      assert Lookup(backends[n], o) == Lookup(backends[f], o);
    }
  }

  /** All calls succeed, and every job gets to see the existing objects of its resource. */
  ghost predicate NothingFails(world: World, states: seq<State>, steps: seq<Step>, outcomes: seq<Outcome>,
                               backends: seq<map<ApiObject, Payload>>)
    requires IsSyncRun(world, states, steps, outcomes, backends)
  {
    && CallsSucceed(steps, outcomes)
    && forall i | 0 <= i < |steps| && steps[i].DoneCount? ::
      IsUpToDate(world, states, steps, outcomes, backends, states[i].workers[steps[i].worker].job.queueKey, i)
  }

  /** A job that says of every object of its resource what has to become of it: all rules are valid, or, for a deletion,
      have a name. */
  ghost predicate IsDecisive(world: World, job: Job) {
    var items := world.ItemsOf(job);
    if world.decode(job.content).action == DeleteAction then
      forall i | 0 <= i < |items| :: !items[i].IsNameless()
    else
      AllRulesValid(world.conversions, items)
  }

  lemma DecisiveJobSparesNothing(world: World, job: Job, o: ApiObject)
    requires IsDecisive(world, job)
    ensures !IsSpared(world, job, o)
  {
  }

  /** When the queue has drained and nothing has failed, the objects of each resource are exactly those that the job
      stored last for it wants, whatever was there before and whatever other jobs there were. */
  lemma DrainedQueueConverges(world: World, states: seq<State>, steps: seq<Step>, outcomes: seq<Outcome>,
                              backends: seq<map<ApiObject, Payload>>, controllerName: string, key: Key)
    requires IsSyncRun(world, states, steps, outcomes, backends) && HasProperKeys(controllerName, steps)
    requires NothingFails(world, states, steps, outcomes, backends)
    requires IsDrained(states[|steps|]) && StoredFor(states[|steps|], key) != []
    requires IsDecisive(world, LastStored(states[|steps|], key))
    ensures BackendIsAsWanted(world, LastStored(states[|steps|], key), backends[|steps|])
  {
    var job := LastStored(states[|steps|], key);
    ReachableInv(states, steps, |steps|);
    assert HistoryOf(states[|steps|], key);
    JobKeysAreProper(states, steps, controllerName, key, |steps|);
    var n := DrainedQueueConvergesIff(world, states, steps, outcomes, backends, controllerName, key);
    assert IsUpToDate(world, states, steps, outcomes, backends, key, n);
    hide IsDecisive, Wanted, Inv, HistoryOf, HasProperKeys, CallsSucceed, IsDrained, BackendIsAsWanted, IsRun, Init,
         IsUpToDate, IsSpared, IsProperKey, IsEffect;
    UpToDateListing(world, states, steps, outcomes, backends, controllerName, key, n);
    forall o
      ensures !IsSpared(world, job, o)
    {
      DecisiveJobSparesNothing(world, job, o);
    }
  }

  /** Objects that belong to no resource with a stored job stay as they are, in every run. */
  lemma {:induction false} OtherObjectsStay(world: World, states: seq<State>, steps: seq<Step>, outcomes: seq<Outcome>,
                                            backends: seq<map<ApiObject, Payload>>, o: ApiObject, m: nat)
    requires IsSyncRun(world, states, steps, outcomes, backends) && m <= |steps|
    requires forall key | StoredFor(states[m], key) != [] :: !(world.PrefixOf(key) <= o.origin)
    ensures Lookup(backends[m], o) == Lookup(backends[0], o)
  {
    if m > 0 {
      var l := m - 1;
      forall key
        ensures StoredFor(states[l], key) <= StoredFor(states[m], key)
      {
        HistoryOnlyGrows(states, steps, key, l, m);
      }
      OtherObjectsStay(world, states, steps, outcomes, backends, o, l);
      assert IsEffect(world, states[l], steps[l], outcomes[l], backends[l], backends[l + 1]);
      if steps[l].DoneCount? {
        var job := states[l].workers[steps[l].worker].job;
        ProcessedKeyIsStored(states, steps, l, steps[l].worker);
        SyncedStaysUnderPrefix(world, job, outcomes[l], backends[l], o);
      }
    }
  }
}
