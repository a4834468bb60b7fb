/** The queue of synchronization jobs: a map with the latest job per resource, layered over a work queue of keys,
    used by any number of concurrent adders and workers whose operations are not atomic. */
module SyncQueue {
  import opened Common

  datatype Key = Key(controllerName: string, namespace: string, name: string)

  /** A job, identified by what it carries, and the key it was added under. */
  datatype Job = Job(queueKey: Key, content: string)

  // ---------------------------------------------------------------------------------------------
  // The work queue of client-go, before it is shut down: each operation is atomic
  // ---------------------------------------------------------------------------------------------

  /** Keys that need processing are dirty, keys that are being processed are in the processing set. */
  datatype WorkQueue = WorkQueue(queue: seq<Key>, dirty: set<Key>, processing: set<Key>) {
    function Add(key: Key): WorkQueue {
      if key in dirty then this
      else if key in processing then this.(dirty := dirty + {key})
      else this.(dirty := dirty + {key}, queue := queue + [key])
    }

    function Get(): WorkQueue
      requires queue != []
    {
      WorkQueue(queue[1..], dirty - {queue[0]}, processing + {queue[0]})
    }

    function Done(key: Key): WorkQueue {
      var rest := this.(processing := processing - {key});
      if key in dirty then rest.(queue := queue + [key]) else rest
    }

    /** The queue holds exactly the dirty keys that are not being processed, each once. */
    ghost predicate Valid() {
      && NoDuplicates(queue)
      && forall key :: key in queue <==> key in dirty && key !in processing
    }
  }

  // ---------------------------------------------------------------------------------------------
  // The interleaving of adders and workers
  // ---------------------------------------------------------------------------------------------

  /** An adder is between storing its job and adding the key to the work queue, or not in Add at all. */
  datatype Adder = Outside | Stored(key: Key)

  datatype Worker =
    | Idle
    | Holding(key: Key)      // in Get, between getting the key and taking the job
    | Empty(key: Key)        // in Get, found no job for the key
    | Processing(job: Job)   // returned from Get with this job
    | Finishing(key: Key)    // in Done, between counting the job as finished and marking the key as done

  function HeldKey(worker: Worker): Option<Key> {
    match worker
    case Idle => None
    case Holding(key) => Some(key)
    case Empty(key) => Some(key)
    case Processing(job) => Some(job.queueKey)
    case Finishing(key) => Some(key)
  }

  /** A job that has been taken, and how many jobs had been stored for its key before the last one at that moment. */
  datatype Take = Take(job: Job, position: int)

  /** The state of the queue and its users, with the history per key: all jobs stored and all jobs taken. */
  datatype State = State(
    keys: WorkQueue,
    pendingJobs: map<Key, Job>,
    inFlightJobs: int,
    adders: seq<Adder>,
    workers: seq<Worker>,
    stored: map<Key, seq<Job>>,
    taken: map<Key, seq<Take>>)

  function StoredFor(s: State, key: Key): seq<Job> {
    if key in s.stored then s.stored[key] else []
  }

  function TakenFor(s: State, key: Key): seq<Take> {
    if key in s.taken then s.taken[key] else []
  }

  datatype Step =
    | AddStore(adder: nat, key: Key, content: string)
    | AddEnqueue(adder: nat)
    | GetKey(worker: nat)
    | GetTake(worker: nat)
    | GetRetry(worker: nat)
    | DoneCount(worker: nat)
    | DoneKey(worker: nat)

  predicate Enabled(s: State, step: Step) {
    match step
    case AddStore(a, _, _) => a < |s.adders| && s.adders[a].Outside?
    case AddEnqueue(a) => a < |s.adders| && s.adders[a].Stored?
    case GetKey(w) => w < |s.workers| && s.workers[w].Idle? && s.keys.queue != []
    case GetTake(w) => w < |s.workers| && s.workers[w].Holding?
    case GetRetry(w) => w < |s.workers| && s.workers[w].Empty?
    case DoneCount(w) => w < |s.workers| && s.workers[w].Processing?
    case DoneKey(w) => w < |s.workers| && s.workers[w].Finishing?
  }

  function Next(s: State, step: Step): State
    requires Enabled(s, step)
  {
    match step
    case AddStore(a, key, content) =>
      var job := Job(key, content);
      s.(pendingJobs := s.pendingJobs[key := job],
         adders := s.adders[a := Stored(key)],
         stored := s.stored[key := StoredFor(s, key) + [job]])
    case AddEnqueue(a) =>
      s.(keys := s.keys.Add(s.adders[a].key), adders := s.adders[a := Outside])
    case GetKey(w) =>
      s.(keys := s.keys.Get(), workers := s.workers[w := Holding(s.keys.queue[0])])
    case GetTake(w) =>
      var key := s.workers[w].key;
      if key in s.pendingJobs then
        s.(pendingJobs := s.pendingJobs - {key},
           inFlightJobs := s.inFlightJobs + 1,
           workers := s.workers[w := Processing(s.pendingJobs[key])],
           taken := s.taken[key := TakenFor(s, key) + [Take(s.pendingJobs[key], |StoredFor(s, key)| - 1)]])
      else
        s.(workers := s.workers[w := Empty(key)])
    case GetRetry(w) =>
      s.(keys := s.keys.Done(s.workers[w].key), workers := s.workers[w := Idle])
    case DoneCount(w) =>
      s.(inFlightJobs := s.inFlightJobs - 1, workers := s.workers[w := Finishing(s.workers[w].job.queueKey)])
    case DoneKey(w) =>
      s.(keys := s.keys.Done(s.workers[w].key), workers := s.workers[w := Idle])
  }

  predicate Init(s: State) {
    && s.keys == WorkQueue([], {}, {})
    && s.pendingJobs == map[] && s.inFlightJobs == 0 && s.stored == map[] && s.taken == map[]
    && (forall a | 0 <= a < |s.adders| :: s.adders[a].Outside?)
    && forall w | 0 <= w < |s.workers| :: s.workers[w].Idle?
  }

  // ---------------------------------------------------------------------------------------------
  // The invariant
  // ---------------------------------------------------------------------------------------------

  function Sum<T>(s: seq<T>, weight: T -> nat): nat {
    if s == [] then 0 else Sum(s[..|s| - 1], weight) + weight(s[|s| - 1])
  }

  lemma {:induction false} SumUpdate<T>(s: seq<T>, weight: T -> nat, i: nat, x: T)
    requires i < |s|
    ensures Sum(s[i := x], weight) == Sum(s, weight) - weight(s[i]) + weight(x)
  {
    var n := |s| - 1;
    if i < n {
      assert s[i := x][..n] == s[..n][i := x];
      SumUpdate(s[..n], weight, i, x);
    } else {
      assert s[i := x][..n] == s[..n];
    }
  }

  lemma {:induction false} SumIsZero<T>(s: seq<T>, weight: T -> nat)
    ensures Sum(s, weight) == 0 <==> forall i | 0 <= i < |s| :: weight(s[i]) == 0
  {
    if s != [] {
      SumIsZero(s[..|s| - 1], weight);
    }
  }

  function InFlight(worker: Worker): nat {
    if worker.Processing? then 1 else 0
  }

  /** The keys being processed are those that the workers hold, and no two workers hold the same one. */
  ghost predicate WorkersHoldTheirKeys(s: State) {
    && s.keys.Valid()
    && (forall v, w | 0 <= v < w < |s.workers| && HeldKey(s.workers[v]).Some? ::
      HeldKey(s.workers[v]) != HeldKey(s.workers[w]))
    && (forall w | 0 <= w < |s.workers| && HeldKey(s.workers[w]).Some? ::
      HeldKey(s.workers[w]).value in s.keys.processing)
    && forall key | key in s.keys.processing ::
      exists w :: 0 <= w < |s.workers| && HeldKey(s.workers[w]) == Some(key)
  }

  ghost predicate IsAnnounced(s: State, key: Key) {
    || key in s.keys.dirty
    || (exists a :: 0 <= a < |s.adders| && s.adders[a] == Stored(key))
    || exists w :: 0 <= w < |s.workers| && s.workers[w] == Holding(key)
  }

  /** No pending job is forgotten: its key is dirty, or an adder is about to make it so, or a worker is about to
      take it. */
  ghost predicate NoLostJob(s: State) {
    forall key | key in s.pendingJobs :: IsAnnounced(s, key)
  }

  /** The history of one key: jobs are taken in the order in which they are stored, none of them twice; the pending
      job is the one stored last and has not been taken; without a pending job the one stored last has been taken.
      */
  ghost predicate History(key: Key, stored: seq<Job>, taken: seq<Take>, pending: Option<Job>) {
    && (forall i | 0 <= i < |taken| :: 0 <= taken[i].position < |stored| && taken[i].job == stored[taken[i].position])
    && (forall i, j | 0 <= i < j < |taken| :: taken[i].position < taken[j].position)
    && (forall i | 0 <= i < |stored| :: stored[i].queueKey == key)
    && (match pending
        case Some(job) =>
          && stored != [] && job == stored[|stored| - 1]
          && (taken != [] ==> taken[|taken| - 1].position < |stored| - 1)
        case None =>
          stored != [] ==> taken != [] && taken[|taken| - 1].position == |stored| - 1)
  }

  ghost predicate HistoryOf(s: State, key: Key) {
    History(key, StoredFor(s, key), TakenFor(s, key), Lookup(s.pendingJobs, key))
  }

  ghost predicate Inv(s: State) {
    && WorkersHoldTheirKeys(s)
    && NoLostJob(s)
    && s.inFlightJobs == Sum(s.workers, InFlight)
    && forall key :: HistoryOf(s, key)
  }

  lemma InitEstablishesInv(s: State)
    requires Init(s)
    ensures Inv(s)
  {
    SumIsZero(s.workers, InFlight);
  }

  function Held(worker: Worker): set<Key> {
    if HeldKey(worker).Some? then {HeldKey(worker).value} else {}
  }

  /** One worker releases what it holds and holds something that nobody else does. */
  lemma WorkerMovesOn(s: State, t: State, w: nat, worker: Worker)
    requires WorkersHoldTheirKeys(s) && w < |s.workers| && t.workers == s.workers[w := worker]
    requires t.keys.Valid() && t.keys.processing == s.keys.processing - Held(s.workers[w]) + Held(worker)
    requires Held(worker) * s.keys.processing <= Held(s.workers[w])
    ensures WorkersHoldTheirKeys(t)
  {
    KeptHolders(s, t, w);
    assert HeldKey(t.workers[w]) == HeldKey(worker);
  }

  lemma NextKeepsKeys(s: State, step: Step)
    requires Inv(s) && Enabled(s, step)
    ensures WorkersHoldTheirKeys(Next(s, step))
  {
    hide WorkersHoldTheirKeys, NoLostJob, Sum;
    ValidKeys(s);
    match step
    case AddStore(a, key, content) => AddKeepsKeys(s, step);
    case AddEnqueue(a) => AddKeepsKeys(s, step);
    case GetKey(w) => GetKeepsKeys(s, w);
    case GetTake(w) =>
      assert HistoryOf(s, s.workers[w].key);
      WorkerMovesOn(s, Next(s, step), w, Next(s, step).workers[w]);
    case GetRetry(w) => DoneKeepsKeys(s, step, w);
    case DoneCount(w) => WorkerMovesOn(s, Next(s, step), w, Next(s, step).workers[w]);
    case DoneKey(w) => DoneKeepsKeys(s, step, w);
  }

  lemma AddKeepsKeys(s: State, step: Step)
    requires WorkersHoldTheirKeys(s) && Enabled(s, step) && (step.AddStore? || step.AddEnqueue?)
    ensures WorkersHoldTheirKeys(Next(s, step))
  {
    if step.AddEnqueue? {
      AddKeepsValid(s.keys, s.adders[step.adder].key);
    }
  }

  lemma GetKeepsKeys(s: State, w: nat)
    requires WorkersHoldTheirKeys(s) && Enabled(s, GetKey(w))
    ensures WorkersHoldTheirKeys(Next(s, GetKey(w)))
  {
    GetKeepsValid(s.keys);
    WorkerMovesOn(s, Next(s, GetKey(w)), w, Holding(s.keys.queue[0]));
  }

  lemma DoneKeepsKeys(s: State, step: Step, w: nat)
    requires WorkersHoldTheirKeys(s) && Enabled(s, step) && (step == GetRetry(w) || step == DoneKey(w))
    ensures WorkersHoldTheirKeys(Next(s, step))
  {
    DoneKeepsValid(s.keys, s.workers[w].key);
    WorkerMovesOn(s, Next(s, step), w, Idle);
  }

  lemma ValidKeys(s: State)
    requires WorkersHoldTheirKeys(s)
    ensures s.keys.Valid()
    ensures forall w | 0 <= w < |s.workers| :: Held(s.workers[w]) <= s.keys.processing
  {
  }

  lemma GetKeepsValid(keys: WorkQueue)
    requires keys.Valid() && keys.queue != []
    ensures keys.Get().Valid() && keys.queue[0] !in keys.processing
  {
    var key := keys.queue[0];
    assert key in keys.queue;
    assert forall k :: k in keys.queue[1..] <==> k in keys.queue && k != key;
  }

  lemma AddKeepsValid(keys: WorkQueue, key: Key)
    requires keys.Valid()
    ensures keys.Add(key).Valid()
  {
    var queue := keys.Add(key).queue;
    assert forall k :: k in queue <==> k in keys.queue || (k == key && key !in keys.dirty && key !in keys.processing);
  }

  lemma DoneKeepsValid(keys: WorkQueue, key: Key)
    requires keys.Valid() && key in keys.processing
    ensures keys.Done(key).Valid()
  {
    var queue := keys.Done(key).queue;
    assert key !in keys.queue;
    assert forall k :: k in queue <==> k in keys.queue || (k == key && key in keys.dirty);
  }

  /** Keys held by other workers stay held. */
  lemma KeptHolders(s: State, t: State, w: nat)
    requires WorkersHoldTheirKeys(s)
    requires w < |s.workers| == |t.workers| && t.workers == s.workers[w := t.workers[w]]
    ensures forall key | key in s.keys.processing && HeldKey(s.workers[w]) != Some(key) ::
      exists v :: 0 <= v < |t.workers| && HeldKey(t.workers[v]) == Some(key)
  {
    forall key | key in s.keys.processing && HeldKey(s.workers[w]) != Some(key)
      ensures exists v :: 0 <= v < |t.workers| && HeldKey(t.workers[v]) == Some(key)
    {
      var v :| 0 <= v < |s.workers| && HeldKey(s.workers[v]) == Some(key);
      assert t.workers[v] == s.workers[v];
    }
  }

  lemma NextLosesNoJob(s: State, step: Step)
    requires Inv(s) && Enabled(s, step)
    ensures NoLostJob(Next(s, step))
  {
    var t := Next(s, step);
    forall key | key in t.pendingJobs
      ensures IsAnnounced(t, key)
    {
      match step
      case AddStore(a, k, content) =>
        if key == k {
          assert t.adders[a] == Stored(key);
        } else {
          AnnouncementCarriesOver(s, t, key, step);
        }
      case AddEnqueue(a) =>
        AnnouncementCarriesOver(s, t, key, step);
      case GetKey(w) =>
        if key == s.keys.queue[0] {
          assert t.workers[w] == Holding(key);
        } else {
          AnnouncementCarriesOver(s, t, key, step);
        }
      case GetTake(w) =>
        AnnouncementCarriesOver(s, t, key, step);
      case GetRetry(w) =>
        AnnouncementCarriesOver(s, t, key, step);
      case DoneCount(w) =>
        AnnouncementCarriesOver(s, t, key, step);
      case DoneKey(w) =>
        AnnouncementCarriesOver(s, t, key, step);
    }
  }

  /** An announcement stays in place unless the step is the one that passes it on. */
  lemma AnnouncementCarriesOver(s: State, t: State, key: Key, step: Step)
    requires IsAnnounced(s, key) && Enabled(s, step) && t == Next(s, step)
    requires key in s.pendingJobs && key in t.pendingJobs
    requires step.GetKey? ==> key != s.keys.queue[0]
    ensures IsAnnounced(t, key)
  {
    if key in s.keys.dirty {
      assert key in t.keys.dirty;
    } else if a :| 0 <= a < |s.adders| && s.adders[a] == Stored(key) {
      AdderCarriesOver(s, t, key, step, a);
    } else {
      var w :| 0 <= w < |s.workers| && s.workers[w] == Holding(key);
      WorkerCarriesOver(s, t, key, step, w);
    }
  }

  lemma AdderCarriesOver(s: State, t: State, key: Key, step: Step, a: nat)
    requires Enabled(s, step) && t == Next(s, step) && a < |s.adders| && s.adders[a] == Stored(key)
    ensures IsAnnounced(t, key)
  {
    if step == AddEnqueue(a) {
      assert key in t.keys.dirty;
    } else {
      assert t.adders[a] == Stored(key);
    }
  }

  lemma WorkerCarriesOver(s: State, t: State, key: Key, step: Step, w: nat)
    requires Enabled(s, step) && t == Next(s, step) && w < |s.workers| && s.workers[w] == Holding(key)
    requires key in s.pendingJobs && key in t.pendingJobs
    ensures IsAnnounced(t, key)
  {
    assert step != GetTake(w);
    assert t.workers[w] == Holding(key);
  }

  lemma StoringKeepsHistory(key: Key, stored: seq<Job>, taken: seq<Take>, pending: Option<Job>, content: string)
    requires History(key, stored, taken, pending)
    ensures History(key, stored + [Job(key, content)], taken, Some(Job(key, content)))
  {
  }

  lemma TakingKeepsHistory(key: Key, stored: seq<Job>, taken: seq<Take>, job: Job)
    requires History(key, stored, taken, Some(job))
    ensures History(key, stored, taken + [Take(job, |stored| - 1)], None)
  {
    var taken' := taken + [Take(job, |stored| - 1)];
    forall i, j | 0 <= i < j < |taken'|
      ensures taken'[i].position < taken'[j].position
    {
      if j == |taken| && i < |taken| - 1 {
        assert taken[i].position < taken[|taken| - 1].position;
      }
    }
  }

  lemma NextKeepsHistory(s: State, step: Step, key: Key)
    requires HistoryOf(s, key) && Enabled(s, step)
    ensures HistoryOf(Next(s, step), key)
  {
    hide History;
    match step
    case AddStore(_, k, content) =>
      if k == key {
        StoringKeepsHistory(key, StoredFor(s, key), TakenFor(s, key), Lookup(s.pendingJobs, key), content);
      }
    case GetTake(w) =>
      if s.workers[w].key == key && key in s.pendingJobs {
        TakingKeepsHistory(key, StoredFor(s, key), TakenFor(s, key), s.pendingJobs[key]);
      }
    case _ =>
  }

  lemma NextKeepsInv(s: State, step: Step)
    requires Inv(s) && Enabled(s, step)
    ensures Inv(Next(s, step))
  {
    NextKeepsKeys(s, step);
    NextLosesNoJob(s, step);
    hide WorkersHoldTheirKeys, NoLostJob, HistoryOf;
    forall key
      ensures HistoryOf(Next(s, step), key)
    {
      NextKeepsHistory(s, step, key);
    }
    NextKeepsCount(s, step);
  }

  lemma NextKeepsCount(s: State, step: Step)
    requires s.inFlightJobs == Sum(s.workers, InFlight) && Enabled(s, step)
    ensures var t := Next(s, step); t.inFlightJobs == Sum(t.workers, InFlight)
  {
    hide Sum;
    match step
    case AddStore(_, _, _) =>
    case AddEnqueue(_) =>
    case GetKey(w) => SumUpdate(s.workers, InFlight, w, Next(s, step).workers[w]);
    case GetTake(w) => SumUpdate(s.workers, InFlight, w, Next(s, step).workers[w]);
    case GetRetry(w) => SumUpdate(s.workers, InFlight, w, Next(s, step).workers[w]);
    case DoneCount(w) => SumUpdate(s.workers, InFlight, w, Next(s, step).workers[w]);
    case DoneKey(w) => SumUpdate(s.workers, InFlight, w, Next(s, step).workers[w]);
  }

  // ---------------------------------------------------------------------------------------------
  // The sections that run under the lock of the queue: each is one step of the interleaving
  // ---------------------------------------------------------------------------------------------

  class ThirdPartyResourceSyncQueue {
    var pendingJobs: map<Key, Job>
    var inFlightJobs: int

    constructor ()
      ensures pendingJobs == map[] && inFlightJobs == 0
    {
      pendingJobs, inFlightJobs := map[], 0;
    }

    /** The fields are those of the given state. */
    ghost predicate IsPartOf(s: State)
      reads this
    {
      pendingJobs == s.pendingJobs && inFlightJobs == s.inFlightJobs
    }

    /** The locked section of Add. */
    method Store(key: Key, content: string, ghost s: State, ghost adder: nat)
      requires IsPartOf(s) && Enabled(s, AddStore(adder, key, content))
      modifies this`pendingJobs
      ensures IsPartOf(Next(s, AddStore(adder, key, content)))
    {
      var job := Job(key, content);
      pendingJobs := pendingJobs[key := job];
    }

    /** The locked section of Get, for the key that the worker has got from the work queue. */
    method Take(key: Key, ghost s: State, ghost worker: nat) returns (job: Option<Job>)
      requires IsPartOf(s) && Enabled(s, GetTake(worker)) && s.workers[worker] == Holding(key)
      modifies this
      ensures IsPartOf(Next(s, GetTake(worker)))
      ensures Next(s, GetTake(worker)).workers[worker] == if job.Some? then Processing(job.value) else Empty(key)
    {
      job := Lookup(pendingJobs, key);
      pendingJobs := pendingJobs - {key};
      if job.Some? {
        inFlightJobs := inFlightJobs + 1;
      }
    }

    /** The locked section of Done. */
    method Finish(ghost s: State, ghost worker: nat)
      requires IsPartOf(s) && Enabled(s, DoneCount(worker))
      modifies this`inFlightJobs
      ensures IsPartOf(Next(s, DoneCount(worker)))
    {
      inFlightJobs := inFlightJobs - 1;
    }

    /** What is outstanding: the pending jobs, and the jobs of the workers that are processing one. */
    method Len(ghost s: State) returns (n: int)
      requires IsPartOf(s) && Inv(s)
      ensures n == |s.pendingJobs| + Sum(s.workers, InFlight)
    {
      n := |pendingJobs| + inFlightJobs;
    }
  }

  // ---------------------------------------------------------------------------------------------
  // Every run
  // ---------------------------------------------------------------------------------------------

  /** A key that waits in the queue moves up whenever a worker gets another one, and is never overtaken. */
  lemma WaitingKeyMovesUp(s: State, step: Step, key: Key, p: nat)
    requires Enabled(s, step) && p < |s.keys.queue| && s.keys.queue[p] == key
    ensures var t := Next(s, step);
      if !step.GetKey? then p < |t.keys.queue| && t.keys.queue[p] == key
      else if p > 0 then p - 1 < |t.keys.queue| && t.keys.queue[p - 1] == key
      else t.workers[step.worker] == Holding(key)
  {
  }

  function Gets(steps: seq<Step>): nat {
    if steps == [] then 0 else Gets(steps[..|steps| - 1]) + if steps[|steps| - 1].GetKey? then 1 else 0
  }

  /** First in, first out: in every run, a key at position p of the queue is got by a worker after at most p others, no
      matter what is added meanwhile. */
  lemma {:induction false} WaitingKeyIsServed(states: seq<State>, steps: seq<Step>, key: Key, p: nat) returns (n: nat)
    requires IsRun(states, steps) && Gets(steps) > p
    requires p < |states[0].keys.queue| && states[0].keys.queue[p] == key
    ensures n < |steps| && steps[n].GetKey? && states[n + 1].workers[steps[n].worker] == Holding(key)
    ensures Gets(steps[..n]) == p
  {
    n := GetNumber(steps, p);
    PositionAfter(states, steps, key, p, n);
    WaitingKeyMovesUp(states[n], steps[n], key, 0);
    assert states[n + 1] == Next(states[n], steps[n]);
  }

  /** The step at which a worker gets a key after the given number of others. */
  lemma {:induction false} GetNumber(steps: seq<Step>, p: nat) returns (n: nat)
    requires Gets(steps) > p
    ensures n < |steps| && steps[n].GetKey? && Gets(steps[..n]) == p
  {
    n := |steps| - 1;
    if Gets(steps[..n]) > p {
      var m := GetNumber(steps[..n], p);
      assert steps[..n][..m] == steps[..m];
      n := m;
    }
  }

  lemma {:induction false} PositionAfter(states: seq<State>, steps: seq<Step>, key: Key, p: nat, n: nat)
    requires IsRun(states, steps) && n <= |steps| && Gets(steps[..n]) <= p
    requires p < |states[0].keys.queue| && states[0].keys.queue[p] == key
    ensures var q := p - Gets(steps[..n]);
      q < |states[n].keys.queue| && states[n].keys.queue[q] == key
  {
    if n > 0 {
      assert steps[..n][..n - 1] == steps[..n - 1];
      PositionAfter(states, steps, key, p, n - 1);
      assert Enabled(states[n - 1], steps[n - 1]) && states[n - 1 + 1] == Next(states[n - 1], steps[n - 1]);
      hide IsRun, Next, Enabled;
      WaitingKeyMovesUp(states[n - 1], steps[n - 1], key, p - Gets(steps[..n - 1]));
    }
  }

  ghost predicate IsRun(states: seq<State>, steps: seq<Step>) {
    && |states| == |steps| + 1
    && forall i | 0 <= i < |steps| :: Enabled(states[i], steps[i]) && states[i + 1] == Next(states[i], steps[i])
  }

  lemma {:induction false} RunKeepsInv(states: seq<State>, steps: seq<Step>)
    requires IsRun(states, steps) && Inv(states[0])
    ensures Inv(states[|steps|])
  {
    if steps != [] {
      var n := |steps| - 1;
      RunKeepsInv(states[..n + 1], steps[..n]);
      NextKeepsInv(states[n], steps[n]);
    }
  }

  /** In every reachable state, no two workers process jobs for the same resource. */
  lemma NoResourceIsProcessedTwice(states: seq<State>, steps: seq<Step>, v: nat, w: nat)
    requires IsRun(states, steps) && Init(states[0])
    requires v < w < |states[|steps|].workers|
    requires states[|steps|].workers[v].Processing? && states[|steps|].workers[w].Processing?
    ensures states[|steps|].workers[v].job.queueKey != states[|steps|].workers[w].job.queueKey
  {
    InitEstablishesInv(states[0]);
    RunKeepsInv(states, steps);
  }

  /** In every reachable state, Len is the number of pending jobs plus the number of workers with a job, so it is 0
      exactly if no job is outstanding. */
  lemma LenCountsOutstandingJobs(states: seq<State>, steps: seq<Step>)
    requires IsRun(states, steps) && Init(states[0])
    ensures var s := states[|steps|];
      && |s.pendingJobs| + s.inFlightJobs == |s.pendingJobs| + Sum(s.workers, InFlight)
      && (|s.pendingJobs| + s.inFlightJobs == 0 <==>
          s.pendingJobs == map[] && forall w | 0 <= w < |s.workers| :: !s.workers[w].Processing?)
  {
    InitEstablishesInv(states[0]);
    RunKeepsInv(states, steps);
    SumIsZero(states[|steps|].workers, InFlight);
    assert |states[|steps|].pendingJobs| == 0 <==> states[|steps|].pendingJobs == map[];
  }

  /** What one step adds to the history of a key. */
  lemma StepExtendsHistory(s: State, step: Step, key: Key)
    requires Enabled(s, step)
    ensures var t := Next(s, step);
      && StoredFor(s, key) <= StoredFor(t, key)
      && TakenFor(s, key) <= TakenFor(t, key)
      && (|TakenFor(t, key)| == |TakenFor(s, key)| ||
          (|TakenFor(t, key)| == |TakenFor(s, key)| + 1 &&
           TakenFor(t, key)[|TakenFor(s, key)|].position == |StoredFor(s, key)| - 1))
      && (step.AddStore? && step.key == key ==>
          |StoredFor(t, key)| == |StoredFor(s, key)| + 1 && TakenFor(t, key) == TakenFor(s, key))
  {
    match step
    case AddStore(_, _, _) =>
    case GetTake(_) =>
    case _ =>
  }

  /** Along a run, the history of a key only grows. */
  lemma {:induction false} HistoryOnlyGrows(states: seq<State>, steps: seq<Step>, key: Key, n: nat, m: nat)
    requires IsRun(states, steps) && n <= m <= |steps|
    ensures StoredFor(states[n], key) <= StoredFor(states[m], key)
    ensures TakenFor(states[n], key) <= TakenFor(states[m], key)
  {
    if n < m {
      HistoryOnlyGrows(states, steps, key, n, m - 1);
      StepExtendsHistory(states[m - 1], steps[m - 1], key);
      hide Next, StoredFor, TakenFor;
      assert states[m] == Next(states[m - 1], steps[m - 1]);
    }
  }

  ghost predicate StoresAt(states: seq<State>, steps: seq<Step>, key: Key, position: nat, n: int)
    requires |states| == |steps| + 1
  {
    0 <= n < |steps| && steps[n].AddStore? && steps[n].key == key && |StoredFor(states[n], key)| == position
  }

  /** Every stored job has been stored by some step. */
  lemma {:induction false} StoringStep(states: seq<State>, steps: seq<Step>, key: Key, position: nat) returns (n: nat)
    requires IsRun(states, steps) && Init(states[0])
    requires position < |StoredFor(states[|steps|], key)|
    ensures StoresAt(states, steps, key, position, n)
  {
    var m := |steps| - 1;
    if m >= 0 && position >= |StoredFor(states[m], key)| {
      assert states[m + 1] == Next(states[m], steps[m]);
      n := m;
    } else {
      assert IsRun(states[..m + 1], steps[..m]);
      n := StoringStep(states[..m + 1], steps[..m], key, position);
    }
  }

  ghost predicate IsTaken(s: State, key: Key, position: nat) {
    exists i :: 0 <= i < |TakenFor(s, key)| && TakenFor(s, key)[i].position == position
  }

  ghost predicate IsTakenOnce(s: State, key: Key, position: nat)
    requires position < |StoredFor(s, key)|
  {
    exists i :: 0 <= i < |TakenFor(s, key)| && TakenFor(s, key)[i] == Take(StoredFor(s, key)[position], position) &&
      forall j | 0 <= j < |TakenFor(s, key)| && j != i :: TakenFor(s, key)[j].position != position
  }

  lemma TakenMeansTakenOnce(s: State, key: Key, position: nat)
    requires HistoryOf(s, key) && position < |StoredFor(s, key)|
    ensures IsTaken(s, key, position) <==> IsTakenOnce(s, key, position)
  {
    if i :| 0 <= i < |TakenFor(s, key)| && TakenFor(s, key)[i].position == position {
      assert TakenFor(s, key)[i] == Take(StoredFor(s, key)[position], position);
    }
  }

  /** Some store has overwritten the job while it was pending. */
  ghost predicate IsReplaced(states: seq<State>, steps: seq<Step>, key: Key, position: nat)
    requires |states| == |steps| + 1 && position < |StoredFor(states[|steps|], key)|
  {
    exists n ::
      && StoresAt(states, steps, key, position + 1, n)
      && Lookup(states[n].pendingJobs, key) == Some(StoredFor(states[|steps|], key)[position])
  }

  ghost predicate IsPending(s: State, key: Key, position: nat) {
    key in s.pendingJobs && position == |StoredFor(s, key)| - 1
  }

  /** Whether the job that is stored last is taken before the next one is stored is settled at that moment. */
  lemma {:induction false} LaterTakesAreOfLaterJobs(states: seq<State>, steps: seq<Step>, key: Key, n: nat, m: nat,
                                                    i: nat)
    requires IsRun(states, steps) && n <= m <= |steps|
    requires |TakenFor(states[n], key)| <= i < |TakenFor(states[m], key)|
    ensures TakenFor(states[m], key)[i].position >= |StoredFor(states[n], key)| - 1
  {
    hide Next, StoredFor, TakenFor;
    assert states[m] == Next(states[m - 1], steps[m - 1]);
    StepExtendsHistory(states[m - 1], steps[m - 1], key);
    HistoryOnlyGrows(states, steps, key, n, m - 1);
    if i < |TakenFor(states[m - 1], key)| {
      LaterTakesAreOfLaterJobs(states, steps, key, n, m - 1, i);
    }
  }

  lemma ReachableInv(states: seq<State>, steps: seq<Step>, n: nat)
    requires IsRun(states, steps) && Init(states[0]) && n <= |steps|
    ensures Inv(states[n])
  {
    InitEstablishesInv(states[0]);
    assert IsRun(states[..n + 1], steps[..n]);
    RunKeepsInv(states[..n + 1], steps[..n]);
  }

  /** A job that another one is stored after has either been taken by then or is overwritten while it is pending, and in
      the second case it is never taken. */
  lemma OverwrittenMeansNotTaken(states: seq<State>, steps: seq<Step>, key: Key, position: nat, n: nat)
    requires IsRun(states, steps) && Init(states[0])
    requires StoresAt(states, steps, key, position + 1, n)
    ensures position < |StoredFor(states[|steps|], key)|
    ensures key !in states[n].pendingJobs <==> IsTaken(states[|steps|], key, position)
    ensures key in states[n].pendingJobs ==> states[n].pendingJobs[key] == StoredFor(states[|steps|], key)[position]
  {
    var last := states[|steps|];
    ReachableInv(states, steps, n);
    assert HistoryOf(states[n], key);
    HistoryOnlyGrows(states, steps, key, n, |steps|);
    HistoryOnlyGrows(states, steps, key, n + 1, |steps|);
    assert states[n + 1] == Next(states[n], steps[n]);
    assert TakenFor(states[n + 1], key) == TakenFor(states[n], key);
    assert |StoredFor(states[n + 1], key)| == position + 2;
    if key in states[n].pendingJobs {
      forall i | 0 <= i < |TakenFor(last, key)|
        ensures TakenFor(last, key)[i].position != position
      {
        if i < |TakenFor(states[n], key)| {
          TakenBeforePending(states[n], key, i);
        } else {
          LaterTakesAreOfLaterJobs(states, steps, key, n + 1, |steps|, i);
        }
      }
    } else {
      var i := |TakenFor(states[n], key)| - 1;
      assert TakenFor(last, key)[i].position == position;
    }
  }

  lemma TakenBeforePending(s: State, key: Key, i: nat)
    requires HistoryOf(s, key) && key in s.pendingJobs && i < |TakenFor(s, key)|
    ensures TakenFor(s, key)[i].position < |StoredFor(s, key)| - 1
  {
    var last := |TakenFor(s, key)| - 1;
    assert i < last ==> TakenFor(s, key)[i].position < TakenFor(s, key)[last].position;
  }

  /** At most one store brings a key to a given number of stored jobs. */
  lemma StoringStepIsUnique(states: seq<State>, steps: seq<Step>, key: Key, position: nat, n: nat, m: nat)
    requires IsRun(states, steps)
    requires StoresAt(states, steps, key, position, n) && StoresAt(states, steps, key, position, m)
    ensures n == m
  {
    if n < m {
      HistoryOnlyGrows(states, steps, key, n + 1, m);
    } else if m < n {
      HistoryOnlyGrows(states, steps, key, m + 1, n);
    }
  }

  /** In every reachable state, exactly one of three things is true of each stored job: it has been taken, once; it was
      overwritten by the next store while it was pending, and never taken; or it is the pending job of its key. */
  lemma EveryJobIsTakenOrReplaced(states: seq<State>, steps: seq<Step>, key: Key, position: nat)
    requires IsRun(states, steps) && Init(states[0])
    requires position < |StoredFor(states[|steps|], key)|
    ensures var s := states[|steps|];
      && (IsTakenOnce(s, key, position) || IsReplaced(states, steps, key, position) || IsPending(s, key, position))
      && !(IsTaken(s, key, position) && IsReplaced(states, steps, key, position))
      && !(IsTaken(s, key, position) && IsPending(s, key, position))
      && !(IsReplaced(states, steps, key, position) && IsPending(s, key, position))
  {
    var s := states[|steps|];
    ReachableInv(states, steps, |steps|);
    assert HistoryOf(s, key);
    TakenMeansTakenOnce(s, key, position);
    if position + 1 < |StoredFor(s, key)| {
      var next := position + 1;
      var n := StoringStep(states, steps, key, next);
      OverwrittenMeansNotTaken(states, steps, key, position, n);
      forall m | StoresAt(states, steps, key, next, m)
        ensures m == n
      {
        StoringStepIsUnique(states, steps, key, next, n, m);
      }
      assert IsReplaced(states, steps, key, position) <==> key in states[n].pendingJobs;
    } else {
      NothingStoredAfterLast(states, steps, key, position);
      if key in s.pendingJobs {
        forall i | 0 <= i < |TakenFor(s, key)|
          ensures TakenFor(s, key)[i].position != position
        {
          TakenBeforePending(s, key, i);
        }
      } else {
        assert TakenFor(s, key)[|TakenFor(s, key)| - 1].position == position;
      }
    }
  }

  lemma NothingStoredAfterLast(states: seq<State>, steps: seq<Step>, key: Key, position: nat)
    requires IsRun(states, steps) && position + 1 == |StoredFor(states[|steps|], key)|
    ensures !IsReplaced(states, steps, key, position)
  {
    var next := position + 1;
    forall n | StoresAt(states, steps, key, next, n)
      ensures false
    {
      HistoryOnlyGrows(states, steps, key, n + 1, |steps|);
      StepExtendsHistory(states[n], steps[n], key);
    }
  }

  /** In every reachable state, the jobs taken for a key are a subsequence of the jobs stored for it, which ends in the
      last stored one if none is pending. */
  lemma JobsAreTakenInOrder(states: seq<State>, steps: seq<Step>, key: Key)
    requires IsRun(states, steps) && Init(states[0])
    ensures var s := states[|steps|];
      var stored, taken := StoredFor(s, key), TakenFor(s, key);
      && (forall i | 0 <= i < |taken| :: 0 <= taken[i].position < |stored| && taken[i].job == stored[taken[i].position])
      && (forall i, j | 0 <= i < j < |taken| :: taken[i].position < taken[j].position)
      && (key !in s.pendingJobs && stored != [] ==> taken != [] && taken[|taken| - 1].job == stored[|stored| - 1])
  {
    InitEstablishesInv(states[0]);
    RunKeepsInv(states, steps);
    assert HistoryOf(states[|steps|], key);
  }

  // ---------------------------------------------------------------------------------------------
  // Progress
  // ---------------------------------------------------------------------------------------------

  function WorkerRank(worker: Worker): nat {
    match worker
    case Idle => 0
    case Holding(_) => 4
    case Empty(_) => 1
    case Processing(_) => 3
    case Finishing(_) => 1
  }

  function AdderRank(adder: Adder): nat {
    if adder.Stored? then 6 else 0
  }

  /** An upper bound for the number of steps until the queue is drained, if no further job is added. */
  function Rank(s: State): nat {
    Sum(s.adders, AdderRank) + 5 * |s.keys.dirty| + Sum(s.workers, WorkerRank)
  }

  lemma GetLeavesFewerDirtyKeys(keys: WorkQueue)
    requires keys.Valid() && keys.queue != []
    ensures |keys.Get().dirty| == |keys.dirty| - 1
  {
    assert keys.queue[0] in keys.queue;
  }

  lemma WorkerStepDrains(s: State, t: State, w: nat, worker: Worker)
    requires w < |s.workers| && t.workers == s.workers[w := worker] && t.adders == s.adders
    requires 5 * |t.keys.dirty| + WorkerRank(worker) < 5 * |s.keys.dirty| + WorkerRank(s.workers[w])
    ensures Rank(t) < Rank(s)
  {
    SumUpdate(s.workers, WorkerRank, w, worker);
  }

  lemma EnqueueDrains(s: State, a: nat)
    requires a < |s.adders| && s.adders[a].Stored?
    ensures Rank(Next(s, AddEnqueue(a))) < Rank(s)
  {
    SumUpdate(s.adders, AdderRank, a, Outside);
  }

  lemma EveryStepDrains(s: State, step: Step)
    requires s.keys.Valid() && Enabled(s, step) && !step.AddStore?
    ensures Rank(Next(s, step)) < Rank(s)
  {
    hide Rank;
    match step
    case AddEnqueue(a) => EnqueueDrains(s, a);
    case GetKey(w) => GetKeyDrains(s, w);
    case GetTake(w) => TakeOrFinishDrains(s, step, w);
    case GetRetry(w) => DoneDrains(s, step, w);
    case DoneCount(w) => TakeOrFinishDrains(s, step, w);
    case DoneKey(w) => DoneDrains(s, step, w);
  }

  lemma GetKeyDrains(s: State, w: nat)
    requires s.keys.Valid() && Enabled(s, GetKey(w))
    ensures Rank(Next(s, GetKey(w))) < Rank(s)
  {
    hide Rank;
    GetLeavesFewerDirtyKeys(s.keys);
    WorkerStepDrains(s, Next(s, GetKey(w)), w, Holding(s.keys.queue[0]));
  }

  lemma TakeOrFinishDrains(s: State, step: Step, w: nat)
    requires Enabled(s, step) && (step == GetTake(w) || step == DoneCount(w))
    ensures Rank(Next(s, step)) < Rank(s)
  {
    hide Rank;
    WorkerStepDrains(s, Next(s, step), w, Next(s, step).workers[w]);
  }

  lemma DoneDrains(s: State, step: Step, w: nat)
    requires Enabled(s, step) && (step == GetRetry(w) || step == DoneKey(w))
    ensures Rank(Next(s, step)) < Rank(s)
  {
    hide Rank;
    WorkerStepDrains(s, Next(s, step), w, Idle);
  }

  /** However its steps are interleaved, a run in which no job is added ends after a bounded number of steps. */
  lemma {:induction false} DrainingEnds(states: seq<State>, steps: seq<Step>)
    requires IsRun(states, steps) && Inv(states[0])
    requires forall i | 0 <= i < |steps| :: !steps[i].AddStore?
    ensures |steps| + Rank(states[|steps|]) <= Rank(states[0])
  {
    if steps != [] {
      var n := |steps| - 1;
      DrainingEnds(states[..n + 1], steps[..n]);
      RunKeepsInv(states[..n + 1], steps[..n]);
      EveryStepDrains(states[n], steps[n]);
    }
  }

  /** It does not end before everything is processed: when no step other than adding is left, no job is pending or in
      flight, and for every resource the job that was stored last has been taken. */
  lemma DrainedQueueHasProcessedEverything(s: State, key: Key)
    requires Inv(s) && s.workers != []
    requires forall step | Enabled(s, step) :: step.AddStore?
    ensures s.pendingJobs == map[] && s.inFlightJobs == 0
    ensures var stored, taken := StoredFor(s, key), TakenFor(s, key);
      stored != [] ==>
        taken != [] && taken[|taken| - 1] == Take(stored[|stored| - 1], |stored| - 1)
  {
    forall w | 0 <= w < |s.workers|
      ensures s.workers[w].Idle?
    {
      assert !Enabled(s, GetTake(w)) && !Enabled(s, GetRetry(w));
      assert !Enabled(s, DoneCount(w)) && !Enabled(s, DoneKey(w));
    }
    forall a | 0 <= a < |s.adders|
      ensures s.adders[a].Outside?
    {
      assert !Enabled(s, AddEnqueue(a));
    }
    assert !Enabled(s, GetKey(0));
    assert s.keys.processing == {};
    SumIsZero(s.workers, InFlight);
    forall k
      ensures k !in s.pendingJobs
    {
      assert k !in s.keys.queue;
    }
    assert HistoryOf(s, key);
  }
}
