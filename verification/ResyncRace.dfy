/** Events and resyncs of one resource race for the queue: a resync (or a retry) enqueues the contents that it has read
    earlier, and an event the contents that it is about. */
module ResyncRace {
  import opened Common
  import opened RuleOrigins
  import opened Dash0Backend
  import opened RuleSync
  import opened SyncQueue
  import opened QueueConvergence

  /** One version of the resource, with the contents of the job that is enqueued for it. A deletion is a version,
      too. */
  datatype Version = Present(upsert: string) | Deleted(deletion: string)

  function ContentOf(version: Version): string {
    match version
    case Present(upsert) => upsert
    case Deleted(deletion) => deletion
  }

  /** A resync that has read the first so many versions and not enqueued the last one of them yet, or is done. */
  datatype Resync = Reading(read: nat) | Over

  /** All versions of the resource so far, how many of them its events have been handled for, the resyncs, and the jobs
      enqueued for the resource, each as the number of versions up to the one it carries. */
  datatype Race = Race(versions: seq<Version>, handled: nat, resyncs: seq<Resync>, enqueued: seq<nat>)

  datatype Move =
    | Change(version: Version)
    | Handle                      // the event handler enqueues the next version
    | Read                        // a new resync lists the resource, if it exists
    | Enqueue(resync: nat)        // a resync enqueues what it has read

  predicate Exists(r: Race) {
    r.versions != [] && r.versions[|r.versions| - 1].Present?
  }

  predicate Possible(r: Race, move: Move) {
    match move
    case Change(version) => version.Present? || Exists(r)
    case Handle => r.handled < |r.versions|
    case Read => Exists(r)
    case Enqueue(i) => i < |r.resyncs| && r.resyncs[i].Reading?
  }

  function After(r: Race, move: Move): Race
    requires Possible(r, move)
  {
    match move
    case Change(version) => r.(versions := r.versions + [version])
    case Handle => r.(handled := r.handled + 1, enqueued := r.enqueued + [r.handled + 1])
    case Read => r.(resyncs := r.resyncs + [Reading(|r.versions|)])
    case Enqueue(i) => r.(resyncs := r.resyncs[i := Over], enqueued := r.enqueued + [r.resyncs[i].read])
  }

  const START := Race([], 0, [], [])

  ghost predicate IsRaceRun(races: seq<Race>, moves: seq<Move>) {
    && |races| == |moves| + 1 && races[0] == START
    && forall i | 0 <= i < |moves| :: Possible(races[i], moves[i]) && races[i + 1] == After(races[i], moves[i])
  }

  /** All events are handled and no resync is under way. */
  predicate IsQuiet(r: Race) {
    r.handled == |r.versions| && forall i | 0 <= i < |r.resyncs| :: r.resyncs[i].Over?
  }

  /** The job enqueued last carries the latest version. */
  predicate LatestIsLast(r: Race)
    requires r.enqueued != []
  {
    r.enqueued[|r.enqueued| - 1] == |r.versions|
  }

  /** A resync reads the resource, which then changes for the last time; the event for this change is handled; only then
      the resync enqueues what it has read, and nothing is enqueued after that. */
  ghost predicate IsOvertaken(races: seq<Race>, moves: seq<Move>, read: int, change: int, handle: int, enqueue: int)
    requires IsRaceRun(races, moves)
  {
    && 0 <= read < change < handle < enqueue < |moves|
    && moves[read].Read? && moves[change].Change? && moves[handle].Handle?
    && moves[enqueue] == Enqueue(|races[read].resyncs|)
    && |races[change + 1].versions| == |races[|moves|].versions| == races[handle + 1].handled
    && |races[enqueue + 1].enqueued| == |races[|moves|].enqueued|
  }

  ghost predicate WasOvertaken(races: seq<Race>, moves: seq<Move>)
    requires IsRaceRun(races, moves)
  {
    exists read, change, handle, enqueue :: IsOvertaken(races, moves, read, change, handle, enqueue)
  }

  // ---------------------------------------------------------------------------------------------
  // Counting
  // ---------------------------------------------------------------------------------------------

  /** A sequence of numbers that starts at 0 and from each position to the next stays the same or grows by one. */
  ghost predicate Counts(s: seq<nat>) {
    s != [] && s[0] == 0 && forall i, j | 0 <= i < |s| && j == i + 1 < |s| :: s[i] <= s[j] <= s[i] + 1
  }

  lemma {:induction false} CountsGrow(s: seq<nat>, i: nat, j: nat)
    requires Counts(s) && i <= j < |s|
    ensures s[i] <= s[j]
  {
    if i < j {
      CountsGrow(s, i, j - 1);
    }
  }

  /** Each number below the last one is left at some position. */
  lemma {:induction false} LeavingPosition(s: seq<nat>, n: nat) returns (i: nat)
    requires Counts(s) && n < s[|s| - 1]
    ensures i + 1 < |s| && s[i] == n && s[i + 1] == n + 1
  {
    i := |s| - 2;
    if s[i] != n {
      i := LeavingPosition(s[..|s| - 1], n);
    }
  }

  function VersionCounts(races: seq<Race>): seq<nat> {
    seq(|races|, i requires 0 <= i < |races| => |races[i].versions|)
  }

  function HandledCounts(races: seq<Race>): seq<nat> {
    seq(|races|, i requires 0 <= i < |races| => races[i].handled)
  }

  function EnqueuedCounts(races: seq<Race>): seq<nat> {
    seq(|races|, i requires 0 <= i < |races| => |races[i].enqueued|)
  }

  function ResyncCounts(races: seq<Race>): seq<nat> {
    seq(|races|, i requires 0 <= i < |races| => |races[i].resyncs|)
  }

  lemma MoveCounts(r: Race, move: Move)
    requires Possible(r, move)
    ensures var t := After(r, move);
      && |t.versions| == |r.versions| + (if move.Change? then 1 else 0)
      && t.handled == r.handled + (if move.Handle? then 1 else 0)
      && |t.resyncs| == |r.resyncs| + (if move.Read? then 1 else 0)
      && |t.enqueued| == |r.enqueued| + (if move.Handle? || move.Enqueue? then 1 else 0)
  {
  }

  lemma AllCount(races: seq<Race>, moves: seq<Move>)
    requires IsRaceRun(races, moves)
    ensures Counts(VersionCounts(races)) && Counts(HandledCounts(races))
    ensures Counts(EnqueuedCounts(races)) && Counts(ResyncCounts(races))
  {
    forall i, j | 0 <= i < |races| && j == i + 1 < |races|
      ensures |races[i].versions| <= |races[j].versions| <= |races[i].versions| + 1
      ensures races[i].handled <= races[j].handled <= races[i].handled + 1
      ensures |races[i].enqueued| <= |races[j].enqueued| <= |races[i].enqueued| + 1
      ensures |races[i].resyncs| <= |races[j].resyncs| <= |races[i].resyncs| + 1
    {
      MoveCounts(races[i], moves[i]);
    }
  }

  // ---------------------------------------------------------------------------------------------
  // What resyncs have read
  // ---------------------------------------------------------------------------------------------

  /** Whatever is handled, read and enqueued are versions of the resource. */
  ghost predicate AreVersions(r: Race) {
    && r.handled <= |r.versions|
    && (forall i | 0 <= i < |r.resyncs| && r.resyncs[i].Reading? :: 0 < r.resyncs[i].read <= |r.versions|)
    && forall i | 0 <= i < |r.enqueued| :: 0 < r.enqueued[i] <= |r.versions|
  }

  lemma {:induction false} RunKeepsVersions(races: seq<Race>, moves: seq<Move>, n: nat)
    requires IsRaceRun(races, moves) && n <= |moves|
    ensures AreVersions(races[n])
  {
    if n > 0 {
      RunKeepsVersions(races, moves, n - 1);
      assert races[n - 1 + 1] == After(races[n - 1], moves[n - 1]);
    }
  }

  /** What a resync has read are the versions there were when it read. */
  lemma {:induction false} ResyncReads(races: seq<Race>, moves: seq<Move>, read: nat, n: nat)
    requires IsRaceRun(races, moves) && read < n <= |moves| && moves[read].Read?
    ensures var i := |races[read].resyncs|;
      && i < |races[n].resyncs|
      && (races[n].resyncs[i].Reading? ==> races[n].resyncs[i].read == |races[read].versions|)
  {
    if read + 1 < n {
      ResyncReads(races, moves, read, n - 1);
    }
    assert races[n - 1 + 1] == After(races[n - 1], moves[n - 1]);
  }

  /** Jobs stay where they are in the order in which they were enqueued. */
  lemma {:induction false} EnqueuedOnlyGrows(races: seq<Race>, moves: seq<Move>, n: nat, m: nat)
    requires IsRaceRun(races, moves) && n <= m <= |moves|
    ensures races[n].enqueued <= races[m].enqueued
  {
    if n < m {
      EnqueuedOnlyGrows(races, moves, n, m - 1);
      assert races[m - 1 + 1] == After(races[m - 1], moves[m - 1]);
    }
  }

  /** The move that has enqueued the last job. */
  lemma LastEnqueuing(races: seq<Race>, moves: seq<Move>) returns (n: nat)
    requires IsRaceRun(races, moves) && races[|moves|].enqueued != []
    ensures n < |moves| && (moves[n].Handle? || moves[n].Enqueue?)
    ensures races[n + 1].enqueued == races[|moves|].enqueued
  {
    AllCount(races, moves);
    n := LeavingPosition(EnqueuedCounts(races), |races[|moves|].enqueued| - 1);
    MoveCounts(races[n], moves[n]);
    EnqueuedOnlyGrows(races, moves, n + 1, |moves|);
  }

  // ---------------------------------------------------------------------------------------------
  // When the latest version has the last word
  // ---------------------------------------------------------------------------------------------

  /** In a quiet state, the job enqueued last carries the latest version of the resource, unless a resync was
      overtaken by the last change between reading and enqueuing, and nothing was enqueued after that; then it never
      does. */
  lemma LatestIsLastIff(races: seq<Race>, moves: seq<Move>)
    requires IsRaceRun(races, moves) && IsQuiet(races[|moves|]) && races[|moves|].enqueued != []
    ensures LatestIsLast(races[|moves|]) <==> !WasOvertaken(races, moves)
  {
    if read, change, handle, enqueue :| IsOvertaken(races, moves, read, change, handle, enqueue) {
      OvertakenReadIsLast(races, moves, read, change, handle, enqueue);
    }
    if !LatestIsLast(races[|moves|]) {
      var read, change, handle, enqueue := NotLatestIsOvertaken(races, moves);
    }
  }

  /** The resync that was overtaken has enqueued the last job, which carries what it had read. */
  lemma OvertakenReadIsLast(races: seq<Race>, moves: seq<Move>, read: nat, change: nat, handle: nat, enqueue: nat)
    requires IsRaceRun(races, moves) && IsOvertaken(races, moves, read, change, handle, enqueue)
    ensures races[|moves|].enqueued != []
    ensures races[|moves|].enqueued[|races[|moves|].enqueued| - 1] == |races[read].versions|
    ensures |races[read].versions| < |races[|moves|].versions|
  {
    AllCount(races, moves);
    assert VersionCounts(races)[read] == |races[read].versions|;
    CountsGrow(VersionCounts(races), read, change);
    MoveCounts(races[change], moves[change]);
    ResyncReads(races, moves, read, enqueue);
    EnqueuedOnlyGrows(races, moves, enqueue + 1, |moves|);
  }

  lemma NotLatestIsOvertaken(races: seq<Race>, moves: seq<Move>) returns (read: nat, change: nat, handle: nat,
                                                                          enqueue: nat)
    requires IsRaceRun(races, moves) && IsQuiet(races[|moves|]) && races[|moves|].enqueued != []
    requires !LatestIsLast(races[|moves|])
    ensures IsOvertaken(races, moves, read, change, handle, enqueue)
  {
    AllCount(races, moves);
    var last := races[|moves|];
    enqueue := LastEnqueuing(races, moves);
    if moves[enqueue].Handle? {
      LastHandling(races, moves, enqueue);
    }
    read := ReadingOf(races, moves, enqueue);
    ResyncReads(races, moves, read, enqueue);
    CountsGrow(VersionCounts(races), read, |moves|);
    change := LeavingPosition(VersionCounts(races), |last.versions| - 1);
    MoveCounts(races[change], moves[change]);
    handle := LeavingPosition(HandledCounts(races), |last.versions| - 1);
    MoveCounts(races[handle], moves[handle]);
    RunKeepsVersions(races, moves, handle + 1);
    if change < read {
      CountsGrow(VersionCounts(races), change + 1, read);
    }
    if handle < change {
      CountsGrow(VersionCounts(races), handle + 1, change);
    }
    if enqueue < handle {
      CountsGrow(EnqueuedCounts(races), enqueue + 1, handle);
      CountsGrow(EnqueuedCounts(races), handle + 1, |moves|);
    }
  }

  /** If the last job was enqueued by the event handler, it carries the latest version. */
  lemma LastHandling(races: seq<Race>, moves: seq<Move>, n: nat)
    requires IsRaceRun(races, moves) && IsQuiet(races[|moves|]) && races[|moves|].enqueued != []
    requires n < |moves| && races[n + 1].enqueued == races[|moves|].enqueued && moves[n].Handle?
    ensures LatestIsLast(races[|moves|])
  {
    AllCount(races, moves);
    var last := |races[|moves|].versions|;
    CountsGrow(HandledCounts(races), n + 1, |moves|);
    if races[n + 1].handled < last {
      var m := LeavingPosition(HandledCounts(races), last - 1);
      MoveCounts(races[m], moves[m]);
      if m < n {
        CountsGrow(HandledCounts(races), m + 1, n);
      } else {
        CountsGrow(EnqueuedCounts(races), n + 1, m);
        CountsGrow(EnqueuedCounts(races), m + 1, |moves|);
      }
    }
  }

  /** The move by which a resync has read what it enqueues. */
  lemma ReadingOf(races: seq<Race>, moves: seq<Move>, n: nat) returns (read: nat)
    requires IsRaceRun(races, moves) && n < |moves| && moves[n].Enqueue?
    ensures read < n && moves[read].Read? && |races[read].resyncs| == moves[n].resync
  {
    AllCount(races, moves);
    CountsGrow(ResyncCounts(races), n, |moves|);
    read := LeavingPosition(ResyncCounts(races), moves[n].resync);
    MoveCounts(races[read], moves[read]);
    if n <= read {
      CountsGrow(ResyncCounts(races), n, read);
    }
  }

  // ---------------------------------------------------------------------------------------------
  // What becomes of the objects of the resource
  // ---------------------------------------------------------------------------------------------

  /** The job for the version with the given number, counted from 1. */
  function JobFor(key: Key, r: Race, n: nat): Job
    requires 0 < n <= |r.versions|
  {
    Job(key, ContentOf(r.versions[n - 1]))
  }

  /** The jobs that the queue has stored for the resource are those of the race. */
  ghost predicate AreStored(r: Race, key: Key, s: State)
    requires AreVersions(r)
  {
    && |StoredFor(s, key)| == |r.enqueued|
    && forall i | 0 <= i < |r.enqueued| :: StoredFor(s, key)[i] == JobFor(key, r, r.enqueued[i])
  }

  /** Two jobs of a resource want the same objects. */
  ghost predicate WantTheSame(world: World, a: Job, b: Job) {
    forall o: ApiObject | world.PrefixOf(a.queueKey) <= o.origin :: Wanted(world, a, o) == Wanted(world, b, o)
  }

  /** The events and resyncs of a resource end in a quiet state, and the queue that they feed, among jobs for any other
      resources, drains without failed calls. What the jobs get to see can be out of date. */
  ghost predicate Settles(world: World, states: seq<State>, steps: seq<Step>, outcomes: seq<Outcome>,
                          backends: seq<map<ApiObject, Payload>>, controllerName: string, key: Key,
                          races: seq<Race>, moves: seq<Move>)
  {
    && IsRaceRun(races, moves) && IsQuiet(races[|moves|]) && races[|moves|].enqueued != []
    && IsSyncRun(world, states, steps, outcomes, backends) && HasProperKeys(controllerName, steps)
    && CallsSucceed(steps, outcomes) && IsDrained(states[|steps|])
    && AreVersions(races[|moves|]) && AreStored(races[|moves|], key, states[|steps|])
  }

  /** The job that was enqueued last. */
  function LastJob(key: Key, r: Race): Job
    requires AreVersions(r) && r.enqueued != []
  {
    JobFor(key, r, r.enqueued[|r.enqueued| - 1])
  }

  /** The job for the latest version. */
  function LatestJob(key: Key, r: Race): Job
    requires r.versions != []
  {
    JobFor(key, r, |r.versions|)
  }

  /** The objects end as the job enqueued last leaves them. */
  lemma LastEnqueuedDecides(world: World, states: seq<State>, steps: seq<Step>, outcomes: seq<Outcome>,
                            backends: seq<map<ApiObject, Payload>>, controllerName: string, key: Key,
                            races: seq<Race>, moves: seq<Move>)
    returns (n: nat)
    requires Settles(world, states, steps, outcomes, backends, controllerName, key, races, moves)
    ensures var job := LastJob(key, races[|moves|]);
      && job == LastStored(states[|steps|], key)
      && n < |steps| && IsFinished(states[n], steps[n], job)
      && forall o: ApiObject | world.PrefixOf(key) <= o.origin ::
        Lookup(backends[|steps|], o) == Left(world, job, outcomes[n].listing, backends[n], o)
  {
    n := DrainedQueueLeaves(world, states, steps, outcomes, backends, controllerName, key);
  }

  /** The objects end as the job of the resync that was overtaken by the last change leaves them. */
  lemma OvertakenResyncWins(world: World, states: seq<State>, steps: seq<Step>, outcomes: seq<Outcome>,
                            backends: seq<map<ApiObject, Payload>>, controllerName: string, key: Key,
                            races: seq<Race>, moves: seq<Move>, read: nat, change: nat, handle: nat, enqueue: nat)
    returns (n: nat)
    requires Settles(world, states, steps, outcomes, backends, controllerName, key, races, moves)
    requires IsOvertaken(races, moves, read, change, handle, enqueue)
    ensures 0 < |races[read].versions| < |races[|moves|].versions|
    ensures var job := JobFor(key, races[|moves|], |races[read].versions|);
      && n < |steps| && IsFinished(states[n], steps[n], job)
      && forall o: ApiObject | world.PrefixOf(key) <= o.origin ::
        Lookup(backends[|steps|], o) == Left(world, job, outcomes[n].listing, backends[n], o)
  {
    n := LastEnqueuedDecides(world, states, steps, outcomes, backends, controllerName, key, races, moves);
    OvertakenReadIsLast(races, moves, read, change, handle, enqueue);
    assert races[|moves|].enqueued[|races[|moves|].enqueued| - 1] > 0;
  }

  /** A job leaves the objects of its resource as another one wants them, also those that it does not touch. */
  ghost predicate LeavesAsWanted(world: World, job: Job, listing: Listing, before: map<ApiObject, Payload>, latest: Job)
  {
    forall o: ApiObject | world.PrefixOf(job.queueKey) <= o.origin ::
      Left(world, job, listing, before, o) == Wanted(world, latest, o)
  }

  /** The objects of the resource end as its latest version wants them if and only if the job enqueued last, with
      what it got to see, leaves them so. Unless a resync was overtaken, this is the job for the latest version, and
      then it is enough that it removes every object that it finds and does not want. */
  lemma BackendFollowsResourceIff(world: World, states: seq<State>, steps: seq<Step>, outcomes: seq<Outcome>,
                                  backends: seq<map<ApiObject, Payload>>, controllerName: string, key: Key,
                                  races: seq<Race>, moves: seq<Move>)
    returns (n: nat)
    requires Settles(world, states, steps, outcomes, backends, controllerName, key, races, moves)
    ensures races[|moves|].versions != []
    ensures var last, latest := LastJob(key, races[|moves|]), LatestJob(key, races[|moves|]);
      && n < |steps| && IsFinished(states[n], steps[n], last)
      && (BackendIsAsWanted(world, latest, backends[|steps|]) <==>
          LeavesAsWanted(world, last, outcomes[n].listing, backends[n], latest))
      && (!WasOvertaken(races, moves) ==> last == latest)
      && (last == latest ==>
          (LeavesAsWanted(world, last, outcomes[n].listing, backends[n], latest) <==>
           forall o | o in backends[n] && world.PrefixOf(key) <= o.origin && Wanted(world, latest, o).None? ::
             Removes(world, latest, outcomes[n].listing, o)))
  {
    var last, latest := LastJob(key, races[|moves|]), LatestJob(key, races[|moves|]);
    n := LastEnqueuedDecides(world, states, steps, outcomes, backends, controllerName, key, races, moves);
    LatestIsLastIff(races, moves);
    LeftAsWantedIff(world, last, outcomes[n].listing, backends[n], backends[|steps|], latest);
  }

  lemma LeftAsWantedIff(world: World, job: Job, listing: Listing, before: map<ApiObject, Payload>,
                        after: map<ApiObject, Payload>, latest: Job)
    requires latest.queueKey == job.queueKey
    requires forall o: ApiObject | world.PrefixOf(job.queueKey) <= o.origin ::
      Lookup(after, o) == Left(world, job, listing, before, o)
    ensures BackendIsAsWanted(world, latest, after) <==> LeavesAsWanted(world, job, listing, before, latest)
    ensures job == latest ==> (LeavesAsWanted(world, job, listing, before, latest) <==>
      forall o | o in before && world.PrefixOf(job.queueKey) <= o.origin && Wanted(world, job, o).None? ::
        Removes(world, job, listing, o))
  {
    hide Wanted, Removes;
    if LeavesAsWanted(world, job, listing, before, latest) {
      forall o: ApiObject | world.PrefixOf(job.queueKey) <= o.origin
        ensures Lookup(after, o) == Wanted(world, latest, o)
      {
        assert Lookup(after, o) == Left(world, job, listing, before, o);
      }
    }
  }

  /** If all jobs got to see the objects of their resource, what decides is the order alone: the objects of the
      resource end as its latest version wants them if and only if no resync was overtaken by the last change, or
      the version that it had read wants the same objects. */
  lemma OrderDecidesIff(world: World, states: seq<State>, steps: seq<Step>, outcomes: seq<Outcome>,
                        backends: seq<map<ApiObject, Payload>>, controllerName: string, key: Key,
                        races: seq<Race>, moves: seq<Move>)
    requires Settles(world, states, steps, outcomes, backends, controllerName, key, races, moves)
    requires NothingFails(world, states, steps, outcomes, backends)
    requires IsDecisive(world, LastJob(key, races[|moves|]))
    ensures races[|moves|].versions != []
    ensures var last := races[|moves|];
      BackendIsAsWanted(world, LatestJob(key, last), backends[|steps|]) <==>
      forall read, change, handle, enqueue | IsOvertaken(races, moves, read, change, handle, enqueue) ::
        && 0 < |races[read].versions| < |last.versions|
        && WantTheSame(world, JobFor(key, last, |races[read].versions|), LatestJob(key, last))
  {
    var last := races[|moves|];
    var n := LastEnqueuedDecides(world, states, steps, outcomes, backends, controllerName, key, races, moves);
    DrainedQueueConverges(world, states, steps, outcomes, backends, controllerName, key);
    LatestIsLastIff(races, moves);
    forall read, change, handle, enqueue | IsOvertaken(races, moves, read, change, handle, enqueue)
      ensures 0 < |races[read].versions| < |last.versions|
      ensures LastJob(key, last) == JobFor(key, last, |races[read].versions|)
    {
      OvertakenReadIsLast(races, moves, read, change, handle, enqueue);
      assert last.enqueued[|last.enqueued| - 1] > 0;
    }
    hide Settles, IsOvertaken, Wanted, IsRaceRun, NothingFails, IsDecisive, Left;
  }

  /** A resource is created and deleted while a resync is on its way from reading it to enqueuing it: everything
      comes to rest with the resource gone and the job enqueued last upserting it. */
  lemma DeletedResourceComesBack(upsert: string, deletion: string) returns (races: seq<Race>, moves: seq<Move>)
    ensures IsRaceRun(races, moves) && IsQuiet(races[|moves|]) && AreVersions(races[|moves|])
    ensures !Exists(races[|moves|]) && races[|moves|].versions == [Present(upsert), Deleted(deletion)]
    ensures forall key ::
      JobFor(key, races[|moves|], 1) == Job(key, upsert) && JobFor(key, races[|moves|], 2) == Job(key, deletion)
    ensures races[|moves|].enqueued == [1, 2, 1] && IsOvertaken(races, moves, 2, 3, 4, 5)
  {
    moves := [Change(Present(upsert)), Handle, Read, Change(Deleted(deletion)), Handle, Enqueue(0)];
    var created, gone := [Present(upsert)], [Present(upsert), Deleted(deletion)];
    races := [START, Race(created, 0, [], []), Race(created, 1, [], [1]), Race(created, 1, [Reading(1)], [1]),
              Race(gone, 1, [Reading(1)], [1]), Race(gone, 2, [Reading(1)], [1, 2]), Race(gone, 2, [Over], [1, 2, 1])];
  }
}
