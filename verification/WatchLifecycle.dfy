/** Starting and stopping the controller that watches a third-party resource type. The controller runs in its own
    goroutine, so it returns some time after it has been cancelled, and may also return on its own. */
module WatchLifecycle {
  import opened Common

  datatype Phase = Running | Returned | Finished

  /** A controller has returned once its Start has, and is finished once its goroutine has cleaned up after it. */
  datatype Controller = Controller(phase: Phase, cancelled: bool)

  /** Controllers are identified by the order in which they are started. A stop function belongs to one controller. */
  datatype State = State(controllers: seq<Controller>, stopFunction: Option<nat>)

  datatype Step =
    | Start(prerequisitesMet: bool)  // maybeStartWatchingThirdPartyResources
    | Stop                           // stopWatchingThirdPartyResources
    | Return(id: nat)                // Start of a controller returns, for whatever reason
    | CleanUp(id: nat)               // the rest of the goroutine, under the lock

  predicate Enabled(s: State, step: Step) {
    match step
    case Return(id) => id < |s.controllers| && s.controllers[id].phase.Running?
    case CleanUp(id) => id < |s.controllers| && s.controllers[id].phase.Returned?
    case _ => true
  }

  function Next(s: State, step: Step): State
    requires Enabled(s, step)
  {
    match step
    case Start(prerequisitesMet) =>
      if s.stopFunction.Some? || !prerequisitesMet then s
      else State(s.controllers + [Controller(Running, false)], Some(|s.controllers|))
    case Stop =>
      if s.stopFunction.None? || s.stopFunction.value >= |s.controllers| then s
      else
        var id := s.stopFunction.value;
        State(s.controllers[id := s.controllers[id].(cancelled := true)], None)
    case Return(id) =>
      s.(controllers := s.controllers[id := s.controllers[id].(phase := Returned)])
    case CleanUp(id) =>
      State(s.controllers[id := s.controllers[id].(phase := Finished)],
            if s.stopFunction == Some(id) then None else s.stopFunction)
  }

  predicate IsLive(controller: Controller) {
    !controller.cancelled && !controller.phase.Finished?
  }

  /** The stop function always belongs to the one controller that is neither cancelled nor finished. */
  ghost predicate Inv(s: State) {
    && (s.stopFunction.Some? ==> s.stopFunction.value < |s.controllers|)
    && forall id | 0 <= id < |s.controllers| :: IsLive(s.controllers[id]) <==> s.stopFunction == Some(id)
  }

  lemma NextKeepsInv(s: State, step: Step)
    requires Inv(s) && Enabled(s, step)
    ensures Inv(Next(s, step))
  {
  }

  ghost predicate IsRun(states: seq<State>, steps: seq<Step>) {
    && |states| == |steps| + 1
    && states[0] == State([], None)
    && forall i | 0 <= i < |steps| :: Enabled(states[i], steps[i]) && states[i + 1] == Next(states[i], steps[i])
  }

  lemma {:induction false} RunKeepsInv(states: seq<State>, steps: seq<Step>)
    requires IsRun(states, steps)
    ensures Inv(states[|steps|])
  {
    if steps != [] {
      var n := |steps| - 1;
      RunKeepsInv(states[..n + 1], steps[..n]);
      NextKeepsInv(states[n], steps[n]);
    }
  }

  /** In every reachable state at most one controller runs without having been cancelled, it is the one that the stop
      function belongs to, and without a stop function none does. */
  lemma AtMostOneLiveWatch(states: seq<State>, steps: seq<Step>, i: nat, j: nat)
    requires IsRun(states, steps)
    requires i < |states[|steps|].controllers| && j < |states[|steps|].controllers|
    requires IsLive(states[|steps|].controllers[i])
    ensures states[|steps|].stopFunction == Some(i)
    ensures IsLive(states[|steps|].controllers[j]) ==> i == j
  {
    RunKeepsInv(states, steps);
  }

  /** The late exit of a controller that has been stopped never clears the stop function of a newer one. */
  lemma LateExitKeepsNewerWatch(states: seq<State>, steps: seq<Step>, id: nat)
    requires IsRun(states, steps) && Enabled(states[|steps|], CleanUp(id))
    requires states[|steps|].controllers[id].cancelled
    ensures Next(states[|steps|], CleanUp(id)).stopFunction == states[|steps|].stopFunction
  {
    RunKeepsInv(states, steps);
  }

  /** A controller that returns on its own leaves no stop function behind, so that the watch can be started again. */
  lemma OwnExitAllowsRestart(states: seq<State>, steps: seq<Step>, id: nat)
    requires IsRun(states, steps) && Enabled(states[|steps|], CleanUp(id))
    requires !states[|steps|].controllers[id].cancelled
    ensures var s := Next(states[|steps|], CleanUp(id));
      && s.stopFunction == None
      && Next(s, Start(true)).stopFunction == Some(|s.controllers|)
      && IsLive(Next(s, Start(true)).controllers[|s.controllers|])
  {
    RunKeepsInv(states, steps);
  }

  /** In every run, each controller has been added, running and not cancelled, by a start with all prerequisites
      met, in a state without a stop function, which has been its own from then on. */
  lemma {:induction false} ControllersHaveBeenStarted(states: seq<State>, steps: seq<Step>, id: nat) returns (n: nat)
    requires IsRun(states, steps) && id < |states[|steps|].controllers|
    ensures n < |steps| && steps[n] == Start(true)
    ensures states[n].stopFunction == None && |states[n].controllers| == id
    ensures states[n + 1] == State(states[n].controllers + [Controller(Running, false)], Some(id))
  {
    var m := |steps| - 1;
    assert states[m + 1] == Next(states[m], steps[m]);
    if id < |states[m].controllers| {
      n := ControllersHaveBeenStarted(states[..m + 1], steps[..m], id);
    } else {
      n := m;
    }
  }

  /** A controller is cancelled only by a stop while the stop function is its own. */
  lemma {:induction false} CancelledByStop(states: seq<State>, steps: seq<Step>, id: nat) returns (n: nat)
    requires IsRun(states, steps)
    requires id < |states[|steps|].controllers| && states[|steps|].controllers[id].cancelled
    ensures n < |steps| && steps[n] == Stop && states[n].stopFunction == Some(id)
  {
    var m := |steps| - 1;
    assert states[m + 1] == Next(states[m], steps[m]);
    if id < |states[m].controllers| && states[m].controllers[id].cancelled {
      n := CancelledByStop(states[..m + 1], steps[..m], id);
    } else {
      n := m;
    }
  }

  /** The sections that run under the lock of the stop function. */
  class ThirdPartyResourceReconciler {
    var controllers: seq<Controller>
    var controllerStopFunction: Option<nat>

    ghost function View(): State
      reads this
    {
      State(controllers, controllerStopFunction)
    }

    constructor ()
      ensures View() == State([], None)
    {
      controllers, controllerStopFunction := [], None;
    }

    predicate IsWatching()
      reads this
    {
      controllerStopFunction.Some?
    }

    method MaybeStartWatching(crdExists: bool, hasValidApiConfig: bool, setupSucceeds: bool)
      modifies this
      ensures View() == Next(old(View()), Start(crdExists && hasValidApiConfig && setupSucceeds))
      ensures if crdExists && hasValidApiConfig && setupSucceeds && old(controllerStopFunction) == None
        then controllers == old(controllers) + [Controller(Running, false)] &&
             controllerStopFunction == Some(|old(controllers)|)
        else controllers == old(controllers) && controllerStopFunction == old(controllerStopFunction)
    {
      if IsWatching() || !crdExists || !hasValidApiConfig || !setupSucceeds {
        return;
      }
      controllerStopFunction := Some(|controllers|);
      controllers := controllers + [Controller(Running, false)];
    }

    method StopWatching()
      requires Inv(View())
      modifies this
      ensures View() == Next(old(View()), Stop)
      ensures controllerStopFunction == None && |controllers| == |old(controllers)|
      ensures forall id | 0 <= id < |controllers| ::
        && controllers[id].phase == old(controllers)[id].phase
        && controllers[id].cancelled == (old(controllers)[id].cancelled || old(controllerStopFunction) == Some(id))
    {
      if controllerStopFunction.None? {
        return;
      }
      var id := controllerStopFunction.value;
      controllers := controllers[id := controllers[id].(cancelled := true)];
      controllerStopFunction := None;
    }

    method ControllerHasReturned(id: nat)
      requires Enabled(View(), CleanUp(id))
      modifies this
      ensures View() == Next(old(View()), CleanUp(id))
      ensures controllers == old(controllers)[id := old(controllers)[id].(phase := Finished)]
      ensures controllerStopFunction == if old(controllerStopFunction) == Some(id) then None
                                        else old(controllerStopFunction)
    {
      var ownStopFunc := Some(id);
      if controllerStopFunction == ownStopFunc {
        controllerStopFunction := None;
      }
      controllers := controllers[id := controllers[id].(phase := Finished)];
    }
  }
}
