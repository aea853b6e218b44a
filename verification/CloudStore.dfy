/** The rows of one cloud deployment, changed in place by the calls of the controller. */
module CloudStore {
  import opened Prelude
  import opened DomainMatch
  import opened CloudRun
  import opened CloudHeartbeat
  import CloudPlan

  /** Some other step still needs an agent. */
  predicate OthersLeft(steps: seq<Step>, i: nat) {
    exists j :: 0 <= j < |steps| && j != i && (steps[j].state == Pending || steps[j].state == Running || steps[j].state == AwaitingReboot)
  }

  class Store {
    var run: Run
    var engine: Engine
    var steps: seq<Step>
    var events: seq<Event>

    function State(): (d: Deployment)
      reads this
    {
      Deployment(run, engine, steps, events)
    }

    constructor (join: JoinConfig, joinsInFullOs: bool)
      ensures State() == Start(join, joinsInFullOs)
    {
      run := Run(Created, join, None, None, None);
      engine := Engine(EngineCreated, None);
      steps := Start(join, joinsInFullOs).steps;
      events := [];
    }

    method SetRunIdentity()
      modifies this
      ensures State() == Apply(old(State()), SetIdentity)
      ensures run == old(run).(state := AwaitingPe) && engine == old(engine).(state := EngineAwaitingPe)
      ensures steps == old(steps) && events == old(events)
    {
      run := run.(state := AwaitingPe);
      engine := engine.(state := EngineAwaitingPe);
    }

    method MarkPeRegistered(now: int)
      modifies this
      ensures State() == Apply(old(State()), RegisterPe(now))
      ensures run.peRegisteredAt == if old(run.peRegisteredAt).Some? then old(run.peRegisteredAt) else Some(now)
      ensures run == old(run).(state := PeRegistered, peRegisteredAt := run.peRegisteredAt)
      ensures engine == old(engine).(state := EnginePeRegistered) && steps == old(steps) && events == old(events)
    {
      run := run.(state := PeRegistered, peRegisteredAt := run.peRegisteredAt.Else(Some(now)));
      engine := engine.(state := EnginePeRegistered);
    }

    method MarkOsdcloudFinished(now: int)
      modifies this`run
      ensures State() == Apply(old(State()), FinishOs(now))
      ensures run == old(run).(osFinishedAt := Some(old(run.osFinishedAt).GetOr(now)))
    {
      run := run.(osFinishedAt := run.osFinishedAt.Else(Some(now)));
    }

    /** The run waits again after one of its steps was sent back. */
    method ReopenRun()
      modifies this`run
      ensures State() == Apply(old(State()), Reopen)
      ensures run == if old(run.state) == Complete then old(run) else old(run).(state := WaitingForSteps)
    {
      if run.state != Complete { run := run.(state := WaitingForSteps); }
    }

    method MarkFailed(now: int)
      modifies this
      ensures State() == Apply(old(State()), Fail(now))
      ensures old(run.state) == Complete ==> State() == old(State())
      ensures old(run.state) != Complete ==>
        && run == old(run).(state := RunFailed) && engine.state == EngineFailed
        && engine.finishedAt == (if old(engine.finishedAt).Some? then old(engine.finishedAt) else Some(now))
        && steps == old(steps) && events == old(events)
    {
      if run.state != Complete {
        run := run.(state := RunFailed);
        engine := Engine(EngineFailed, engine.finishedAt.Else(Some(now)));
      }
    }

    method AppendEvent(e: Event)
      modifies this`events
      ensures State() == Apply(old(State()), Report(e))
      ensures events == old(events) + [e]
    {
      events := events + [e];
    }

    /** Marks step by step, then counts what is left. */
    method MarkStepsDoneByKind(kinds: set<Kind>, now: int)
      modifies this`steps, this`engine
      ensures State() == Apply(old(State()), MarkSteps(kinds, now))
      ensures |steps| == |old(steps)|
      ensures forall k :: 0 <= k < |steps| ==>
        steps[k] == if old(steps)[k].kind in kinds then old(steps)[k].(state := StepState.Done) else old(steps)[k]
      ensures kinds == {} || old(engine.state) == EngineFailed ==> engine == old(engine)
      ensures kinds != {} && old(engine.state) != EngineFailed ==>
        if forall k :: 0 <= k < |steps| ==> steps[k].state == StepState.Done || steps[k].state == Skipped
        then engine.state == EngineDone && engine.finishedAt == Some(old(engine.finishedAt).GetOr(now))
        else engine == old(engine)
    {
      if kinds == {} { return; }
      var i, remaining := 0, 0;
      while i < |steps|
        invariant 0 <= i <= |steps| && |steps| == |old(steps)| && engine == old(engine)
        invariant forall k :: 0 <= k < i ==> steps[k] == Mark(old(steps)[k], kinds)
        invariant forall k :: i <= k < |steps| ==> steps[k] == old(steps)[k]
        invariant remaining >= 0 && (remaining == 0 <==> forall k :: 0 <= k < i ==> !Remains(steps[k]))
      {
        if steps[i].kind in kinds && steps[i].state != StepState.Done {
          steps := steps[i := steps[i].(state := StepState.Done)];
        }
        if Remains(steps[i]) { remaining := remaining + 1; }
        i := i + 1;
      }
      assert steps == MarkAll(old(steps), kinds);
      assert remaining == 0 <==> NoneRemain(steps);
      if remaining == 0 && engine.state != EngineFailed {
        engine := Engine(EngineDone, engine.finishedAt.Else(Some(now)));
      }
    }

    /** Whether another step than this one still needs an agent. */
    method IsLastStep(step: nat) returns (last: bool)
      ensures NextState(steps, step) == if last then EngineDone else EngineQueued
      ensures last <==> !OthersLeft(steps, step)
    {
      var i := 0;
      while i < |steps|
        invariant 0 <= i <= |steps|
        invariant forall k :: 0 <= k < i && k != step ==> !Remains(steps[k]) || steps[k].state == StepFailed
      {
        if i != step && (steps[i].state == Pending || steps[i].state == Running || steps[i].state == AwaitingReboot) {
          return false;
        }
        i := i + 1;
      }
      last := true;
    }

    /** `complete_step`: what becomes of the step, and of the engine. A failure is retried while the attempts do not
        exceed the retries; one that comes while the step waits for a reboot is ignored. */
    method CompleteStep(i: nat, result: Result, now: int)
      modifies this`steps, this`engine
      ensures State() == Apply(old(State()), AgentReports(i, result, now))
      ensures i >= |old(steps)| || (result == FailedResult && old(steps)[i].state == AwaitingReboot) ==> State() == old(State())
      ensures i < |old(steps)| ==> i < |steps| && steps == old(steps)[i := old(steps)[i].(state := steps[i].state)]
      ensures i < |old(steps)| && (result == RebootRequired || (result == Success && old(steps)[i].reboots)) ==>
        steps[i].state == AwaitingReboot && engine == old(engine).(state := EngineAwaitingReboot)
      ensures i < |old(steps)| && result == Success && !old(steps)[i].reboots ==> steps[i].state == StepState.Done
      ensures i < |old(steps)| && result == SkippedResult ==> steps[i].state == Skipped
      ensures i < |old(steps)| && result == FailedResult && old(steps)[i].state != AwaitingReboot ==>
        && (old(steps)[i].attempt <= old(steps)[i].retries ==>
              steps[i].state == Pending && engine == old(engine).(state := EngineRunning(steps[i].phase)))
        && (old(steps)[i].attempt > old(steps)[i].retries ==> steps[i].state == StepFailed)
        && (old(steps)[i].attempt > old(steps)[i].retries && !steps[i].continues ==> engine == Engine(EngineFailed, Some(now)))
      ensures i < |old(steps)| && result != FailedResult && (steps[i].state == StepState.Done || steps[i].state == Skipped) ==>
        engine == if OthersLeft(old(steps), i) then old(engine).(state := EngineQueued) else Engine(EngineDone, Some(now))
      ensures i < |old(steps)| && result == FailedResult && steps[i].state == StepFailed && steps[i].continues ==>
        engine == if OthersLeft(old(steps), i) then old(engine).(state := EngineQueued) else Engine(EngineDone, Some(now))
    {
      if i >= |steps| || (result == FailedResult && steps[i].state == AwaitingReboot) { return; }
      var s := steps[i];
      var last := IsLastStep(i);
      var next := if last then EngineDone else EngineQueued;
      var state, engineState := StepState.Done, next;
      if (result == Success && s.reboots) || result == RebootRequired {
        state, engineState := AwaitingReboot, EngineAwaitingReboot;
      } else if result == SkippedResult {
        state := Skipped;
      } else if result == FailedResult {
        if s.attempt <= s.retries {
          state, engineState := Pending, EngineRunning(s.phase);
        } else {
          state, engineState := StepFailed, if s.continues then next else EngineFailed;
        }
      }
      steps := steps[i := s.(state := state)];
      engine := Engine(engineState, if engineState == EngineDone || engineState == EngineFailed then Some(now) else engine.finishedAt);
    }

    /** False stands for the ValueError on a step that is not waiting for a reboot. */
    method MarkRebootComplete(i: nat, now: int) returns (ok: bool)
      modifies this`steps, this`engine
      ensures State() == Apply(old(State()), AgentRebooted(i, now))
      ensures ok <==> i < |old(steps)| && old(steps)[i].state == AwaitingReboot
      ensures !ok ==> State() == old(State())
      ensures ok ==>
        && steps == old(steps)[i := old(steps)[i].(state := StepState.Done)]
        && engine == if OthersLeft(old(steps), i) then old(engine).(state := EngineQueued) else Engine(EngineDone, Some(now))
    {
      ok := i < |steps| && steps[i].state == AwaitingReboot;
      if ok {
        var last := IsLastStep(i);
        steps := steps[i := steps[i].(state := StepState.Done)];
        engine := if last then Engine(EngineDone, Some(now)) else engine.(state := EngineQueued);
      }
    }

    /** False stands for the ValueError on a step that has not failed. */
    method RequeueStep(i: nat) returns (ok: bool)
      modifies this`steps, this`engine
      ensures State() == Apply(old(State()), Requeue(i))
      ensures ok <==> i < |old(steps)| && old(steps)[i].state == StepFailed
      ensures !ok ==> State() == old(State())
      ensures ok ==>
        && steps == old(steps)[i := old(steps)[i].(state := Pending, attempt := 0)]
        && engine == Engine(EngineRunning(steps[i].phase), None)
    {
      ok := i < |steps| && steps[i].state == StepFailed;
      if ok {
        steps := steps[i := steps[i].(state := Pending, attempt := 0)];
        engine := Engine(EngineRunning(steps[i].phase), None);
      }
    }

    method SyncTsProgress(now: int)
      modifies this`steps, this`engine
      ensures State() == Sync(old(State()), now)
    {
      MarkStepsDoneByKind(Evidence(run, events), now);
    }

    /** The last state of each required kind, and whether all of them are done. */
    method CompletionStatus() returns (states: map<Kind, StepState>, ready: bool)
      ensures ready == Ready(State())
      ensures ready <==>
        && CloudPlan.LastIs(steps, "wait_agent_heartbeat", StepState.Done)
        && CloudPlan.LastIs(steps, "capture_autopilot_hash", StepState.Done)
        && (run.join.enabled ==> CloudPlan.LastIs(steps, "verify_ad_domain_join", StepState.Done))
      ensures forall kind :: kind in states <==> kind in Required(run.join) && StateOf(steps, kind).Some?
      ensures forall kind :: kind in states ==> StateOf(steps, kind) == Some(states[kind])
    {
      var required := Required(run.join);
      states := map[];
      var i := 0;
      while i < |steps|
        invariant 0 <= i <= |steps|
        invariant forall kind :: kind in states <==> kind in required && StateOf(steps[..i], kind).Some?
        invariant forall kind :: kind in states ==> StateOf(steps[..i], kind) == Some(states[kind])
      {
        assert steps[..i + 1][..i] == steps[..i];
        if steps[i].kind in required { states := states[steps[i].kind := steps[i].state]; }
        i := i + 1;
      }
      assert steps[..i] == steps;
      ready := forall kind :: kind in required ==> kind in states && states[kind] == StepState.Done;
      CloudPlan.ReadyIff(State());
    }

    /** Both rows wait, unless the run is complete or the engine done, and the first heartbeat is kept. */
    method RecordHeartbeat(at: int, hb: Beat) returns (blocked: bool)
      requires run.state != RunFailed
      modifies this`run, this`engine
      ensures State() == Apply(old(State()), Observe(at, hb))
      ensures blocked == Blocked(old(run.join), hb)
      ensures run == old(run).(state := run.state, firstHeartbeatAt := Some(old(run.firstHeartbeatAt).GetOr(at)))
      ensures run.state == if old(run.state) == Complete then Complete else if blocked then WaitingForJoin else WaitingForSteps
      ensures engine == old(engine).(state := engine.state)
      ensures engine.state ==
        if old(engine.state) == EngineDone then EngineDone else if blocked then EngineWaitingForJoin else EngineWaitingForSteps
    {
      blocked := Blocked(run.join, hb);
      var waiting, engineWaiting :=
        if blocked then WaitingForJoin else WaitingForSteps,
        if blocked then EngineWaitingForJoin else EngineWaitingForSteps;
      if run.state != Complete { run := run.(state := waiting); }
      run := run.(firstHeartbeatAt := run.firstHeartbeatAt.Else(Some(at)));
      if engine.state != EngineDone { engine := engine.(state := engineWaiting); }
    }

    method FinishRun(at: int, hb: Beat)
      modifies this`run, this`engine
      ensures State() == Apply(old(State()), Finish(at, hb))
      ensures old(run.state) == RunFailed ==> run == old(run) && engine == old(engine)
      ensures old(run.state) != RunFailed ==>
        run == old(run).(state := Complete) && engine == Engine(EngineDone, Some(old(engine.finishedAt).GetOr(at)))
    {
      if run.state != RunFailed {
        run := run.(state := Complete);
        engine := Engine(EngineDone, engine.finishedAt.Else(Some(at)));
      }
    }

    method MarkCompleteFromHeartbeat(at: int, now: int, hb: Beat)
      modifies this
      ensures State() == Heartbeat(old(State()), at, now, hb)
      ensures old(run.state) == RunFailed ==> State() == old(State())
    {
      if run.state == RunFailed { return; }
      var blocked := RecordHeartbeat(at, hb);
      AppendEvent(HEARTBEAT_EVENT);
      assert State() == Told(old(State()), at, hb);
      if blocked {
        AppendEvent(JOIN_PENDING_EVENT);
        SyncTsProgress(now);
        return;
      }
      SyncTsProgress(now);
      var _, ready := CompletionStatus();
      if !ready {
        AppendEvent(STEPS_PENDING_EVENT);
        return;
      }
      FinishRun(at, hb);
      AppendEvent(GATE_EVENT);
    }
  }
}
