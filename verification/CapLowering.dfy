/** When the current cap of a type is a bound. It need not be after it was lowered: jobs may already run beyond
    it, and a claim in progress may already have been let through under the old cap. */
module CapLowering {
  import opened Prelude
  import opened JobTable
  import opened ClaimProtocol

  /** What may follow `s` while the cap of `t` is left alone. */
  ghost predicate Continues(hash: string -> LockKey, s: State, states: seq<State>, steps: seq<Step>, t: string) {
    && |states| == |steps| + 1 && states[0] == s
    && forall i :: 0 <= i < |steps| ==> IsMove(hash, states, steps, i) && Leaves(steps[i], t)
  }

  predicate Leaves(step: Step, t: string) { step.SetCap? ==> step.jobType != t }

  ghost predicate AllWithin(states: seq<State>, t: string, c: nat) {
    forall i :: 0 <= i < |states| ==> RunningCount(states[i].jobs, t) <= c
  }

  /** The cap holds from `s` on, whatever is done but changing it. */
  ghost predicate HoldsFrom(hash: string -> LockKey, s: State, t: string, c: nat) {
    forall states: seq<State>, steps: seq<Step> :: Continues(hash, s, states, steps, t) ==> AllWithin(states, t, c)
  }

  /** A claim that will start a job of type `t` although `c` of them run. */
  predicate LetThrough(pc: Pc, t: string, c: nat) {
    match pc
    case CapRead(u, cap) => u == t && cap > c
    case Counted(u) => u == t
    case Selected(u, _) => u == t
    case Written(u, _) => u == t
    case _ => false
  }

  predicate HasRoom(s: State, t: string, c: nat) {
    || RunningCount(s.jobs, t) < c
    || (RunningCount(s.jobs, t) == c && forall sid :: sid in s.sessions ==> !LetThrough(s.sessions[sid].pc, t, c))
  }

  // ---------------------------------------------------------------- room is kept

  /** The session that holds a type's lock is alone in having been let through. */
  lemma OnlyOneLetThrough(hash: string -> LockKey, s: State, peak: string -> nat, a: SessionId, b: SessionId, t: string, c: nat)
    requires Inv(hash, s, peak) && a in s.sessions && b in s.sessions && a != b
    requires LetThrough(s.sessions[a].pc, t, c)
    ensures !LetThrough(s.sessions[b].pc, t, c)
  {
    assert SessionOk(hash, s, s.sessions[a], peak) && SessionOk(hash, s, s.sessions[b], peak);
    assert s.sessions[a].locks !! s.sessions[b].locks;
  }

  /** A claim of `t` that commits takes the one place there is. */
  lemma CommitKeepsRoom(hash: string -> LockKey, s: State, sid: SessionId, t: string, c: nat, peak: string -> nat)
    requires Inv(hash, s, peak) && HasRoom(s, t, c) && sid in s.sessions && s.sessions[sid].pc.Written?
    ensures HasRoom(Next(hash, s, Commit(sid)), t, c)
  {
    var d := s.sessions[sid];
    var r := Next(hash, s, Commit(sid));
    assert SessionOk(hash, s, d, peak);
    ClaimStartsOne(s.jobs, d.pc.id, d.worker, d.now, t);
    if d.pc.t == t {
      assert LetThrough(d.pc, t, c);
      forall o | o in r.sessions ensures !LetThrough(r.sessions[o].pc, t, c) {
        OnlyOneLetThrough(hash, s, peak, sid, o, t, c);
      }
    }
  }

  lemma StepKeepsRoom(hash: string -> LockKey, s: State, step: Step, t: string, c: nat, peak: string -> nat)
    requires Inv(hash, s, peak) && Enabled(hash, s, step) && Leaves(step, t)
    requires CapOf(s.limits, t) == c && HasRoom(s, t, c)
    ensures var r := Next(hash, s, step); CapOf(r.limits, t) == c && HasRoom(r, t, c)
  {
    var r := Next(hash, s, step);
    match step
    case Statement(u) => StatementsStartNothing(s.jobs, u, t);
    case Commit(sid) =>
      if s.sessions[sid].pc.Written? {
        CommitKeepsRoom(hash, s, sid, t, c, peak);
      } else {
        CloseKeepsRoom(s, sid, t, c);
      }
    case Abort(sid) => CloseKeepsRoom(s, sid, t, c);
    case SetCap(_, _) =>
    case Begin(sid, _, _, _) => MoveKeepsRoom(s, sid, r.sessions[sid], t, c);
    case _ => MoveKeepsRoom(s, step.sid, r.sessions[step.sid], t, c);
  }

  lemma CloseKeepsRoom(s: State, sid: SessionId, t: string, c: nat)
    requires HasRoom(s, t, c)
    ensures HasRoom(Close(s, sid), t, c)
  {
  }

  lemma MoveKeepsRoom(s: State, sid: SessionId, d: Session, t: string, c: nat)
    requires HasRoom(s, t, c)
    requires RunningCount(s.jobs, t) == c ==> !LetThrough(d.pc, t, c)
    ensures HasRoom(Put(s, sid, d), t, c)
  {
  }

  lemma {:induction false} RoomIsKept(hash: string -> LockKey, s: State, states: seq<State>, steps: seq<Step>, t: string, c: nat,
                                      peak: string -> nat, i: nat) returns (now: string -> nat)
    requires Inv(hash, s, peak) && Continues(hash, s, states, steps, t) && i < |states|
    requires CapOf(s.limits, t) == c && HasRoom(s, t, c)
    ensures Inv(hash, states[i], now) && CapOf(states[i].limits, t) == c && HasRoom(states[i], t, c)
  {
    now := peak;
    if i > 0 {
      now := RoomIsKept(hash, s, states, steps, t, c, peak, i - 1);
      assert IsMove(hash, states, steps, i - 1) && Leaves(steps[i - 1], t);
      var was := now;
      StepKeepsRoom(hash, states[i - 1], steps[i - 1], t, c, was);
      now := u => MaxInt(was(u), CapOf(states[i].limits, u));
      StepKeepsInv(hash, states[i - 1], steps[i - 1], was, now);
    }
  }

  // ---------------------------------------------------------------- without room the cap is passed

  ghost predicate Passes(hash: string -> LockKey, s: State, states: seq<State>, steps: seq<Step>, t: string, c: nat) {
    Continues(hash, s, states, steps, t) && RunningCount(states[|steps|].jobs, t) > c
  }

  lemma Prepend(hash: string -> LockKey, s: State, step: Step, t: string, c: nat, states: seq<State>, steps: seq<Step>)
    requires Enabled(hash, s, step) && Leaves(step, t) && Passes(hash, Next(hash, s, step), states, steps, t, c)
    ensures Passes(hash, s, [s] + states, [step] + steps, t, c)
  {
    var states', steps' := [s] + states, [step] + steps;
    forall i | 0 <= i < |steps'| ensures IsMove(hash, states', steps', i) && Leaves(steps'[i], t) {
      if i > 0 { assert IsMove(hash, states, steps, i - 1); }
    }
  }

  lemma WrittenPasses(hash: string -> LockKey, s: State, sid: SessionId, t: string, c: nat, peak: string -> nat)
    returns (states: seq<State>, steps: seq<Step>)
    requires Inv(hash, s, peak) && sid in s.sessions && RunningCount(s.jobs, t) == c
    requires s.sessions[sid].pc.Written? && s.sessions[sid].pc.t == t
    ensures Passes(hash, s, states, steps, t, c)
  {
    var d := s.sessions[sid];
    assert SessionOk(hash, s, d, peak);
    ClaimStartsOne(s.jobs, d.pc.id, d.worker, d.now, t);
    var r := Next(hash, s, Commit(sid));
    assert Passes(hash, r, [r], [], t, c);
    Prepend(hash, s, Commit(sid), t, c, [r], []);
    states, steps := [s] + [r], [Commit(sid)] + [];
  }

  lemma SelectedPasses(hash: string -> LockKey, s: State, sid: SessionId, t: string, c: nat, peak: string -> nat)
    returns (states: seq<State>, steps: seq<Step>)
    requires Inv(hash, s, peak) && sid in s.sessions && RunningCount(s.jobs, t) == c
    requires s.sessions[sid].pc.Selected? && s.sessions[sid].pc.t == t
    ensures Passes(hash, s, states, steps, t, c)
  {
    assert SessionOk(hash, s, s.sessions[sid], peak);
    var r := Next(hash, s, Write(sid));
    ClaimStepKeepsInv(hash, s, Write(sid), peak);
    states, steps := WrittenPasses(hash, r, sid, t, c, peak);
    Prepend(hash, s, Write(sid), t, c, states, steps);
    states, steps := [s] + states, [Write(sid)] + steps;
  }

  lemma VisiblePasses(hash: string -> LockKey, s: State, sid: SessionId, t: string, c: nat, peak: string -> nat)
    returns (states: seq<State>, steps: seq<Step>)
    requires Inv(hash, s, peak) && sid in s.sessions && RunningCount(s.jobs, t) == c
    requires s.sessions[sid].pc == Counted(t) && VisiblePending(s, sid, t) != {}
    ensures Passes(hash, s, states, steps, t, c)
  {
    var id := OldestExists(s.jobs, VisiblePending(s, sid, t));
    var step := Select(sid, Some(id));
    ClaimStepKeepsInv(hash, s, step, peak);
    states, steps := SelectedPasses(hash, Next(hash, s, step), sid, t, c, peak);
    Prepend(hash, s, step, t, c, states, steps);
    states, steps := [s] + states, [step] + steps;
  }

  lemma {:induction false} FreshKey(ids: set<JobId>) returns (id: JobId)
    ensures id !in ids && forall j :: j in ids ==> j < id
  {
    id := 0;
    if ids != {} {
      var j := PickFrom(ids);
      id := FreshKey(ids - {j});
      assert forall k :: k in ids ==> k == j || k in ids - {j};
      if j >= id { id := j + 1; }
    }
  }

  /** With no job to take, one more may be enqueued. */
  lemma CountedPasses(hash: string -> LockKey, s: State, sid: SessionId, t: string, c: nat, peak: string -> nat)
    returns (states: seq<State>, steps: seq<Step>)
    requires Inv(hash, s, peak) && sid in s.sessions && RunningCount(s.jobs, t) == c
    requires s.sessions[sid].pc == Counted(t)
    ensures Passes(hash, s, states, steps, t, c)
  {
    if VisiblePending(s, sid, t) != {} {
      states, steps := VisiblePasses(hash, s, sid, t, c, peak);
    } else {
      var id := FreshKey(s.jobs.Keys);
      var step := Statement(Enqueue(id, t, None, 0));
      var r := Next(hash, s, step);
      StatementKeepsInv(hash, s, step.update, peak);
      assert RunningIds(r.jobs, t) == RunningIds(s.jobs, t);
      forall o | o in s.sessions ensures id !in s.sessions[o].rows { assert SessionOk(hash, s, s.sessions[o], peak); }
      assert id in VisiblePending(r, sid, t);
      states, steps := VisiblePasses(hash, r, sid, t, c, peak);
      Prepend(hash, s, step, t, c, states, steps);
      states, steps := [s] + states, [step] + steps;
    }
  }

  lemma LetThroughPasses(hash: string -> LockKey, s: State, sid: SessionId, t: string, c: nat, peak: string -> nat)
    returns (states: seq<State>, steps: seq<Step>)
    requires Inv(hash, s, peak) && sid in s.sessions && RunningCount(s.jobs, t) == c
    requires LetThrough(s.sessions[sid].pc, t, c)
    ensures Passes(hash, s, states, steps, t, c)
  {
    match s.sessions[sid].pc
    case CapRead(_, _) =>
      var step := Step.Count(sid);
      ClaimStepKeepsInv(hash, s, step, peak);
      states, steps := CountedPasses(hash, Next(hash, s, step), sid, t, c, peak);
      Prepend(hash, s, step, t, c, states, steps);
      states, steps := [s] + states, [step] + steps;
    case Counted(_) => states, steps := CountedPasses(hash, s, sid, t, c, peak);
    case Selected(_, _) => states, steps := SelectedPasses(hash, s, sid, t, c, peak);
    case Written(_, _) => states, steps := WrittenPasses(hash, s, sid, t, c, peak);
  }

  lemma WithoutRoomPasses(hash: string -> LockKey, s: State, t: string, c: nat, peak: string -> nat)
    returns (states: seq<State>, steps: seq<Step>)
    requires Inv(hash, s, peak) && !HasRoom(s, t, c)
    ensures Passes(hash, s, states, steps, t, c)
  {
    if RunningCount(s.jobs, t) > c {
      states, steps := [s], [];
    } else {
      var sid :| sid in s.sessions && LetThrough(s.sessions[sid].pc, t, c);
      states, steps := LetThroughPasses(hash, s, sid, t, c, peak);
    }
  }

  // ---------------------------------------------------------------- exactly when

  /** From a state of a run, the cap now in force holds until it is changed exactly when fewer jobs run, or as
      many and no claim in progress has been let through for one more. */
  lemma CapHoldsIff(hash: string -> LockKey, states: seq<State>, steps: seq<Step>, i: nat, t: string)
    requires IsRun(hash, states, steps) && i < |states|
    ensures var c := CapOf(states[i].limits, t); HoldsFrom(hash, states[i], t, c) <==> HasRoom(states[i], t, c)
  {
    var s, c := states[i], CapOf(states[i].limits, t);
    RunKeepsInv(hash, states, steps, i);
    var peak := (u: string) => PeakCap(states, i, u);
    if HasRoom(s, t, c) {
      forall more: seq<State>, next: seq<Step> | Continues(hash, s, more, next, t) ensures AllWithin(more, t, c) {
        forall k | 0 <= k < |more| ensures RunningCount(more[k].jobs, t) <= c {
          var now := RoomIsKept(hash, s, more, next, t, c, peak, k);
        }
      }
    } else {
      var more, next := WithoutRoomPasses(hash, s, t, c, peak);
      assert Continues(hash, s, more, next, t) && !AllWithin(more, t, c);
    }
  }

  lemma RunOneMore(hash: string -> LockKey, states: seq<State>, steps: seq<Step>, step: Step)
    returns (states': seq<State>, steps': seq<Step>)
    requires IsRun(hash, states, steps) && Enabled(hash, states[|steps|], step)
    ensures IsRun(hash, states', steps') && |steps'| == |steps| + 1 && steps'[|steps|] == step
    ensures states'[|steps'|] == Next(hash, states[|steps|], step)
  {
    states', steps' := states + [Next(hash, states[|steps|], step)], steps + [step];
    forall i | 0 <= i < |steps'| ensures IsMove(hash, states', steps', i) {
      if i < |steps| { assert IsMove(hash, states, steps, i); }
    }
  }

  /** One job runs and one waits, under a cap of five. */
  lemma OneRunsOneWaits(hash: string -> LockKey, t: string) returns (s: State)
    ensures IsRun(hash, [s], []) && s.sessions == map[] && CapOf(s.limits, t) == 5
    ensures RunningCount(s.jobs, t) == 1 && IsCandidateList(s.jobs, [t])
  {
    var running := NewJob(t, None, 0).(status := Running, workerId := Some("w"), claimedAt := Some(0), lastHeartbeat := Some(0));
    var jobs: Jobs := map[0 := running, 1 := NewJob(t, None, 0)];
    s := State(jobs, map[t := 5], map[]);
    assert RunningIds(jobs, t) == {0};
    assert jobs[1].jobType in PendingTypes(jobs);
    forall u: string ensures RunningCount(jobs, u) <= CapOf(s.limits, u) {
      if u != t { assert RunningIds(jobs, u) == {}; }
    }
  }

  /** Lowering a cap to no less than what runs is not enough: a claim that counted under the old cap goes on. */
  lemma ClaimInProgressPassesLoweredCap(hash: string -> LockKey, t: string)
    returns (states: seq<State>, steps: seq<Step>, more: seq<State>, next: seq<Step>)
    ensures IsRun(hash, states, steps) && steps != [] && steps[|steps| - 1] == SetCap(t, 1)
    ensures var s := states[|steps|];
      RunningCount(s.jobs, t) == CapOf(s.limits, t) == 1 && Passes(hash, s, more, next, t, 1)
  {
    var s0 := OneRunsOneWaits(hash, t);
    states, steps := [s0], [];
    states, steps := RunOneMore(hash, states, steps, Begin(0, "v", 0, [t]));
    states, steps := RunOneMore(hash, states, steps, Step.Lock(0));
    states, steps := RunOneMore(hash, states, steps, ReadCap(0));
    states, steps := RunOneMore(hash, states, steps, Step.Count(0));
    states, steps := RunOneMore(hash, states, steps, SetCap(t, 1));
    var i := |steps|;
    RunKeepsInv(hash, states, steps, i);
    more, next := LetThroughPasses(hash, states[i], 0, t, 1, u => PeakCap(states, i, u));
  }
}
