/** Timed safety of the reaper: a job whose builder commits a fresh stamp within G of taking the previous
    one is never orphaned by reaps that wait at least G. */
module ReaperTiming {
  import opened Prelude
  import opened JobTable
  import opened ClaimProtocol

  /** `times[i]` is when step `i` commits. A reap reads the clock no later than it commits, so with a
      threshold of at least G its cutoff lies at least G before its commit. */
  ghost predicate Timed(steps: seq<Step>, times: seq<int>, G: nat) {
    && |times| == |steps|
    && (forall i, j :: 0 <= i <= j < |times| ==> times[i] <= times[j])
    && (forall i :: 0 <= i < |steps| && steps[i].Statement? && steps[i].update.Reap? ==> steps[i].update.cutoff <= times[i] - G)
  }

  /** The step commits a heartbeat stamp for job `id`: its claim, or a heartbeat that finds it running. */
  ghost predicate Stamps(s: State, step: Step, id: JobId) {
    || CommitsClaimOf(s, step, id)
    || (step.Statement? && step.update.Heartbeat? && id in s.jobs && Matches(step.update, id, s.jobs[id]))
  }

  /** The clock reading that stamp carries. A claim reads it before its first statement, so time spent
      waiting for locks counts against the claim. */
  ghost function StampOf(s: State, step: Step, id: JobId): (h: int)
    requires Stamps(s, step, id)
  {
    if step.Commit? then s.sessions[step.sid].now else step.update.now
  }

  ghost predicate Finishes(s: State, step: Step, id: JobId) {
    step.Statement? && step.update.Finalize? && id in s.jobs && Matches(step.update, id, s.jobs[id])
  }

  /** Within G of taking any stamp the builder commits the next one or the job's end, or the run is over. */
  ghost predicate Prompt(states: seq<State>, steps: seq<Step>, times: seq<int>, G: nat, id: JobId)
    requires |states| == |steps| + 1 && |times| == |steps|
  {
    forall i :: 0 <= i < |steps| && Stamps(states[i], steps[i], id) ==>
      || times[|times| - 1] <= StampOf(states[i], steps[i], id) + G
      || exists j :: i < j < |steps| && times[j] <= StampOf(states[i], steps[i], id) + G &&
           (Stamps(states[j], steps[j], id) || Finishes(states[j], steps[j], id))
  }

  /** A running row either got its stamp from this very step or was running with it before. */
  lemma StampOrCarry(hash: string -> LockKey, s: State, step: Step, id: JobId, peak: string -> nat)
    requires Inv(hash, s, peak) && Enabled(hash, s, step)
    requires var r := Next(hash, s, step); id in r.jobs && r.jobs[id].status == Running
    ensures var r := Next(hash, s, step);
      if Stamps(s, step, id) then r.jobs[id].lastHeartbeat == Some(StampOf(s, step, id))
      else !Finishes(s, step, id) && id in s.jobs && s.jobs[id].status == Running &&
           r.jobs[id].lastHeartbeat == s.jobs[id].lastHeartbeat
  {
    match step
    case Commit(sid) =>
      assert SessionOk(hash, s, s.sessions[sid], peak);
    case Statement(u) =>
    case _ =>
  }

  /** The same of step `k` of a run. */
  lemma StampOrCarryAt(hash: string -> LockKey, states: seq<State>, steps: seq<Step>, k: nat, id: JobId)
    requires IsRun(hash, states, steps) && k < |steps|
    requires id in states[k + 1].jobs && states[k + 1].jobs[id].status == Running
    ensures
      if Stamps(states[k], steps[k], id) then states[k + 1].jobs[id].lastHeartbeat == Some(StampOf(states[k], steps[k], id))
      else !Finishes(states[k], steps[k], id) && id in states[k].jobs && states[k].jobs[id].status == Running &&
           states[k + 1].jobs[id].lastHeartbeat == states[k].jobs[id].lastHeartbeat
  {
    RunKeepsInv(hash, states, steps, k);
    assert IsMove(hash, states, steps, k);
    StampOrCarry(hash, states[k], steps[k], id, t => PeakCap(states, k, t));
  }

  ghost predicate Untouched(states: seq<State>, steps: seq<Step>, k: nat, id: JobId)
    requires k < |steps| && |states| == |steps| + 1
  {
    !Stamps(states[k], steps[k], id) && !Finishes(states[k], steps[k], id)
  }

  /** The stamp on a running row was committed by some step, and no stamp or end followed it. */
  lemma {:induction false} StampSource(hash: string -> LockKey, states: seq<State>, steps: seq<Step>, i: nat, id: JobId) returns (b: nat)
    requires IsRun(hash, states, steps) && i < |states|
    requires id in states[0].jobs ==> states[0].jobs[id].status == Pending
    requires id in states[i].jobs && states[i].jobs[id].status == Running
    ensures b < i && Stamps(states[b], steps[b], id)
    ensures states[i].jobs[id].lastHeartbeat == Some(StampOf(states[b], steps[b], id))
    ensures forall k :: b < k < i ==> Untouched(states, steps, k, id)
  {
    assert i > 0;
    b := i - 1;
    StampOrCarryAt(hash, states, steps, b, id);
    if !Stamps(states[b], steps[b], id) {
      assert Untouched(states, steps, i - 1, id);
      b := StampSource(hash, states, steps, i - 1, id);
    }
  }

  /** No reap with threshold at least G orphans a job whose builder is prompt. */
  lemma {:induction false} PromptJobsAreNeverOrphaned(hash: string -> LockKey, states: seq<State>, steps: seq<Step>, times: seq<int>, G: nat, id: JobId, i: nat)
    requires IsRun(hash, states, steps) && i < |states|
    requires Timed(steps, times, G) && Prompt(states, steps, times, G, id)
    requires id in states[0].jobs ==> states[0].jobs[id].status == Pending
    ensures id in states[i].jobs ==> states[i].jobs[id].status != Orphaned
  {
    if i > 0 {
      PromptJobsAreNeverOrphaned(hash, states, steps, times, G, id, i - 1);
      var k := i - 1;
      if steps[k].Statement? && steps[k].update.Reap? && id in states[k].jobs && states[k].jobs[id].status == Running {
        ReapSparesPrompt(hash, states, steps, times, G, id, k);
      }
      assert IsMove(hash, states, steps, k);
    }
  }

  lemma ReapSparesPrompt(hash: string -> LockKey, states: seq<State>, steps: seq<Step>, times: seq<int>, G: nat, id: JobId, k: nat)
    requires IsRun(hash, states, steps) && k < |steps|
    requires Timed(steps, times, G) && Prompt(states, steps, times, G, id)
    requires id in states[0].jobs ==> states[0].jobs[id].status == Pending
    requires steps[k].Statement? && steps[k].update.Reap? && id in states[k].jobs && states[k].jobs[id].status == Running
    ensures !Matches(steps[k].update, id, states[k].jobs[id])
  {
    var b := StampSource(hash, states, steps, k, id);
    var h := StampOf(states[b], steps[b], id);
    PromptAfter(states, steps, times, G, id, b, k);
    assert times[k] <= h + G;
  }

  /** Nothing having followed the stamp, its deadline has not passed. */
  lemma PromptAfter(states: seq<State>, steps: seq<Step>, times: seq<int>, G: nat, id: JobId, b: nat, k: nat)
    requires |states| == |steps| + 1 && Timed(steps, times, G) && Prompt(states, steps, times, G, id)
    requires b < k < |steps| && Stamps(states[b], steps[b], id)
    requires forall i :: b < i < k ==> Untouched(states, steps, i, id)
    ensures times[k] <= StampOf(states[b], steps[b], id) + G
  {
    var h := StampOf(states[b], steps[b], id);
    if times[|times| - 1] > h + G {
      var j :| b < j < |steps| && times[j] <= h + G && (Stamps(states[j], steps[j], id) || Finishes(states[j], steps[j], id));
      assert j < k ==> Untouched(states, steps, j, id);
    }
  }

  /** A reap leaves no running row with a stamp before its cutoff, orphans every such row, and no other. */
  lemma ReapIsExact(jobs: Jobs, cutoff: int, now: int)
    requires TableOk(jobs)
    ensures var after := Apply(jobs, Reap(cutoff, now));
      forall id :: id in jobs ==>
        && (after[id].status == Running ==> after[id].lastHeartbeat.value >= cutoff)
        && (after[id] != jobs[id] <==> jobs[id].status == Running && jobs[id].lastHeartbeat.value < cutoff)
        && (after[id] != jobs[id] ==> after[id] == jobs[id].(status := Orphaned, endedAt := Some(now)))
  {
    forall id | id in jobs ensures RowOk(jobs[id]) { }
  }
}
