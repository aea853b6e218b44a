/** The statement-by-statement claim, run with no other transaction beside it, has exactly the outcomes
    of the global claim rule. */
module SoloClaim {
  import opened Prelude
  import opened JobTable
  import opened ClaimProtocol

  /** All steps from `first` to `last` belong to one session, which begins, never aborts, and commits last. */
  ghost predicate IsSoloRun(hash: string -> LockKey, states: seq<State>, steps: seq<Step>, sid: SessionId) {
    && |steps| >= 2 && |states| == |steps| + 1
    && states[0].sessions == map[]
    && (forall i :: 0 <= i < |steps| ==> Enabled(hash, states[i], steps[i]) && states[i + 1] == Next(hash, states[i], steps[i]))
    && steps[0].Begin? && steps[0].sid == sid
    && (forall i :: 0 < i < |steps| - 1 ==>
         (steps[i].Lock? || steps[i].ReadCap? || steps[i].Count? || steps[i].Select? || steps[i].Write?) && steps[i].sid == sid)
    && steps[|steps| - 1] == Commit(sid)
  }

  ghost predicate AtCapBefore(s: State, ts: seq<string>, k: int)
    requires 0 <= k <= |ts|
  {
    forall j :: 0 <= j < k ==> !UnderCap(s.jobs, s.limits, ts[j])
  }

  /** Where the lone session can be: the types it has left behind are at their cap. */
  ghost predicate SoloInv(hash: string -> LockKey, s0: State, s: State, sid: SessionId, ts: seq<string>) {
    && s.jobs == s0.jobs && s.limits == s0.limits
    && s.sessions.Keys == {sid}
    && IsCandidateList(s.jobs, ts)
    && var c := s.sessions[sid];
    && |c.rest| <= |ts| && c.rest == ts[|ts| - |c.rest|..]
    && var k := |ts| - |c.rest|;
    match c.pc
    case Scanning => AtCapBefore(s, ts, k)
    case Locked(t) => k > 0 && t == ts[k - 1] && AtCapBefore(s, ts, k - 1)
    case CapRead(t, cap) => k > 0 && t == ts[k - 1] && AtCapBefore(s, ts, k - 1) && cap == CapOf(s.limits, t)
    case Counted(t) => k > 0 && t == ts[k - 1] && AtCapBefore(s, ts, k - 1) && UnderCap(s.jobs, s.limits, t)
    case Selected(t, id) => ClaimPicks(s.jobs, s.limits, id)
    case Written(t, id) => ClaimPicks(s.jobs, s.limits, id)
  }

  lemma SoloStep(hash: string -> LockKey, s0: State, s: State, sid: SessionId, ts: seq<string>, step: Step)
    requires SoloInv(hash, s0, s, sid, ts)
    requires Enabled(hash, s, step) && (step.Lock? || step.ReadCap? || step.Count? || step.Select? || step.Write?) && step.sid == sid
    ensures SoloInv(hash, s0, Next(hash, s, step), sid, ts)
  {
    var c := s.sessions[sid];
    var k := |ts| - |c.rest|;
    var r := Next(hash, s, step);
    assert r.sessions.Keys == {sid};
    match step
    case Lock(_) =>
      assert c.rest[0] == ts[k] && c.rest[1..] == ts[k + 1..];
    case ReadCap(_) =>
    case Count(_) =>
    case Select(_, found) =>
      var t := c.pc.t;
      assert VisiblePending(s, sid, t) == PendingIds(s.jobs, t);
      assert t in ts;
      PendingTypeHasRow(s.jobs, t);
      ListedFirstIsPicked(s.jobs, s.limits, ts, k - 1, found.value);
    case Write(_) =>
  }

  /** A claim alone takes the job the global rule picks, or finds every pending type at its cap. */
  lemma SoloClaimFollowsTheRule(hash: string -> LockKey, states: seq<State>, steps: seq<Step>, sid: SessionId)
    requires IsSoloRun(hash, states, steps, sid)
    ensures var s0, s1 := states[0], states[|steps|];
      && s1.sessions == map[] && s1.limits == s0.limits
      && ((s1.jobs == s0.jobs && ClaimsNothing(s0.jobs, s0.limits)) ||
          exists id :: ClaimPicks(s0.jobs, s0.limits, id) && s1.jobs == Apply(s0.jobs, Claim(id, steps[0].worker, steps[0].now)))
  {
    var ts := steps[0].candidates;
    var n := |steps| - 1;
    SoloPrefix(hash, states, steps, sid, n);
    var s := states[n];
    var c := s.sessions[sid];
    assert states[n + 1].sessions == map[];
    if c.pc.Scanning? {
      ListExhausted(s.jobs, s.limits, ts);
    } else {
      assert ClaimPicks(states[0].jobs, states[0].limits, c.pc.id);
    }
  }

  lemma {:induction false} SoloPrefix(hash: string -> LockKey, states: seq<State>, steps: seq<Step>, sid: SessionId, n: nat)
    requires IsSoloRun(hash, states, steps, sid) && 1 <= n < |steps|
    ensures SoloInv(hash, states[0], states[n], sid, steps[0].candidates)
    ensures states[n].sessions[sid].worker == steps[0].worker && states[n].sessions[sid].now == steps[0].now
  {
    if n > 1 {
      SoloPrefix(hash, states, steps, sid, n - 1);
      SoloStep(hash, states[0], states[n - 1], sid, steps[0].candidates, steps[n - 1]);
    }
  }
}
