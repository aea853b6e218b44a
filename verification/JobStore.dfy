/** The queue's operations as methods over the two tables they update in place, each proved against
    the statement it issues (`JobTable.Apply`) and, for a claim, against the global claim rule. */
module JobStore {
  import opened Prelude
  import opened JobTable

  /** What ending a job leaves of its row. */
  predicate SameButEnd(a: Job, b: Job) {
    && b.jobType == a.jobType && b.runId == a.runId && b.workerId == a.workerId
    && b.createdAt == a.createdAt && b.claimedAt == a.claimedAt && b.lastHeartbeat == a.lastHeartbeat
  }

  /** What claiming a job leaves of its row. */
  predicate SameButClaim(a: Job, b: Job) {
    && b.jobType == a.jobType && b.runId == a.runId && b.killRequested == a.killRequested
    && b.exitCode == a.exitCode && b.createdAt == a.createdAt && b.endedAt == a.endedAt
  }

  /** The rows two tables show in different states. */
  function Changed(a: Jobs, b: Jobs): (ids: set<JobId>) {
    set id | id in a && id in b && a[id].status != b[id].status
  }

  class Store {
    var jobs: Jobs
    var limits: Limits

    constructor ()
      ensures jobs == map[] && limits == map[]
    {
      jobs, limits := map[], map[];
    }

    /** False stands for the key violation the database raises. */
    method Enqueue(id: JobId, jobType: string, runId: Option<string>, now: int) returns (ok: bool)
      modifies this`jobs
      ensures ok <==> id !in old(jobs)
      ensures jobs == Apply(old(jobs), JobTable.Enqueue(id, jobType, runId, now))
      ensures ok ==> jobs == old(jobs)[id := jobs[id]] && jobs[id].status == Pending
      ensures ok ==> jobs[id].jobType == jobType && jobs[id].runId == runId && jobs[id].createdAt == now
      ensures ok ==> !jobs[id].killRequested && RowOk(jobs[id])
      ensures !ok ==> jobs == old(jobs)
    {
      ok := id !in jobs;
      if ok {
        jobs := jobs[id := NewJob(jobType, runId, now)];
      }
    }

    method TouchHeartbeat(id: JobId, worker: string, now: int) returns (rows: nat)
      modifies this`jobs
      ensures jobs == Apply(old(jobs), Heartbeat(id, worker, now))
      ensures rows == |MatchedIds(old(jobs), Heartbeat(id, worker, now))|
      ensures rows == 0 <==> !(id in old(jobs) && old(jobs)[id].status == Running && old(jobs)[id].workerId == Some(worker))
      ensures rows == 0 ==> jobs == old(jobs)
      ensures rows != 0 ==> rows == 1 && jobs == old(jobs)[id := old(jobs)[id].(lastHeartbeat := Some(now))]
    {
      rows := 0;
      if id in jobs && jobs[id].workerId == Some(worker) && jobs[id].status == Running {
        jobs := jobs[id := jobs[id].(lastHeartbeat := Some(now))];
        rows := 1;
        assert MatchedIds(old(jobs), Heartbeat(id, worker, now)) == {id};
      } else {
        assert MatchedIds(old(jobs), Heartbeat(id, worker, now)) == {};
      }
    }

    method FinalizeJob(id: JobId, code: int, now: int) returns (rows: nat)
      modifies this`jobs
      ensures jobs == Apply(old(jobs), Finalize(id, code, now))
      ensures rows == |MatchedIds(old(jobs), Finalize(id, code, now))|
      ensures rows == 0 <==> !(id in old(jobs) && old(jobs)[id].status == Running)
      ensures rows == 0 ==> jobs == old(jobs)
      ensures rows != 0 ==> rows == 1 && jobs == old(jobs)[id := jobs[id]] && SameButEnd(old(jobs)[id], jobs[id])
      ensures rows != 0 ==> (jobs[id].status == Complete <==> code == 0) && (jobs[id].status == Failed <==> code != 0)
      ensures rows != 0 ==> jobs[id].exitCode == Some(code) && jobs[id].endedAt == Some(now) && !jobs[id].killRequested
    {
      rows := 0;
      var status := if code == 0 then Complete else Failed;
      if id in jobs && jobs[id].status == Running {
        jobs := jobs[id := jobs[id].(status := status, exitCode := Some(code), endedAt := Some(now), killRequested := false)];
        rows := 1;
        assert MatchedIds(old(jobs), Finalize(id, code, now)) == {id};
      } else {
        assert MatchedIds(old(jobs), Finalize(id, code, now)) == {};
      }
    }

    method RequestKill(id: JobId)
      modifies this`jobs
      ensures jobs == Apply(old(jobs), Kill(id))
      ensures id !in old(jobs) ==> jobs == old(jobs)
      ensures id in old(jobs) ==> jobs == old(jobs)[id := old(jobs)[id].(killRequested := true)]
    {
      if id in jobs {
        jobs := jobs[id := jobs[id].(killRequested := true)];
      }
    }

    /** The cutoff uses one clock reading, the end stamp a later one. */
    method ReapStaleRunningJobs(olderThan: int, now0: int, now1: int) returns (rows: nat)
      modifies this`jobs
      ensures jobs == Apply(old(jobs), Reap(now0 - olderThan, now1))
      ensures rows == |MatchedIds(old(jobs), Reap(now0 - olderThan, now1))|
      ensures forall id :: id in old(jobs) ==>
        (jobs[id].status != old(jobs)[id].status <==>
          old(jobs)[id].status == Running && old(jobs)[id].lastHeartbeat.Some? &&
          old(jobs)[id].lastHeartbeat.value < now0 - olderThan)
      ensures jobs.Keys == old(jobs).Keys && rows == |Changed(old(jobs), jobs)|
      ensures forall id :: id in old(jobs) && jobs[id] != old(jobs)[id] ==>
        jobs[id] == old(jobs)[id].(status := Orphaned, endedAt := Some(now1))
    {
      var cutoff := now0 - olderThan;
      var stale := set id | id in jobs && jobs[id].status == Running &&
                            jobs[id].lastHeartbeat.Some? && jobs[id].lastHeartbeat.value < cutoff;
      rows := |stale|;
      assert stale == MatchedIds(jobs, Reap(cutoff, now1));
      jobs := map id | id in jobs ::
        if id in stale then jobs[id].(status := Orphaned, endedAt := Some(now1)) else jobs[id];
      assert Changed(old(jobs), jobs) == stale;
    }

    method UpdateJobArgs(id: JobId, runId: Option<string>) returns (rows: nat)
      modifies this`jobs
      ensures jobs == Apply(old(jobs), SetArgs(id, runId))
      ensures rows == 0 <==> id !in old(jobs)
      ensures rows == 0 ==> jobs == old(jobs)
      ensures rows != 0 ==> rows == 1 && jobs == old(jobs)[id := old(jobs)[id].(runId := runId)]
    {
      rows := 0;
      if id in jobs {
        jobs := jobs[id := jobs[id].(runId := runId)];
        rows := 1;
      }
    }

    /** False stands for the ValueError on a cap that is not positive. */
    method UpdateJobTypeLimit(t: string, cap: int) returns (ok: bool)
      modifies this`limits
      ensures ok <==> cap > 0
      ensures limits == if cap > 0 then old(limits)[t := cap] else old(limits)
    {
      ok := cap > 0;
      if ok {
        limits := limits[t := cap];
      }
    }

    method CompleteInterruptedJobsForRun(run: string, now: int) returns (rows: nat)
      modifies this`jobs
      ensures jobs == Apply(old(jobs), CompleteInterrupted(run, now))
      ensures rows == |MatchedIds(old(jobs), CompleteInterrupted(run, now))|
      ensures jobs.Keys == old(jobs).Keys
      ensures rows == |Changed(old(jobs), jobs)|
      ensures forall id :: id in old(jobs) ==>
        if && (old(jobs)[id].jobType == "provision_winpe" || old(jobs)[id].jobType == "provision_clone")
           && old(jobs)[id].runId == Some(run)
           && (|| old(jobs)[id].status == Orphaned
               || (old(jobs)[id].status == Failed && (old(jobs)[id].exitCode == Some(-15) || old(jobs)[id].exitCode == None)))
        then
          && jobs[id].status == Complete && jobs[id].exitCode == Some(0) && jobs[id].endedAt == Some(now)
          && !jobs[id].killRequested && SameButEnd(old(jobs)[id], jobs[id])
        else jobs[id] == old(jobs)[id]
    {
      var hit := set id | id in jobs && Matches(CompleteInterrupted(run, now), id, jobs[id]);
      rows := |hit|;
      assert hit == MatchedIds(jobs, CompleteInterrupted(run, now));
      jobs := map id | id in jobs ::
        if id in hit then jobs[id].(status := Complete, exitCode := Some(0), endedAt := Some(now), killRequested := false)
        else jobs[id];
      assert Changed(old(jobs), jobs) == hit;
    }

    // ---------------------------------------------------------------- claiming

    /** The row the pending-row query returns: first by (created_at, id). */
    method OldestPending(t: string) returns (found: Option<JobId>)
      ensures found == None <==> PendingIds(jobs, t) == {}
      ensures found.Some? ==> OldestOf(jobs, PendingIds(jobs, t), found.value)
    {
      found := None;
      var todo := PendingIds(jobs, t);
      while todo != {}
        invariant todo <= PendingIds(jobs, t)
        invariant found.None? ==> todo == PendingIds(jobs, t)
        invariant found.Some? ==> OldestOf(jobs, PendingIds(jobs, t) - todo, found.value)
        decreases todo
      {
        ghost var some := PickFrom(todo);
        var id :| id in todo;
        ghost var seen, best := PendingIds(jobs, t) - todo, found;
        if found.None? || Older(jobs, id, found.value) {
          found := Some(id);
        }
        todo := todo - {id};
        assert PendingIds(jobs, t) - todo == seen + {id};
        forall j | j in seen + {id} && j != found.value ensures Older(jobs, found.value, j) {
          assert j == id || j == best.value || Older(jobs, best.value, j);
        }
      }
      if found.Some? {
        assert PendingIds(jobs, t) - todo == PendingIds(jobs, t);
      }
    }

    /** The type the candidate query lists first among `ts`. */
    method FirstType(ts: set<string>) returns (t: string)
      requires ts != {} && ts <= PendingTypes(jobs)
      ensures t in ts && forall u :: u in ts && u != t ==> TypeBefore(jobs, t, u)
    {
      t :| t in ts;
      var c, m := GroupKey(t);
      var todo := ts - {t};
      while todo != {}
        invariant todo <= ts && t in ts - todo
        invariant c == FirstCreated(jobs, t) && m == FirstId(jobs, t)
        invariant forall u :: u in ts - todo && u != t ==> TypeBefore(jobs, t, u)
        decreases todo
      {
        var u :| u in todo;
        var cu, mu := GroupKey(u);
        assert FirstId(jobs, u) in PendingIds(jobs, u) && FirstId(jobs, t) in PendingIds(jobs, t);
        ghost var seen, best := ts - todo, t;
        if cu < c || (cu == c && mu < m) {
          t, c, m := u, cu, mu;
        }
        todo := todo - {u};
        assert ts - todo == seen + {u};
        forall v | v in seen + {u} && v != t ensures TypeBefore(jobs, t, v) {
          assert v == u || v == best || TypeBefore(jobs, best, v);
        }
      }
    }

    /** min(created_at) and min(id) of one group. */
    method GroupKey(t: string) returns (c: int, m: JobId)
      requires t in PendingTypes(jobs)
      ensures c == FirstCreated(jobs, t) && m == FirstId(jobs, t)
    {
      PendingTypeHasRow(jobs, t);
      ghost var some := PickFrom(PendingIds(jobs, t));
      m :| m in PendingIds(jobs, t);
      c := jobs[m].createdAt;
      var todo := PendingIds(jobs, t) - {m};
      while todo != {}
        invariant todo <= PendingIds(jobs, t)
        invariant m in PendingIds(jobs, t) - todo && forall j :: j in PendingIds(jobs, t) - todo ==> m <= j
        invariant exists j :: j in PendingIds(jobs, t) - todo && jobs[j].createdAt == c
        invariant forall j :: j in PendingIds(jobs, t) - todo ==> c <= jobs[j].createdAt
        decreases todo
      {
        ghost var left := PickFrom(todo);
        var j :| j in todo;
        ghost var w :| w in PendingIds(jobs, t) - todo && jobs[w].createdAt == c;
        if jobs[j].createdAt < c { c := jobs[j].createdAt; w := j; }
        if j < m { m := j; }
        ghost var seen := PendingIds(jobs, t) - todo;
        todo := todo - {j};
        assert PendingIds(jobs, t) - todo == seen + {j};
        assert w in PendingIds(jobs, t) - todo && jobs[w].createdAt == c;
      }
      assert PendingIds(jobs, t) - todo == PendingIds(jobs, t);
      assert FirstId(jobs, t) in PendingIds(jobs, t);
    }

    method CandidateTypes() returns (ts: seq<string>)
      ensures IsCandidateList(jobs, ts)
    {
      ts := [];
      var todo := PendingTypes(jobs);
      while todo != {}
        invariant todo <= PendingTypes(jobs)
        invariant forall t :: t in ts <==> t in PendingTypes(jobs) - todo
        invariant forall i :: 0 <= i < |ts| ==> ts[i] in PendingTypes(jobs)
        invariant forall i, j :: 0 <= i < j < |ts| ==> ts[i] != ts[j] && TypeBefore(jobs, ts[i], ts[j])
        invariant forall i, u :: 0 <= i < |ts| && u in todo ==> TypeBefore(jobs, ts[i], u)
        decreases todo
      {
        var t := FirstType(todo);
        ts := ts + [t];
        todo := todo - {t};
      }
    }

    /** The claim, run with no other transaction beside it: it walks the candidate types in order,
        passes over the ones at their cap, and takes the oldest row of the first that is not. */
    method ClaimNextJob(worker: string, now: int) returns (claimed: Option<JobId>)
      modifies this`jobs
      ensures claimed.None? ==> jobs == old(jobs) && ClaimsNothing(old(jobs), limits)
      ensures claimed.Some? ==>
        && ClaimPicks(old(jobs), limits, claimed.value)
        && jobs == Apply(old(jobs), Claim(claimed.value, worker, now))
        && jobs == old(jobs)[claimed.value := jobs[claimed.value]]
        && jobs[claimed.value].status == Running && jobs[claimed.value].workerId == Some(worker)
        && jobs[claimed.value].claimedAt == Some(now) && jobs[claimed.value].lastHeartbeat == Some(now)
        && SameButClaim(old(jobs)[claimed.value], jobs[claimed.value])
    {
      var candidates := CandidateTypes();
      claimed := None;
      var i := 0;
      while i < |candidates|
        invariant 0 <= i <= |candidates|
        invariant jobs == old(jobs)
        invariant forall k :: 0 <= k < i ==> !UnderCap(jobs, limits, candidates[k])
      {
        var t := candidates[i];
        var cap := CapOf(limits, t);
        var running := RunningCount(jobs, t);
        if running < cap {
          var pending := OldestPending(t);
          assert t in PendingTypes(jobs);
          PendingTypeHasRow(jobs, t);
          var id := pending.value;
          ListedFirstIsPicked(jobs, limits, candidates, i, id);
          jobs := jobs[id := jobs[id].(status := Running, workerId := Some(worker), claimedAt := Some(now), lastHeartbeat := Some(now))];
          return Some(id);
        }
        i := i + 1;
      }
      ListExhausted(jobs, limits, candidates);
    }
  }
}
