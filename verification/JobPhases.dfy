/** The queue seen through the phase store: the two rows a sync keeps for each job, over every run of the
    queue and whatever moments the sync happens to run at. */
module JobPhases {
  import opened Prelude
  import PM = PhaseMerge
  import PS = PhaseStore
  import JT = JobTable
  import CP = ClaimProtocol

  function ExecutionState(s: JT.Status): (p: PM.Phase) {
    match s
    case Complete => PM.Done
    case Failed => PM.Failed
    case Orphaned => PM.Stale
    case Pending => PM.Pending
    case Running => PM.Running
  }

  function ExecutionError(s: JT.Status): (e: Option<string>) {
    if s == JT.Failed then Some("failed") else if s == JT.Orphaned then Some("orphaned") else None
  }

  function ExecutionReport(job: JT.Job, evidence: map<string, string>): (r: PS.Report) {
    PS.Report(
      ExecutionState(job.status), Some(job.claimedAt.GetOr(job.createdAt)), job.endedAt,
      job.endedAt.Else(job.lastHeartbeat).Else(job.claimedAt).Else(Some(job.createdAt)),
      evidence, ExecutionError(job.status), "jobs")
  }

  function QueueReport(job: JT.Job, evidence: map<string, string>): (r: PS.Report) {
    PS.Report(
      if job.claimedAt.Some? then PM.Done else if job.status == JT.Pending then PM.Running else PM.Skipped,
      Some(job.createdAt), job.claimedAt, job.claimedAt.Else(Some(job.createdAt)), evidence, None, "jobs")
  }

  /** What a sync finds of one job at one moment. */
  datatype Sighting = Sighting(job: JT.Job, evidence: map<string, string>, now: int)

  function ExecutionBatch(seen: seq<Sighting>): (batch: seq<PS.Arrival>)
    ensures |batch| == |seen|
  {
    seq(|seen|, i requires 0 <= i < |seen| => PS.Arrival(ExecutionReport(seen[i].job, seen[i].evidence), seen[i].now))
  }

  function QueueBatch(seen: seq<Sighting>): (batch: seq<PS.Arrival>)
    ensures |batch| == |seen|
  {
    seq(|seen|, i requires 0 <= i < |seen| => PS.Arrival(QueueReport(seen[i].job, seen[i].evidence), seen[i].now))
  }

  /** `b` is the same job as `a`, seen no earlier in a run of the queue. */
  predicate Later(a: JT.Job, b: JT.Job) {
    && a.createdAt == b.createdAt
    && (a.workerId.Some? ==> b.claimedAt == a.claimedAt)
    && JT.Rank(a.status) <= JT.Rank(b.status)
    && (JT.Rank(a.status) == JT.Rank(b.status) ==> a.status == b.status)
  }

  predicate History(seen: seq<Sighting>) {
    && (forall i :: 0 <= i < |seen| ==> JT.RowOk(seen[i].job))
    && (forall i, j :: 0 <= i <= j < |seen| ==> Later(seen[i].job, seen[j].job))
  }

  /** Whenever it is synced, the execution row shows the job's status, end and error of that moment. */
  lemma {:induction false} ExecutionRowMirrorsJob(seen: seq<Sighting>)
    requires seen != [] && History(seen)
    ensures var row := PS.FoldRow(None, ExecutionBatch(seen)).value;
      var job := seen[|seen| - 1].job;
      && (row.state == PM.Pending <==> job.status == JT.Pending)
      && (row.state == PM.Running <==> job.status == JT.Running)
      && (row.state == PM.Done <==> job.status == JT.Complete)
      && (row.state == PM.Failed <==> job.status == JT.Failed)
      && (row.state == PM.Stale <==> job.status == JT.Orphaned)
      && row.ended == job.endedAt
      && row.error == (match job.status case Failed => Some("failed") case Orphaned => Some("orphaned") case _ => None)
  {
    var n := |seen| - 1;
    var batch := ExecutionBatch(seen);
    assert batch[..n] == ExecutionBatch(seen[..n]);
    if n == 0 {
      assert batch[..0] == [];
    } else {
      ExecutionRowMirrorsJob(seen[..n]);
      assert Later(seen[n - 1].job, seen[n].job);
      assert JT.RowOk(seen[n - 1].job) && JT.RowOk(seen[n].job);
    }
  }

  /** The wait row is done exactly once the job has been claimed, and then spans creation to claim. */
  lemma {:induction false} QueueRowMirrorsJob(seen: seq<Sighting>)
    requires seen != [] && History(seen)
    ensures var row := PS.FoldRow(None, QueueBatch(seen)).value;
      var job := seen[|seen| - 1].job;
      && row.state == (if job.claimedAt.Some? then PM.Done else PM.Running)
      && row.started == job.createdAt && row.ended == job.claimedAt
      && (row.duration.Some? <==> job.claimedAt.Some?)
      && (row.duration.Some? && job.createdAt <= job.claimedAt.value ==>
            row.duration.value * 1_000_000 <= job.claimedAt.value - job.createdAt < (row.duration.value + 1) * 1_000_000)
      && (row.duration.Some? && job.claimedAt.value < job.createdAt ==> row.duration == Some(0))
  {
    var n := |seen| - 1;
    var batch := QueueBatch(seen);
    assert batch[..n] == QueueBatch(seen[..n]);
    PS.DurationOfFold(None, batch);
    if n == 0 {
      assert batch[..0] == [];
    } else {
      QueueRowMirrorsJob(seen[..n]);
      assert Later(seen[n - 1].job, seen[n].job);
      assert JT.RowOk(seen[n - 1].job) && JT.RowOk(seen[n].job);
    }
  }

  /** When a job last showed progress: at its end, else its last heartbeat, else its claim, else its creation. */
  predicate LastSeen(job: JT.Job, t: int) {
    match job.endedAt
    case Some(e) => t == e
    case None =>
      match job.lastHeartbeat
      case Some(h) => t == h
      case None => t == if job.claimedAt.Some? then job.claimedAt.value else job.createdAt
  }

  /** Both rows name their source and hold the evidence of the last sighting; neither has its last progress before what
      that sighting shows, and after one sighting it is just that. */
  lemma RowsShowTheLastSighting(seen: seq<Sighting>, t: int)
    requires seen != [] && LastSeen(seen[|seen| - 1].job, t)
    ensures var x, q, last := PS.FoldRow(None, ExecutionBatch(seen)).value, PS.FoldRow(None, QueueBatch(seen)).value, seen[|seen| - 1];
      && x.origin == "jobs" && q.origin == "jobs"
      && (forall k :: k in last.evidence ==> k in x.evidence && x.evidence[k] == last.evidence[k])
      && (forall k :: k in last.evidence ==> k in q.evidence && q.evidence[k] == last.evidence[k])
      && x.lastProgress >= t
      && q.lastProgress >= (if last.job.claimedAt.Some? then last.job.claimedAt.value else last.job.createdAt)
      && (|seen| == 1 ==> x.evidence == last.evidence && q.evidence == last.evidence && x.lastProgress == t)
      && (|seen| == 1 ==> q.lastProgress == if last.job.claimedAt.Some? then last.job.claimedAt.value else last.job.createdAt)
  {
    var n := |seen| - 1;
    if n == 0 {
      assert ExecutionBatch(seen)[..0] == [] && QueueBatch(seen)[..0] == [];
    }
  }

  predicate SeenWaiting(seen: seq<Sighting>) { exists i :: 0 <= i < |seen| && seen[i].job.status == JT.Pending }

  /** Where the execution row starts: at the claim, but at the creation if that is earlier and a sync came while the
      job was waiting; so the waiting time may be counted as execution. */
  lemma ExecutionStart(seen: seq<Sighting>)
    requires seen != [] && History(seen)
    ensures var row := PS.FoldRow(None, ExecutionBatch(seen)).value;
      var job := seen[|seen| - 1].job;
      row.started ==
        if job.claimedAt.None? then job.createdAt
        else if SeenWaiting(seen) then MinInt(job.createdAt, job.claimedAt.value)
        else job.claimedAt.value
  {
    var batch := ExecutionBatch(seen);
    PS.FoldRowStart(None, batch);
    var row := PS.FoldRow(None, batch).value;
    var n := |seen| - 1;
    forall i | 0 <= i < |seen|
      ensures PS.StartOf(batch[i]) ==
        if seen[i].job.status == JT.Pending then seen[n].job.createdAt else seen[n].job.claimedAt.GetOr(seen[n].job.createdAt)
      ensures seen[i].job.status != JT.Pending ==> seen[n].job.claimedAt.Some?
    {
      assert JT.RowOk(seen[i].job) && JT.RowOk(seen[n].job) && Later(seen[i].job, seen[n].job);
    }
    assert JT.RowOk(seen[n].job);
    assert row.started <= PS.StartOf(batch[n]);
    if i :| 0 <= i < |seen| && seen[i].job.status == JT.Pending {
      assert row.started <= PS.StartOf(batch[i]);
    }
  }

  /** A job synced while waiting, then claimed: its execution is said to start when it was created. */
  lemma ExecutionCanStartBeforeClaim() returns (seen: seq<Sighting>)
    ensures seen != [] && History(seen)
    ensures seen[|seen| - 1].job.claimedAt == Some(60) && PS.FoldRow(None, ExecutionBatch(seen)).value.started == 0
  {
    var waiting := JT.NewJob("provision_clone", None, 0);
    var running := waiting.(status := JT.Running, workerId := Some("w"), claimedAt := Some(60), lastHeartbeat := Some(60));
    seen := [Sighting(waiting, map[], 30), Sighting(running, map[], 90)];
    assert seen[0].job.status == JT.Pending;
    ExecutionStart(seen);
  }

  /** Sightings taken at any moments of any run of the queue form such a history. */
  lemma RunsGiveHistories(hash: string -> CP.LockKey, states: seq<CP.State>, steps: seq<CP.Step>, at: seq<nat>, id: JT.JobId, seen: seq<Sighting>)
    requires CP.IsRun(hash, states, steps)
    requires |at| == |seen|
    requires forall i :: 0 <= i < |at| ==> at[i] < |states| && id in states[at[i]].jobs && seen[i].job == states[at[i]].jobs[id]
    requires forall i, j :: 0 <= i <= j < |at| ==> at[i] <= at[j]
    ensures History(seen)
  {
    forall i | 0 <= i < |seen| ensures JT.RowOk(seen[i].job) {
      CP.RunKeepsInv(hash, states, steps, at[i]);
    }
    forall i, j | 0 <= i <= j < |seen| ensures Later(seen[i].job, seen[j].job) {
      CP.RowOverRun(hash, states, steps, at[i], at[j], id);
    }
  }
}
