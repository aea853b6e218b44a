/** The jobs table and the per-type concurrency caps, as values.
    Every statement the queue issues against one row set is an `Update`: which rows its WHERE
    clause matches, and what its SET clause makes of such a row. */
module JobTable {
  import opened Prelude

  datatype Status = Pending | Running | Complete | Failed | Orphaned

  // A job id stands for the position of the text key in the database's own ordering of keys.
  type JobId = nat

  datatype Job = Job(
    jobType: string,
    runId: Option<string>,          // args_json->>'run_id'
    status: Status,
    workerId: Option<string>,
    killRequested: bool,
    exitCode: Option<int>,
    createdAt: int,
    claimedAt: Option<int>,
    lastHeartbeat: Option<int>,
    endedAt: Option<int>)

  type Jobs = map<JobId, Job>
  type Limits = map<string, nat>

  const DEFAULT_CAP: nat := 1
  const SIGTERM_EXIT: int := -15
  const INTERRUPTIBLE: set<string> := {"provision_winpe", "provision_clone"}

  function CapOf(limits: Limits, t: string): (cap: nat) {
    if t in limits then limits[t] else DEFAULT_CAP
  }

  // ---------------------------------------------------------------- statements

  datatype Update =
    | Enqueue(id: JobId, jobType: string, runId: Option<string>, now: int)
    | Claim(id: JobId, worker: string, now: int)
    | Heartbeat(id: JobId, worker: string, now: int)
    | Finalize(id: JobId, code: int, now: int)
    | Kill(id: JobId)
    | Reap(cutoff: int, now: int)
    | CompleteInterrupted(run: string, now: int)
    | SetArgs(id: JobId, runId: Option<string>)

  predicate Terminal(s: Status) { s.Complete? || s.Failed? || s.Orphaned? }

  /** The WHERE clause. Comparing an absent (NULL) value never matches. */
  predicate Matches(u: Update, id: JobId, job: Job) {
    match u
    case Enqueue(_, _, _, _) => false
    case Claim(i, _, _) => id == i && job.status == Pending
    case Heartbeat(i, w, _) => id == i && job.workerId == Some(w) && job.status == Running
    case Finalize(i, _, _) => id == i && job.status == Running
    case Kill(i) => id == i
    case Reap(cutoff, _) =>
      job.status == Running && job.lastHeartbeat.Some? && job.lastHeartbeat.value < cutoff
    case CompleteInterrupted(run, _) =>
      && job.jobType in INTERRUPTIBLE
      && (job.status == Failed || job.status == Orphaned)
      && job.runId == Some(run)
      && (job.status == Orphaned || job.exitCode == Some(SIGTERM_EXIT) || job.exitCode == None)
    case SetArgs(i, _) => id == i
  }

  /** The SET clause. */
  function Assign(u: Update, job: Job): (r: Job) {
    match u
    case Enqueue(_, _, _, _) => job
    case Claim(_, w, now) =>
      job.(status := Running, workerId := Some(w), claimedAt := Some(now), lastHeartbeat := Some(now))
    case Heartbeat(_, _, now) => job.(lastHeartbeat := Some(now))
    case Finalize(_, code, now) =>
      job.(status := if code == 0 then Complete else Failed, exitCode := Some(code),
           endedAt := Some(now), killRequested := false)
    case Kill(_) => job.(killRequested := true)
    case Reap(_, now) => job.(status := Orphaned, endedAt := Some(now))
    case CompleteInterrupted(_, now) =>
      job.(status := Complete, exitCode := Some(0), endedAt := Some(now), killRequested := false)
    case SetArgs(_, runId) => job.(runId := runId)
  }

  function NewJob(jobType: string, runId: Option<string>, now: int): (j: Job) {
    Job(jobType, runId, Pending, None, false, None, now, None, None, None)
  }

  function UpdateRow(u: Update, id: JobId, job: Job): (r: Job) {
    if Matches(u, id, job) then Assign(u, job) else job
  }

  /** One statement on the whole table. A second insert of the same key raises and changes nothing. */
  function Apply(jobs: Jobs, u: Update): (r: Jobs) {
    if u.Enqueue? then
      if u.id in jobs then jobs else jobs[u.id := NewJob(u.jobType, u.runId, u.now)]
    else
      map id | id in jobs :: UpdateRow(u, id, jobs[id])
  }

  function MatchedIds(jobs: Jobs, u: Update): (ids: set<JobId>) {
    set id | id in jobs && Matches(u, id, jobs[id])
  }

  function ApplyAll(jobs: Jobs, us: seq<Update>): (r: Jobs) {
    if us == [] then jobs else Apply(ApplyAll(jobs, us[..|us| - 1]), us[|us| - 1])
  }

  // ---------------------------------------------------------------- row life cycle

  function Rank(s: Status): (r: nat) {
    match s
    case Pending => 0
    case Running => 1
    case Failed => 2
    case Orphaned => 2
    case Complete => 3
  }

  /** What holds of every row the queue can reach. */
  predicate RowOk(job: Job) {
    && (job.status == Complete ==> job.exitCode == Some(0))
    && (job.status == Failed ==> job.exitCode.Some? && job.exitCode.value != 0)
    && (job.status == Orphaned ==> job.exitCode == None)
    && (job.status == Running || job.status == Pending ==> job.exitCode == None)
    && (job.endedAt.Some? <==> Terminal(job.status))
    && (job.workerId.Some? <==> job.status != Pending)
    && (job.claimedAt.Some? <==> job.status != Pending)
    && (job.lastHeartbeat.Some? <==> job.status != Pending)
  }

  ghost predicate TableOk(jobs: Jobs) {
    forall id :: id in jobs ==> RowOk(jobs[id])
  }

  /** What one statement may do to a row that was there before it. */
  predicate RowStep(a: Job, b: Job) {
    && a.jobType == b.jobType
    && a.createdAt == b.createdAt
    && (a.workerId.Some? ==> b.workerId == a.workerId && b.claimedAt == a.claimedAt)
    && (a.status != b.status ==> Rank(a.status) < Rank(b.status))
  }

  lemma ApplyKeepsTable(jobs: Jobs, u: Update)
    requires TableOk(jobs)
    ensures TableOk(Apply(jobs, u))
    ensures jobs.Keys <= Apply(jobs, u).Keys
    ensures forall id :: id in jobs ==> RowStep(jobs[id], Apply(jobs, u)[id])
  {
    forall id | id in jobs ensures RowOk(Apply(jobs, u)[id]) && RowStep(jobs[id], Apply(jobs, u)[id]) {
      assert RowOk(jobs[id]);
      if u.Enqueue? {
        assert Apply(jobs, u)[id] == jobs[id];
      } else {
        assert Apply(jobs, u)[id] == UpdateRow(u, id, jobs[id]);
      }
    }
  }

  // ---------------------------------------------------------------- counting and order

  function RunningIds(jobs: Jobs, t: string): (ids: set<JobId>) {
    set id | id in jobs && jobs[id].status == Running && jobs[id].jobType == t
  }

  function RunningCount(jobs: Jobs, t: string): (n: nat) { |RunningIds(jobs, t)| }

  function PendingIds(jobs: Jobs, t: string): (ids: set<JobId>) {
    set id | id in jobs && jobs[id].status == Pending && jobs[id].jobType == t
  }

  function PendingTypes(jobs: Jobs): (ts: set<string>) {
    set id | id in jobs && jobs[id].status == Pending :: jobs[id].jobType
  }

  predicate UnderCap(jobs: Jobs, limits: Limits, t: string) {
    RunningCount(jobs, t) < CapOf(limits, t)
  }

  /** ORDER BY created_at, id */
  predicate Older(jobs: Jobs, a: JobId, b: JobId)
    requires a in jobs && b in jobs
  {
    jobs[a].createdAt < jobs[b].createdAt || (jobs[a].createdAt == jobs[b].createdAt && a < b)
  }

  /** `id` is the first of the rows `ids` in claim order. */
  ghost predicate OldestOf(jobs: Jobs, ids: set<JobId>, id: JobId)
    requires forall j :: j in ids ==> j in jobs
  {
    id in ids && forall j :: j in ids && j != id ==> Older(jobs, id, j)
  }

  lemma PendingTypeHasRow(jobs: Jobs, t: string)
    requires t in PendingTypes(jobs)
    ensures PendingIds(jobs, t) != {}
  {
    var id :| id in jobs && jobs[id].status == Pending && jobs[id].jobType == t;
    assert id in PendingIds(jobs, t);
  }

  ghost function FirstCreated(jobs: Jobs, t: string): (c: int)
    requires t in PendingTypes(jobs)
    ensures exists id :: id in PendingIds(jobs, t) && jobs[id].createdAt == c
    ensures forall id :: id in PendingIds(jobs, t) ==> c <= jobs[id].createdAt
  {
    PendingTypeHasRow(jobs, t);
    var stamps := set id | id in PendingIds(jobs, t) :: jobs[id].createdAt;
    var id :| id in PendingIds(jobs, t);
    assert jobs[id].createdAt in stamps;
    var c := Least(stamps);
    assert forall j :: j in PendingIds(jobs, t) ==> jobs[j].createdAt in stamps;
    c
  }

  ghost function FirstId(jobs: Jobs, t: string): (m: JobId)
    requires t in PendingTypes(jobs)
    ensures m in PendingIds(jobs, t)
    ensures forall id :: id in PendingIds(jobs, t) ==> m <= id
  {
    PendingTypeHasRow(jobs, t);
    var ids: set<int> := set id | id in PendingIds(jobs, t) :: id as int;
    var id0 :| id0 in PendingIds(jobs, t);
    assert id0 as int in ids;
    var m := Least(ids);
    assert forall id :: id in PendingIds(jobs, t) ==> id as int in ids;
    m
  }

  /** ORDER BY min(created_at), min(id) over the pending rows of each type. */
  ghost predicate TypeBefore(jobs: Jobs, t: string, u: string)
    requires t in PendingTypes(jobs) && u in PendingTypes(jobs)
  {
    || FirstCreated(jobs, t) < FirstCreated(jobs, u)
    || (FirstCreated(jobs, t) == FirstCreated(jobs, u) && FirstId(jobs, t) < FirstId(jobs, u))
  }

  /** The answer of the grouped candidate query. */
  ghost predicate IsCandidateList(jobs: Jobs, ts: seq<string>) {
    && (forall t :: t in ts <==> t in PendingTypes(jobs))
    && (forall i, j :: 0 <= i < j < |ts| ==> ts[i] != ts[j] && TypeBefore(jobs, ts[i], ts[j]))
  }

  // ---------------------------------------------------------------- the global claim rule

  /** `id` is what a claim that runs alone must take. */
  ghost predicate ClaimPicks(jobs: Jobs, limits: Limits, id: JobId) {
    && id in jobs && jobs[id].status == Pending
    && var t := jobs[id].jobType;
    && UnderCap(jobs, limits, t)
    && OldestOf(jobs, PendingIds(jobs, t), id)
    && forall u :: u in PendingTypes(jobs) && u != t && UnderCap(jobs, limits, u) ==> TypeBefore(jobs, t, u)
  }

  /** Nothing may be claimed: every pending job's type is at its cap. */
  ghost predicate ClaimsNothing(jobs: Jobs, limits: Limits) {
    forall id :: id in jobs && jobs[id].status == Pending ==> !UnderCap(jobs, limits, jobs[id].jobType)
  }

  /** The claimed job is created no later than any pending job of any under-cap type. */
  lemma PickedIsGloballyOldest(jobs: Jobs, limits: Limits, id: JobId)
    requires ClaimPicks(jobs, limits, id)
    ensures forall j ::
      j in jobs && jobs[j].status == Pending && UnderCap(jobs, limits, jobs[j].jobType) ==>
        jobs[id].createdAt <= jobs[j].createdAt
  {
    var t := jobs[id].jobType;
    assert id in PendingIds(jobs, t) && t in PendingTypes(jobs);
    forall j | j in jobs && jobs[j].status == Pending && UnderCap(jobs, limits, jobs[j].jobType)
      ensures jobs[id].createdAt <= jobs[j].createdAt
    {
      var u := jobs[j].jobType;
      assert u in PendingTypes(jobs) && j in PendingIds(jobs, u);
      if u == t {
        assert j == id || Older(jobs, id, j);
      } else {
        var f :| f in PendingIds(jobs, t) && jobs[f].createdAt == FirstCreated(jobs, t);
        assert f == id || Older(jobs, id, f);
      }
    }
  }

  /** How ties are settled: within a type the smaller of two ids created at once goes first; of two types whose first jobs
      were created at once, the one that holds the smaller id, whichever of its jobs bears it. */
  lemma TiesAreSettledById(jobs: Jobs, limits: Limits, id: JobId, j: JobId)
    requires ClaimPicks(jobs, limits, id)
    requires j in jobs && jobs[j].status == Pending && UnderCap(jobs, limits, jobs[j].jobType)
    ensures var t, u := jobs[id].jobType, jobs[j].jobType;
      if t == u then jobs[id].createdAt < jobs[j].createdAt || (jobs[id].createdAt == jobs[j].createdAt && id <= j)
      else
        || (exists k :: k in PendingIds(jobs, u) && jobs[id].createdAt < jobs[k].createdAt
              && forall x :: x in PendingIds(jobs, u) ==> jobs[k].createdAt <= jobs[x].createdAt)
        || exists k :: k in PendingIds(jobs, t) && forall x :: x in PendingIds(jobs, u) ==> k < x
  {
    var t, u := jobs[id].jobType, jobs[j].jobType;
    assert id in PendingIds(jobs, t) && j in PendingIds(jobs, u);
    if t == u {
      assert j == id || Older(jobs, id, j);
    } else {
      assert u in PendingTypes(jobs) && TypeBefore(jobs, t, u);
      var f :| f in PendingIds(jobs, t) && jobs[f].createdAt == FirstCreated(jobs, t);
      assert f == id || Older(jobs, id, f);
      var k :| k in PendingIds(jobs, u) && jobs[k].createdAt == FirstCreated(jobs, u);
      if FirstCreated(jobs, t) >= FirstCreated(jobs, u) {
        assert FirstId(jobs, t) in PendingIds(jobs, t);
      }
    }
  }

  /** `a` comes before `b` in the order in which the rule considers pending jobs. */
  ghost predicate Beats(jobs: Jobs, a: JobId, b: JobId)
    requires a in jobs && jobs[a].status == Pending
    requires b in jobs && jobs[b].status == Pending
  {
    if jobs[a].jobType == jobs[b].jobType then Older(jobs, a, b)
    else TypeBefore(jobs, jobs[a].jobType, jobs[b].jobType)
  }

  lemma PickedBeats(jobs: Jobs, limits: Limits, a: JobId, b: JobId)
    requires ClaimPicks(jobs, limits, a)
    requires b in jobs && jobs[b].status == Pending && UnderCap(jobs, limits, jobs[b].jobType)
    ensures a == b || (Beats(jobs, a, b) && !Beats(jobs, b, a))
  {
    assert b in PendingIds(jobs, jobs[b].jobType) && jobs[b].jobType in PendingTypes(jobs);
  }

  /** The rule determines the job, and leaves no third outcome. */
  lemma ClaimRuleIsDeterministic(jobs: Jobs, limits: Limits, a: JobId, b: JobId)
    requires ClaimPicks(jobs, limits, a)
    ensures !ClaimsNothing(jobs, limits)
    ensures ClaimPicks(jobs, limits, b) ==> a == b
  {
    if ClaimPicks(jobs, limits, b) {
      PickedBeats(jobs, limits, a, b);
      PickedBeats(jobs, limits, b, a);
    }
  }

  lemma {:induction false} OldestExists(jobs: Jobs, ids: set<JobId>) returns (id: JobId)
    requires ids != {} && forall j :: j in ids ==> j in jobs
    ensures OldestOf(jobs, ids, id)
  {
    id := PickFrom(ids);
    var rest := ids - {id};
    assert forall j :: j in ids ==> j == id || j in rest;
    if rest != {} {
      var k := OldestExists(jobs, rest);
      if Older(jobs, k, id) { id := k; }
    }
  }

  lemma {:induction false} FirstTypeExists(jobs: Jobs, ts: set<string>) returns (t: string)
    requires ts != {} && ts <= PendingTypes(jobs)
    ensures t in ts && forall u :: u in ts && u != t ==> TypeBefore(jobs, t, u)
  {
    t := PickFrom(ts);
    var rest := ts - {t};
    assert forall u :: u in ts ==> u == t || u in rest;
    if rest != {} {
      var u := FirstTypeExists(jobs, rest);
      assert FirstId(jobs, u) in PendingIds(jobs, u) && FirstId(jobs, t) in PendingIds(jobs, t);
      if TypeBefore(jobs, u, t) { t := u; }
    }
  }

  /** Whenever some pending job's type is under its cap, the rule picks a job. */
  lemma RulePicksWhenItCan(jobs: Jobs, limits: Limits) returns (id: JobId)
    requires !ClaimsNothing(jobs, limits)
    ensures ClaimPicks(jobs, limits, id)
  {
    var ts := set u | u in PendingTypes(jobs) && UnderCap(jobs, limits, u);
    var j :| j in jobs && jobs[j].status == Pending && UnderCap(jobs, limits, jobs[j].jobType);
    assert jobs[j].jobType in ts;
    var t := FirstTypeExists(jobs, ts);
    PendingTypeHasRow(jobs, t);
    id := OldestExists(jobs, PendingIds(jobs, t));
  }

  /** The oldest row of the first under-cap candidate type is the job the global rule picks. */
  lemma ListedFirstIsPicked(jobs: Jobs, limits: Limits, ts: seq<string>, i: nat, id: JobId)
    requires IsCandidateList(jobs, ts) && i < |ts|
    requires forall k :: 0 <= k < i ==> !UnderCap(jobs, limits, ts[k])
    requires UnderCap(jobs, limits, ts[i])
    requires OldestOf(jobs, PendingIds(jobs, ts[i]), id)
    ensures ClaimPicks(jobs, limits, id)
  {
    forall u | u in PendingTypes(jobs) && u != ts[i] && UnderCap(jobs, limits, u)
      ensures TypeBefore(jobs, ts[i], u)
    {
      var k :| 0 <= k < |ts| && ts[k] == u;
      assert i < k;
    }
  }

  lemma ListExhausted(jobs: Jobs, limits: Limits, ts: seq<string>)
    requires IsCandidateList(jobs, ts)
    requires forall k :: 0 <= k < |ts| ==> !UnderCap(jobs, limits, ts[k])
    ensures ClaimsNothing(jobs, limits)
  {
    forall id | id in jobs && jobs[id].status == Pending ensures !UnderCap(jobs, limits, jobs[id].jobType) {
      assert jobs[id].jobType in PendingTypes(jobs);
      var k :| 0 <= k < |ts| && ts[k] == jobs[id].jobType;
    }
  }
}
