/** `claim_next_job` statement by statement, among any number of concurrent transactions.
    A session is one open claim transaction. Its advisory locks and row locks are held until it commits
    or aborts; its UPDATE is invisible to everyone else until it commits; every SELECT sees the rows
    committed at that moment. All other statements of the queue are single-statement transactions. */
module ClaimProtocol {
  import opened Prelude
  import opened JobTable

  type SessionId = nat
  type LockKey = int                      // hashtext(job_type): distinct types may share a key

  datatype Pc =
    | Scanning                            // about to take the next candidate type, or done
    | Locked(t: string)                   // holds the type's lock, about to read its cap
    | CapRead(t: string, cap: nat)        // about to count the running rows
    | Counted(t: string)                  // saw fewer running rows than the cap
    | Selected(t: string, id: JobId)      // holds the row lock of the oldest unlocked pending row
    | Written(t: string, id: JobId)       // has updated the row, not yet committed

  datatype Session = Session(
    worker: string, now: int, rest: seq<string>, locks: set<LockKey>, rows: set<JobId>, pc: Pc)

  datatype State = State(jobs: Jobs, limits: Limits, sessions: map<SessionId, Session>)

  datatype Step =
    | Begin(sid: SessionId, worker: string, now: int, candidates: seq<string>)
    | Lock(sid: SessionId)
    | ReadCap(sid: SessionId)
    | Count(sid: SessionId)
    | Select(sid: SessionId, found: Option<JobId>)
    | Write(sid: SessionId)
    | Commit(sid: SessionId)
    | Abort(sid: SessionId)
    | Statement(update: Update)           // any other statement on the jobs table
    | SetCap(jobType: string, cap: nat)

  // ---------------------------------------------------------------- the transition system

  predicate LockFree(s: State, sid: SessionId, key: LockKey) {
    forall o :: o in s.sessions && o != sid ==> key !in s.sessions[o].locks
  }

  /** FOR UPDATE SKIP LOCKED sees only the pending rows no other session has locked. */
  function VisiblePending(s: State, sid: SessionId, t: string): (ids: set<JobId>) {
    set id | id in PendingIds(s.jobs, t) && forall o :: o in s.sessions && o != sid ==> id !in s.sessions[o].rows
  }

  /** A statement that would change a row some session has locked waits for that session. */
  predicate Waits(s: State, u: Update) {
    exists o, id :: o in s.sessions && id in s.sessions[o].rows && id in s.jobs && Matches(u, id, s.jobs[id])
  }

  ghost predicate Enabled(hash: string -> LockKey, s: State, step: Step) {
    match step
    case Begin(sid, _, _, candidates) => sid !in s.sessions && IsCandidateList(s.jobs, candidates)
    case Lock(sid) =>
      && sid in s.sessions && s.sessions[sid].pc.Scanning? && s.sessions[sid].rest != []
      && LockFree(s, sid, hash(s.sessions[sid].rest[0]))
    case ReadCap(sid) => sid in s.sessions && s.sessions[sid].pc.Locked?
    case Count(sid) => sid in s.sessions && s.sessions[sid].pc.CapRead?
    case Select(sid, found) =>
      && sid in s.sessions && s.sessions[sid].pc.Counted?
      && var visible := VisiblePending(s, sid, s.sessions[sid].pc.t);
      && (found.None? <==> visible == {})
      && (found.Some? ==> OldestOf(s.jobs, visible, found.value))
    case Write(sid) => sid in s.sessions && s.sessions[sid].pc.Selected?
    case Commit(sid) =>
      && sid in s.sessions
      && (s.sessions[sid].pc.Written? || (s.sessions[sid].pc.Scanning? && s.sessions[sid].rest == []))
    case Abort(sid) => sid in s.sessions
    case Statement(u) => !u.Claim? && !Waits(s, u)
    case SetCap(_, cap) => cap > 0
  }

  function Put(s: State, sid: SessionId, c: Session): (r: State) { s.(sessions := s.sessions[sid := c]) }

  function Close(s: State, sid: SessionId): (r: State) { s.(sessions := s.sessions - {sid}) }

  ghost function Next(hash: string -> LockKey, s: State, step: Step): (r: State)
    requires Enabled(hash, s, step)
  {
    match step
    case Begin(sid, worker, now, candidates) =>
      Put(s, sid, Session(worker, now, candidates, {}, {}, Scanning))
    case Lock(sid) =>
      var c := s.sessions[sid];
      Put(s, sid, c.(pc := Locked(c.rest[0]), rest := c.rest[1..], locks := c.locks + {hash(c.rest[0])}))
    case ReadCap(sid) =>
      var c := s.sessions[sid];
      Put(s, sid, c.(pc := CapRead(c.pc.t, CapOf(s.limits, c.pc.t))))
    case Count(sid) =>
      var c := s.sessions[sid];
      Put(s, sid, c.(pc := if RunningCount(s.jobs, c.pc.t) >= c.pc.cap then Scanning else Counted(c.pc.t)))
    case Select(sid, found) =>
      var c := s.sessions[sid];
      if found.None? then Put(s, sid, c.(pc := Scanning))
      else Put(s, sid, c.(pc := Selected(c.pc.t, found.value), rows := c.rows + {found.value}))
    case Write(sid) =>
      var c := s.sessions[sid];
      var id := c.pc.id;
      Put(s, sid, c.(pc := if id in s.jobs && s.jobs[id].status == Pending then Written(c.pc.t, id) else Scanning))
    case Commit(sid) =>
      var c := s.sessions[sid];
      var done := Close(s, sid);
      if c.pc.Written? then done.(jobs := Apply(s.jobs, Claim(c.pc.id, c.worker, c.now))) else done
    case Abort(sid) => Close(s, sid)
    case Statement(u) => s.(jobs := Apply(s.jobs, u))
    case SetCap(t, cap) => s.(limits := s.limits[t := cap])
  }

  // ---------------------------------------------------------------- the invariant

  ghost predicate SessionOk(hash: string -> LockKey, s: State, c: Session, peak: string -> nat) {
    && (forall id :: id in c.rows ==> id in s.jobs && s.jobs[id].status == Pending)
    && match c.pc
       case Scanning => true
       case Locked(t) => hash(t) in c.locks
       case CapRead(t, cap) => hash(t) in c.locks && cap <= peak(t)
       case Counted(t) => hash(t) in c.locks && RunningCount(s.jobs, t) < peak(t)
       case Selected(t, id) =>
         hash(t) in c.locks && RunningCount(s.jobs, t) < peak(t) && id in c.rows && s.jobs[id].jobType == t
       case Written(t, id) =>
         hash(t) in c.locks && RunningCount(s.jobs, t) < peak(t) && id in c.rows && s.jobs[id].jobType == t
  }

  ghost predicate Exclusive(s: State) {
    forall a, b :: a in s.sessions && b in s.sessions && a != b ==>
      s.sessions[a].locks !! s.sessions[b].locks && s.sessions[a].rows !! s.sessions[b].rows
  }

  ghost predicate WithinPeak(s: State, peak: string -> nat) {
    forall t: string :: RunningCount(s.jobs, t) <= peak(t) && CapOf(s.limits, t) <= peak(t)
  }

  ghost predicate Inv(hash: string -> LockKey, s: State, peak: string -> nat) {
    && Exclusive(s)
    && WithinPeak(s, peak)
    && forall sid :: sid in s.sessions ==> SessionOk(hash, s, s.sessions[sid], peak)
  }

  /** Only a claim puts a row into the running state. */
  lemma StatementsStartNothing(jobs: Jobs, u: Update, t: string)
    requires !u.Claim?
    ensures RunningCount(Apply(jobs, u), t) <= RunningCount(jobs, t)
  {
    var after := Apply(jobs, u);
    forall id | id in RunningIds(after, t) ensures id in RunningIds(jobs, t) {
      if !u.Enqueue? { assert after[id] == UpdateRow(u, id, jobs[id]); }
    }
    SubsetCard(RunningIds(after, t), RunningIds(jobs, t));
  }

  /** A claim of a pending row adds exactly that row to the running rows of its type. */
  lemma ClaimStartsOne(jobs: Jobs, id: JobId, worker: string, now: int, t: string)
    requires id in jobs && jobs[id].status == Pending
    ensures RunningIds(Apply(jobs, Claim(id, worker, now)), t) ==
      RunningIds(jobs, t) + (if jobs[id].jobType == t then {id} else {})
    ensures RunningCount(Apply(jobs, Claim(id, worker, now)), t) ==
      RunningCount(jobs, t) + (if jobs[id].jobType == t then 1 else 0)
  {
    var after := Apply(jobs, Claim(id, worker, now));
    assert forall j :: j in jobs ==> after[j] == UpdateRow(Claim(id, worker, now), j, jobs[j]);
    assert RunningIds(after, t) == RunningIds(jobs, t) + (if jobs[id].jobType == t then {id} else {});
    assert id !in RunningIds(jobs, t);
  }

  /** Moving one session on, with the tables as they were. */
  lemma SessionMoveKeepsInv(hash: string -> LockKey, s: State, sid: SessionId, c: Session, peak: string -> nat)
    requires Inv(hash, s, peak)
    requires SessionOk(hash, s, c, peak)
    requires forall o :: o in s.sessions && o != sid ==>
      c.locks !! s.sessions[o].locks && c.rows !! s.sessions[o].rows
    ensures Inv(hash, Put(s, sid, c), peak)
  {
    var r := Put(s, sid, c);
    forall o | o in r.sessions ensures SessionOk(hash, r, r.sessions[o], peak) {
      if o != sid { assert SessionOk(hash, s, s.sessions[o], peak); }
    }
  }

  lemma StatementKeepsInv(hash: string -> LockKey, s: State, u: Update, peak: string -> nat)
    requires Inv(hash, s, peak) && !u.Claim? && !Waits(s, u)
    ensures Inv(hash, s.(jobs := Apply(s.jobs, u)), peak)
  {
    var r := s.(jobs := Apply(s.jobs, u));
    forall t: string ensures RunningCount(r.jobs, t) <= RunningCount(s.jobs, t) {
      StatementsStartNothing(s.jobs, u, t);
    }
    forall o | o in r.sessions ensures SessionOk(hash, r, r.sessions[o], peak) {
      assert SessionOk(hash, s, s.sessions[o], peak);
      forall id | id in s.sessions[o].rows ensures id in r.jobs && r.jobs[id] == s.jobs[id] {
        assert !Matches(u, id, s.jobs[id]);
      }
    }
  }

  /** Committing a claim: the session alone holds the type's lock, so no one else counted on the same slot. */
  lemma CommitKeepsInv(hash: string -> LockKey, s: State, sid: SessionId, peak: string -> nat)
    requires Inv(hash, s, peak)
    requires sid in s.sessions && s.sessions[sid].pc.Written?
    ensures Inv(hash, Next(hash, s, Commit(sid)), peak)
  {
    var c := s.sessions[sid];
    var id, t := c.pc.id, c.pc.t;
    var r := Next(hash, s, Commit(sid));
    assert SessionOk(hash, s, c, peak);
    forall u: string ensures RunningCount(r.jobs, u) <= peak(u) {
      ClaimStartsOne(s.jobs, id, c.worker, c.now, u);
    }
    forall o | o in r.sessions ensures SessionOk(hash, r, r.sessions[o], peak) {
      var d := s.sessions[o];
      assert SessionOk(hash, s, d, peak);
      assert c.locks !! d.locks && c.rows !! d.rows;
      forall j | j in d.rows ensures j in r.jobs && r.jobs[j] == s.jobs[j] {
        assert j != id;
      }
      if d.pc.Counted? || d.pc.Selected? || d.pc.Written? {
        assert d.pc.t != t;
        ClaimStartsOne(s.jobs, id, c.worker, c.now, d.pc.t);
      }
    }
  }

  lemma CloseKeepsInv(hash: string -> LockKey, s: State, sid: SessionId, peak: string -> nat)
    requires Inv(hash, s, peak)
    ensures Inv(hash, Close(s, sid), peak)
  {
    var r := Close(s, sid);
    forall o | o in r.sessions ensures SessionOk(hash, r, r.sessions[o], peak) {
      assert SessionOk(hash, s, s.sessions[o], peak);
    }
  }

  /** Peaks may only grow. */
  lemma RaisePeak(hash: string -> LockKey, s: State, p: string -> nat, q: string -> nat)
    requires Inv(hash, s, p)
    requires forall t: string :: p(t) <= q(t)
    ensures Inv(hash, s, q)
  {
    forall o | o in s.sessions ensures SessionOk(hash, s, s.sessions[o], q) {
      assert SessionOk(hash, s, s.sessions[o], p);
    }
    forall t: string ensures RunningCount(s.jobs, t) <= q(t) && CapOf(s.limits, t) <= q(t) {
      assert p(t) <= q(t);
    }
  }

  lemma SetCapKeepsInv(hash: string -> LockKey, s: State, t: string, cap: nat, p: string -> nat, q: string -> nat)
    requires Inv(hash, s, p) && cap > 0
    requires forall u: string :: p(u) <= q(u) && CapOf(s.limits[t := cap], u) <= q(u)
    ensures Inv(hash, s.(limits := s.limits[t := cap]), q)
  {
    RaisePeak(hash, s, p, q);
    var r := s.(limits := s.limits[t := cap]);
    forall o | o in r.sessions ensures SessionOk(hash, r, r.sessions[o], q) {
      assert SessionOk(hash, s, s.sessions[o], q);
    }
    forall u: string ensures RunningCount(r.jobs, u) <= q(u) && CapOf(r.limits, u) <= q(u) {
      assert RunningCount(s.jobs, u) <= q(u);
    }
  }

  /** Every step of every transaction keeps the invariant, for any peak that covers the caps after it. */
  lemma StepKeepsInv(hash: string -> LockKey, s: State, step: Step, p: string -> nat, q: string -> nat)
    requires Inv(hash, s, p) && Enabled(hash, s, step)
    requires forall t: string :: p(t) <= q(t) && CapOf(Next(hash, s, step).limits, t) <= q(t)
    ensures Inv(hash, Next(hash, s, step), q)
  {
    RaisePeak(hash, s, p, q);
    match step
    case Begin(sid, worker, now, candidates) =>
      SessionMoveKeepsInv(hash, s, sid, Session(worker, now, candidates, {}, {}, Scanning), q);
    case Abort(sid) => CloseKeepsInv(hash, s, sid, q);
    case Statement(u) => StatementKeepsInv(hash, s, u, q);
    case SetCap(t, cap) => SetCapKeepsInv(hash, s, t, cap, p, q);
    case Commit(sid) =>
      if s.sessions[sid].pc.Written? { CommitKeepsInv(hash, s, sid, q); } else { CloseKeepsInv(hash, s, sid, q); }
    case Lock(sid) => ClaimStepKeepsInv(hash, s, step, q);
    case ReadCap(sid) => ClaimStepKeepsInv(hash, s, step, q);
    case Count(sid) => ClaimStepKeepsInv(hash, s, step, q);
    case Select(sid, _) => ClaimStepKeepsInv(hash, s, step, q);
    case Write(sid) => ClaimStepKeepsInv(hash, s, step, q);
  }

  lemma ClaimStepKeepsInv(hash: string -> LockKey, s: State, step: Step, peak: string -> nat)
    requires Inv(hash, s, peak) && Enabled(hash, s, step)
    requires step.Lock? || step.ReadCap? || step.Count? || step.Select? || step.Write?
    ensures Inv(hash, Next(hash, s, step), peak)
  {
    var sid := step.sid;
    var c := Next(hash, s, step).sessions[sid];
    assert SessionOk(hash, s, s.sessions[sid], peak);
    forall o | o in s.sessions && o != sid
      ensures c.locks !! s.sessions[o].locks && c.rows !! s.sessions[o].rows
    {
      assert s.sessions[sid].locks !! s.sessions[o].locks && s.sessions[sid].rows !! s.sessions[o].rows;
    }
    SessionMoveKeepsInv(hash, s, sid, c, peak);
  }

  // ---------------------------------------------------------------- runs

  ghost predicate Start(s: State) {
    s.sessions == map[] && TableOk(s.jobs) && forall t: string :: RunningCount(s.jobs, t) <= CapOf(s.limits, t)
  }

  ghost predicate IsRun(hash: string -> LockKey, states: seq<State>, steps: seq<Step>) {
    && |states| == |steps| + 1
    && Start(states[0])
    && forall i :: 0 <= i < |steps| ==> IsMove(hash, states, steps, i)
  }

  ghost predicate IsMove(hash: string -> LockKey, states: seq<State>, steps: seq<Step>, i: nat)
    requires i < |steps| && |states| == |steps| + 1
  {
    Enabled(hash, states[i], steps[i]) && states[i + 1] == Next(hash, states[i], steps[i])
  }

  /** The largest cap type `t` has had up to moment `i`. */
  function PeakCap(states: seq<State>, i: nat, t: string): (p: nat)
    requires i < |states|
    ensures forall j :: 0 <= j <= i ==> CapOf(states[j].limits, t) <= p
    ensures exists j :: 0 <= j <= i && CapOf(states[j].limits, t) == p
  {
    if i == 0 then CapOf(states[0].limits, t)
    else MaxInt(PeakCap(states, i - 1, t), CapOf(states[i].limits, t))
  }

  lemma {:induction false} RunKeepsInv(hash: string -> LockKey, states: seq<State>, steps: seq<Step>, i: nat)
    requires IsRun(hash, states, steps) && i < |states|
    ensures Inv(hash, states[i], t => PeakCap(states, i, t))
    ensures TableOk(states[i].jobs)
  {
    if i > 0 {
      RunKeepsInv(hash, states, steps, i - 1);
      assert IsMove(hash, states, steps, i - 1);
      StepKeepsInv(hash, states[i - 1], steps[i - 1], t => PeakCap(states, i - 1, t), t => PeakCap(states, i, t));
      StepKeepsRows(hash, states[i - 1], steps[i - 1]);
    }
  }

  /** Safety over every run: the running jobs of a type never outnumber the largest cap it has had. */
  lemma RunningNeverExceedsPeakCap(hash: string -> LockKey, states: seq<State>, steps: seq<Step>, i: nat, t: string)
    requires IsRun(hash, states, steps) && i < |states|
    ensures RunningCount(states[i].jobs, t) <= PeakCap(states, i, t)
    ensures exists j :: 0 <= j <= i && RunningCount(states[i].jobs, t) <= CapOf(states[j].limits, t)
  {
    RunKeepsInv(hash, states, steps, i);
    var peak := (u: string) => PeakCap(states, i, u);
    assert RunningCount(states[i].jobs, t) <= peak(t);
  }

  /** With caps left alone, the bound is the cap itself. */
  lemma ConstantCapIsNeverExceeded(hash: string -> LockKey, states: seq<State>, steps: seq<Step>, i: nat, t: string)
    requires IsRun(hash, states, steps) && i < |states|
    requires forall j :: 0 <= j < |steps| && steps[j].SetCap? ==> steps[j].jobType != t
    ensures RunningCount(states[i].jobs, t) <= CapOf(states[i].limits, t)
  {
    CapUntouched(hash, states, steps, i, t);
    RunningNeverExceedsPeakCap(hash, states, steps, i, t);
    var j :| 0 <= j <= i && RunningCount(states[i].jobs, t) <= CapOf(states[j].limits, t);
    CapUntouched(hash, states, steps, j, t);
  }

  /** A type for which no cap is ever set runs one job at a time. */
  lemma UnlistedTypesRunOneAtATime(hash: string -> LockKey, states: seq<State>, steps: seq<Step>, i: nat, t: string)
    requires IsRun(hash, states, steps) && i < |states|
    requires t !in states[0].limits && forall j :: 0 <= j < |steps| && steps[j].SetCap? ==> steps[j].jobType != t
    ensures |set id | id in states[i].jobs && states[i].jobs[id].status == Running && states[i].jobs[id].jobType == t| <= 1
  {
    ConstantCapIsNeverExceeded(hash, states, steps, i, t);
    CapUntouched(hash, states, steps, i, t);
    assert (set id | id in states[i].jobs && states[i].jobs[id].status == Running && states[i].jobs[id].jobType == t)
        == RunningIds(states[i].jobs, t);
  }

  lemma {:induction false} CapUntouched(hash: string -> LockKey, states: seq<State>, steps: seq<Step>, i: nat, t: string)
    requires IsRun(hash, states, steps) && i < |states|
    requires forall j :: 0 <= j < |steps| && steps[j].SetCap? ==> steps[j].jobType != t
    ensures CapOf(states[i].limits, t) == CapOf(states[0].limits, t)
  {
    if i > 0 {
      CapUntouched(hash, states, steps, i - 1, t);
      assert IsMove(hash, states, steps, i - 1);
    }
  }

  /** The current cap is not a bound: lowering a cap stops nothing that already runs. */
  lemma LoweredCapCanBeExceeded(hash: string -> LockKey) returns (states: seq<State>, steps: seq<Step>, t: string)
    ensures IsRun(hash, states, steps)
    ensures RunningCount(states[|states| - 1].jobs, t) > CapOf(states[|states| - 1].limits, t)
  {
    t := "hash_capture";
    var row := NewJob(t, None, 0).(status := Running, workerId := Some("w"), claimedAt := Some(0), lastHeartbeat := Some(0));
    var jobs: Jobs := map[0 := row, 1 := row];
    var s := State(jobs, map[t := 5], map[]);
    assert RunningIds(jobs, t) == {0, 1};
    forall u: string ensures RunningCount(jobs, u) <= CapOf(s.limits, u) {
      if u != t { assert RunningIds(jobs, u) == {}; }
    }
    states, steps := [s, s.(limits := map[t := 5][t := 1])], [SetCap(t, 1)];
    assert Start(s);
    assert IsMove(hash, states, steps, 0);
  }

  // ---------------------------------------------------------------- life of one job over a run

  lemma StepKeepsRows(hash: string -> LockKey, s: State, step: Step)
    requires TableOk(s.jobs) && Enabled(hash, s, step)
    ensures TableOk(Next(hash, s, step).jobs)
    ensures s.jobs.Keys <= Next(hash, s, step).jobs.Keys
    ensures forall id :: id in s.jobs ==> RowStep(s.jobs[id], Next(hash, s, step).jobs[id])
  {
    match step
    case Statement(u) => ApplyKeepsTable(s.jobs, u);
    case Commit(sid) =>
      if s.sessions[sid].pc.Written? {
        ApplyKeepsTable(s.jobs, Claim(s.sessions[sid].pc.id, s.sessions[sid].worker, s.sessions[sid].now));
      }
    case _ =>
  }

  /** What time can do to a row: its worker and claim time, once set, never change, and its rank never falls. */
  predicate Evolves(a: Job, b: Job) {
    && (a.workerId.Some? ==> b.workerId == a.workerId && b.claimedAt == a.claimedAt)
    && b.jobType == a.jobType && b.createdAt == a.createdAt
    && Rank(a.status) <= Rank(b.status)
    && (Rank(a.status) == Rank(b.status) ==> a.status == b.status)
  }

  lemma EvolvesCompose(a: Job, b: Job, c: Job)
    requires Evolves(a, b) && Evolves(b, c)
    ensures Evolves(a, c)
  {
  }

  lemma RowOverStep(hash: string -> LockKey, s: State, step: Step, id: JobId)
    requires TableOk(s.jobs) && Enabled(hash, s, step) && id in s.jobs
    ensures id in Next(hash, s, step).jobs && Evolves(s.jobs[id], Next(hash, s, step).jobs[id])
  {
    StepKeepsRows(hash, s, step);
    assert RowOk(s.jobs[id]) && RowStep(s.jobs[id], Next(hash, s, step).jobs[id]);
  }

  lemma RowOverMove(hash: string -> LockKey, states: seq<State>, steps: seq<Step>, k: nat, id: JobId)
    requires IsRun(hash, states, steps) && k < |steps| && id in states[k].jobs
    ensures id in states[k + 1].jobs && Evolves(states[k].jobs[id], states[k + 1].jobs[id])
  {
    RunKeepsInv(hash, states, steps, k);
    assert IsMove(hash, states, steps, k);
    RowOverStep(hash, states[k], steps[k], id);
  }

  /** A row, once there, stays, and only evolves. */
  lemma {:induction false} RowOverRun(hash: string -> LockKey, states: seq<State>, steps: seq<Step>, i: nat, j: nat, id: JobId)
    requires IsRun(hash, states, steps) && i <= j < |states| && id in states[i].jobs
    ensures id in states[j].jobs && Evolves(states[i].jobs[id], states[j].jobs[id])
    decreases j
  {
    if i < j {
      RowOverRun(hash, states, steps, i, j - 1, id);
      RowOverMove(hash, states, steps, j - 1, id);
      EvolvesCompose(states[i].jobs[id], states[j - 1].jobs[id], states[j].jobs[id]);
    }
  }

  /** How often the status of `id` changes between moments `i` and `j`. */
  function StatusChanges(states: seq<State>, i: nat, j: nat, id: JobId): (n: nat)
    requires i <= j < |states| && forall k :: i <= k <= j ==> id in states[k].jobs
    decreases j - i
  {
    if i == j then 0
    else StatusChanges(states, i, j - 1, id) +
         (if states[j - 1].jobs[id].status == states[j].jobs[id].status then 0 else 1)
  }

  lemma {:induction false} AtMostThreeStatusChanges(hash: string -> LockKey, states: seq<State>, steps: seq<Step>, i: nat, j: nat, id: JobId)
    requires IsRun(hash, states, steps) && i <= j < |states| && id in states[i].jobs
    ensures forall k :: i <= k <= j ==> id in states[k].jobs
    ensures StatusChanges(states, i, j, id) <= Rank(states[j].jobs[id].status) - Rank(states[i].jobs[id].status) <= 3
    decreases j
  {
    forall k | i <= k <= j ensures id in states[k].jobs { RowOverRun(hash, states, steps, i, k, id); }
    if i < j {
      AtMostThreeStatusChanges(hash, states, steps, i, j - 1, id);
      RowOverRun(hash, states, steps, j - 1, j, id);
    }
  }

  ghost predicate CommitsClaimOf(s: State, step: Step, id: JobId) {
    step.Commit? && step.sid in s.sessions && s.sessions[step.sid].pc.Written? && s.sessions[step.sid].pc.id == id
  }

  /** A claim commits on a pending row, which it makes the session's. */
  lemma CommitClaims(hash: string -> LockKey, states: seq<State>, steps: seq<Step>, k: nat, id: JobId)
    requires IsRun(hash, states, steps) && k < |steps| && CommitsClaimOf(states[k], steps[k], id)
    ensures id in states[k].jobs && states[k].jobs[id].status == Pending
    ensures id in states[k + 1].jobs && states[k + 1].jobs[id].status == Running
    ensures states[k + 1].jobs[id].workerId == Some(states[k].sessions[steps[k].sid].worker)
    ensures states[k + 1].jobs[id].claimedAt == Some(states[k].sessions[steps[k].sid].now)
    ensures states[k + 1].jobs[id].lastHeartbeat == Some(states[k].sessions[steps[k].sid].now)
  {
    RunKeepsInv(hash, states, steps, k);
    assert IsMove(hash, states, steps, k);
    var c := states[k].sessions[steps[k].sid];
    assert SessionOk(hash, states[k], c, t => PeakCap(states, k, t));
  }

  /** No job is claimed twice, by the same worker or another. */
  lemma ClaimedAtMostOnce(hash: string -> LockKey, states: seq<State>, steps: seq<Step>, i: nat, j: nat, id: JobId)
    requires IsRun(hash, states, steps) && i < j < |steps|
    requires CommitsClaimOf(states[i], steps[i], id)
    ensures !CommitsClaimOf(states[j], steps[j], id)
    ensures id in states[j].jobs && states[j].jobs[id].workerId == Some(states[i].sessions[steps[i].sid].worker)
  {
    CommitClaims(hash, states, steps, i, id);
    RowOverRun(hash, states, steps, i + 1, j, id);
    if CommitsClaimOf(states[j], steps[j], id) {
      CommitClaims(hash, states, steps, j, id);
    }
  }

  /** A row lock makes a kill request or an argument update of that row wait, and no other statement: the locked
      rows are pending ones, which none of the others matches. */
  lemma OnlyKillsAndArgsWait(hash: string -> LockKey, states: seq<State>, steps: seq<Step>, i: nat, u: Update)
    requires IsRun(hash, states, steps) && i < |states|
    requires !u.Claim?
    ensures Waits(states[i], u) <==>
      && (u.Kill? || u.SetArgs?) && u.id in states[i].jobs
      && exists o :: o in states[i].sessions && u.id in states[i].sessions[o].rows
  {
    RunKeepsInv(hash, states, steps, i);
    var s := states[i];
    if Waits(s, u) {
      var o, id :| o in s.sessions && id in s.sessions[o].rows && id in s.jobs && Matches(u, id, s.jobs[id]);
      assert SessionOk(hash, s, s.sessions[o], t => PeakCap(states, i, t));
    }
  }
}
