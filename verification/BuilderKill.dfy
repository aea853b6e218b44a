/** What a call does about a lost row, a kill request, a stop and an exit, told from its log of statements and the
    environment's script alone. */
module BuilderKill {
  import opened Prelude
  import opened JobTable
  import opened BuilderCall

  // ---------------------------------------------------------------- where a beat stands in the log

  function BeatLength(tick: Tick): (n: nat) { |tick.before| + (if tick.heartbeatOk then 1 else 0) + |tick.between| }

  /** How many statements `k` beats from tick `i` on commit; so, of all beats, where beat `k` starts. */
  function Pos(ticks: seq<Tick>, i: nat, k: nat): (n: nat)
    decreases k
  {
    if i >= |ticks| || k == 0 then 0 else BeatLength(ticks[i]) + Pos(ticks, i + 1, k - 1)
  }

  /** Just before beat `k` sends its heartbeat. */
  function HeartbeatAt(ticks: seq<Tick>, i: nat, k: nat): (n: nat)
    requires i + k < |ticks|
  {
    Pos(ticks, i, k) + |ticks[i + k].before|
  }

  lemma {:induction false} LogLength(id: JobId, worker: string, ticks: seq<Tick>, i: nat, k: nat)
    ensures |CourseLog(id, worker, ticks, i, k)| == Pos(ticks, i, k)
    decreases k
  {
    if i < |ticks| && k > 0 { LogLength(id, worker, ticks, i + 1, k - 1); }
  }

  lemma {:induction false} PosGrows(ticks: seq<Tick>, i: nat, k: nat, n: nat)
    requires k < n && i + n <= |ticks|
    ensures HeartbeatAt(ticks, i, k) <= Pos(ticks, i, k + 1) <= Pos(ticks, i, n)
    ensures ticks[i + k].heartbeatOk ==> HeartbeatAt(ticks, i, k) < Pos(ticks, i, k + 1)
    decreases n
  {
    if k > 0 {
      PosGrows(ticks, i + 1, k - 1, n - 1);
    } else {
      assert Pos(ticks, i + 1, 0) == 0;
    }
  }

  // ---------------------------------------------------------------- one beat

  predicate OursRunning(jobs: Jobs, id: JobId, worker: string) {
    id in jobs && jobs[id].status == Running && jobs[id].workerId == Some(worker)
  }

  predicate Flagged(jobs: Jobs, id: JobId) { id in jobs && jobs[id].killRequested }

  /** Beat `k` of a course tells the child to terminate. */
  predicate Cause(jobs: Jobs, log: seq<Entry>, id: JobId, ticks: seq<Tick>, i: nat, k: nat)
    requires i + k < |ticks| && Pos(ticks, i, k + 1) <= |log|
  {
    || ticks[i + k].stop
    || (ticks[i + k].heartbeatOk && ticks[i + k].readOk && Flagged(After(jobs, log, Pos(ticks, i, k + 1)), id))
  }

  /** The table when beat `k` of a course from tick `i` starts. */
  function TableAt(jobs: Jobs, id: JobId, worker: string, ticks: seq<Tick>, i: nat, k: nat): (t: Jobs)
    decreases k
  {
    if i >= |ticks| || k == 0 then jobs else TableAt(PulseOf(jobs, id, worker, ticks[i]).jobs, id, worker, ticks, i + 1, k - 1)
  }

  lemma {:induction false} LogSplits(id: JobId, worker: string, ticks: seq<Tick>, i: nat, k: nat, n: nat)
    requires k <= n && i + n <= |ticks|
    ensures CourseLog(id, worker, ticks, i, n) == CourseLog(id, worker, ticks, i, k) + CourseLog(id, worker, ticks, i + k, n - k)
    decreases k
  {
    if k > 0 {
      LogSplits(id, worker, ticks, i + 1, k - 1, n - 1);
      var first, mid, last := PulseLog(id, worker, ticks[i]), CourseLog(id, worker, ticks, i + 1, k - 1), CourseLog(id, worker, ticks, i + k, n - k);
      assert CourseLog(id, worker, ticks, i + 1, n - 1) == mid + last;
      assert CourseLog(id, worker, ticks, i, k) == first + mid;
      Regroup(first, mid, last);
    }
  }

  lemma Regroup(a: seq<Entry>, b: seq<Entry>, c: seq<Entry>)
    ensures a + (b + c) == a + b + c
  {
  }

  /** The log of `k` beats leads to that table. */
  lemma {:induction false} TableAfter(jobs: Jobs, id: JobId, worker: string, ticks: seq<Tick>, i: nat, k: nat)
    requires i + k <= |ticks|
    ensures Leads(jobs, CourseLog(id, worker, ticks, i, k), TableAt(jobs, id, worker, ticks, i, k))
    decreases k
  {
    if k > 0 {
      var p := PulseOf(jobs, id, worker, ticks[i]);
      TableAfter(p.jobs, id, worker, ticks, i + 1, k - 1);
      BeatThenLog(jobs, id, worker, ticks, i, k - 1, TableAt(p.jobs, id, worker, ticks, i + 1, k - 1));
    }
  }

  lemma LaterBeat(jobs: Jobs, id: JobId, worker: string, tick: Tick, rest: seq<Entry>, n: nat)
    requires n <= |rest|
    ensures After(jobs, PulseLog(id, worker, tick) + rest, BeatLength(tick) + n) ==
            After(PulseOf(jobs, id, worker, tick).jobs, rest, n)
  {
    var log := PulseLog(id, worker, tick);
    AfterConcat(jobs, log, rest, n);
    SandwichJobs(jobs, tick.before, OwnStamp(id, worker, tick), tick.between);
  }

  lemma BeforeHeartbeat(jobs: Jobs, id: JobId, worker: string, tick: Tick, rest: seq<Entry>)
    ensures |tick.before| <= |PulseLog(id, worker, tick) + rest|
    ensures After(jobs, PulseLog(id, worker, tick) + rest, |tick.before|) == ApplyAll(jobs, tick.before)
  {
    var first, tail := Others(tick.before), OwnStamp(id, worker, tick) + Others(tick.between);
    assert PulseLog(id, worker, tick) + rest == first + (tail + rest);
    AfterPrefix(jobs, first, tail + rest, |first|);
    AfterOthers(jobs, tick.before);
  }

  /** The last beat of a course that lost its row. */
  predicate IsLoss(c: Course, k: nat) { c.reaped && k == c.beats - 1 }

  /** What is so of beat `k` of a course. */
  predicate BeatOk(jobs: Jobs, log: seq<Entry>, c: Course, id: JobId, worker: string, ticks: seq<Tick>, i: nat, k: nat)
    requires k < c.beats && i + c.beats <= |ticks| && Pos(ticks, i, c.beats) <= |log|
    requires HeartbeatAt(ticks, i, k) <= Pos(ticks, i, k + 1) <= Pos(ticks, i, c.beats)
  {
    && ticks[i + k].poll.None?
    && (IsLoss(c, k) ==> ticks[i + k].heartbeatOk)
    && (ticks[i + k].heartbeatOk ==> (OursRunning(After(jobs, log, HeartbeatAt(ticks, i, k)), id, worker) <==> !IsLoss(c, k)))
    && (!IsLoss(c, k) && Cause(jobs, log, id, ticks, i, k) ==> c.terminated)
  }

  lemma {:induction false} CourseExtent(jobs: Jobs, id: JobId, worker: string, ticks: seq<Tick>, i: nat)
    requires i <= |ticks|
    ensures var c := CourseOf(jobs, id, worker, ticks, i);
      && i + c.beats <= |ticks|
      && (c.reaped ==> c.beats > 0 && c.exit.None?)
      && (!c.reaped ==> c.exit == if i + c.beats < |ticks| then ticks[i + c.beats].poll else None)
      && (!c.reaped && i + c.beats < |ticks| ==> c.exit.Some?)
    decreases |ticks| - i
  {
    if i < |ticks| && ticks[i].poll.None? {
      CourseExtent(PulseOf(jobs, id, worker, ticks[i]).jobs, id, worker, ticks, i + 1);
    }
  }

  lemma PulseMeans(jobs: Jobs, id: JobId, worker: string, tick: Tick)
    ensures var p := PulseOf(jobs, id, worker, tick); var found := OursRunning(ApplyAll(jobs, tick.before), id, worker);
      && (p.reaped <==> tick.heartbeatOk && !found)
      && (p.kill <==> tick.heartbeatOk && found && tick.readOk && Flagged(p.jobs, id))
  {
  }

  /** Each beat of a course ends it as lost, or lets it go on, as it reports. */
  lemma {:induction false} BeatInCourse(jobs: Jobs, id: JobId, worker: string, ticks: seq<Tick>, i: nat, k: nat)
    requires i <= |ticks| && k < CourseOf(jobs, id, worker, ticks, i).beats
    ensures var c := CourseOf(jobs, id, worker, ticks, i);
      && i + k < |ticks| && ticks[i + k].poll.None?
      && var p := PulseOf(TableAt(jobs, id, worker, ticks, i, k), id, worker, ticks[i + k]);
      && (p.reaped <==> IsLoss(c, k))
      && (!p.reaped && (p.kill || ticks[i + k].stop) ==> c.terminated)
    decreases |ticks| - i
  {
    var p := PulseOf(jobs, id, worker, ticks[i]);
    if k == 0 {
      if !p.reaped { CourseExtent(p.jobs, id, worker, ticks, i + 1); }
    } else {
      BeatInCourse(p.jobs, id, worker, ticks, i + 1, k - 1);
    }
  }

  lemma {:induction false} TerminationHasBeat(jobs: Jobs, id: JobId, worker: string, ticks: seq<Tick>, i: nat) returns (k: nat)
    requires i <= |ticks| && CourseOf(jobs, id, worker, ticks, i).terminated
    ensures k < CourseOf(jobs, id, worker, ticks, i).beats && i + k < |ticks|
    ensures var p := PulseOf(TableAt(jobs, id, worker, ticks, i, k), id, worker, ticks[i + k]);
      !p.reaped && (p.kill || ticks[i + k].stop)
    decreases |ticks| - i
  {
    var p := PulseOf(jobs, id, worker, ticks[i]);
    k := 0;
    if !p.kill && !ticks[i].stop {
      k := TerminationHasBeat(p.jobs, id, worker, ticks, i + 1);
      k := k + 1;
    }
  }

  /** A log in which a beat follows what leads to a table. */
  predicate HasBeat(jobs: Jobs, log: seq<Entry>, done: seq<Entry>, rest: seq<Entry>, t: Jobs, id: JobId, worker: string, tick: Tick) {
    AfterLog(jobs, done) == t && log == done + (PulseLog(id, worker, tick) + rest)
  }

  lemma BeatIsThere(jobs: Jobs, id: JobId, worker: string, ticks: seq<Tick>, i: nat, k: nat, n: nat) returns (done: seq<Entry>, rest: seq<Entry>)
    requires k < n && i + n <= |ticks|
    ensures |done| == Pos(ticks, i, k)
    ensures HasBeat(jobs, CourseLog(id, worker, ticks, i, n), done, rest, TableAt(jobs, id, worker, ticks, i, k), id, worker, ticks[i + k])
  {
    done, rest := CourseLog(id, worker, ticks, i, k), CourseLog(id, worker, ticks, i + k + 1, n - k - 1);
    LogLength(id, worker, ticks, i, k);
    LogSplitsAt(id, worker, ticks, i, k, n);
    TableAfter(jobs, id, worker, ticks, i, k);
  }

  lemma BeatSees(jobs: Jobs, log: seq<Entry>, done: seq<Entry>, rest: seq<Entry>, t: Jobs, id: JobId, worker: string, tick: Tick)
    requires HasBeat(jobs, log, done, rest, t, id, worker, tick)
    ensures |done| + BeatLength(tick) <= |log|
    ensures After(jobs, log, |done| + |tick.before|) == ApplyAll(t, tick.before)
    ensures After(jobs, log, |done| + BeatLength(tick)) == PulseOf(t, id, worker, tick).jobs
  {
    BeatInTail(jobs, done, t, id, worker, tick, rest);
  }

  /** The tables a beat's heartbeat and read-back see, in the log of its course. */
  lemma BeatTables(jobs: Jobs, id: JobId, worker: string, ticks: seq<Tick>, i: nat, k: nat, n: nat)
    requires k < n && i + n <= |ticks|
    ensures HeartbeatAt(ticks, i, k) <= Pos(ticks, i, k + 1) <= Pos(ticks, i, n) == |CourseLog(id, worker, ticks, i, n)|
    ensures After(jobs, CourseLog(id, worker, ticks, i, n), HeartbeatAt(ticks, i, k)) ==
      ApplyAll(TableAt(jobs, id, worker, ticks, i, k), ticks[i + k].before)
    ensures After(jobs, CourseLog(id, worker, ticks, i, n), Pos(ticks, i, k + 1)) ==
      PulseOf(TableAt(jobs, id, worker, ticks, i, k), id, worker, ticks[i + k]).jobs
  {
    BeatPlaces(id, worker, ticks, i, k, n);
    var done, rest := BeatIsThere(jobs, id, worker, ticks, i, k, n);
    BeatSees(jobs, CourseLog(id, worker, ticks, i, n), done, rest, TableAt(jobs, id, worker, ticks, i, k), id, worker, ticks[i + k]);
  }

  lemma BeatPlaces(id: JobId, worker: string, ticks: seq<Tick>, i: nat, k: nat, n: nat)
    requires k < n && i + n <= |ticks|
    ensures HeartbeatAt(ticks, i, k) <= Pos(ticks, i, k + 1) <= Pos(ticks, i, n) == |CourseLog(id, worker, ticks, i, n)|
    ensures Pos(ticks, i, k) == |CourseLog(id, worker, ticks, i, k)|
    ensures Pos(ticks, i, k + 1) == |CourseLog(id, worker, ticks, i, k)| + BeatLength(ticks[i + k])
  {
    PosGrows(ticks, i, k, n);
    LogLength(id, worker, ticks, i, n);
    LogLength(id, worker, ticks, i, k);
    PosNext(ticks, i, k);
  }

  lemma LogSplitsAt(id: JobId, worker: string, ticks: seq<Tick>, i: nat, k: nat, n: nat)
    requires k < n && i + n <= |ticks|
    ensures CourseLog(id, worker, ticks, i, n) ==
      CourseLog(id, worker, ticks, i, k) + (PulseLog(id, worker, ticks[i + k]) + CourseLog(id, worker, ticks, i + k + 1, n - k - 1))
  {
    LogSplits(id, worker, ticks, i, k, n);
  }

  lemma {:induction false} PosNext(ticks: seq<Tick>, i: nat, k: nat)
    requires i + k < |ticks|
    ensures Pos(ticks, i, k + 1) == Pos(ticks, i, k) + BeatLength(ticks[i + k])
    decreases k
  {
    if k > 0 { PosNext(ticks, i + 1, k - 1); } else { assert Pos(ticks, i + 1, 0) == 0; }
  }

  lemma AfterDone(jobs: Jobs, done: seq<Entry>, t: Jobs, more: seq<Entry>, n: nat)
    requires Leads(jobs, done, t) && n <= |more|
    ensures |done| + n <= |done + more| && After(jobs, done + more, |done| + n) == After(t, more, n)
  {
    AfterConcat(jobs, done, more, n);
  }

  lemma BeatInTail(jobs: Jobs, done: seq<Entry>, t: Jobs, id: JobId, worker: string, tick: Tick, rest: seq<Entry>)
    requires Leads(jobs, done, t)
    ensures var log := done + (PulseLog(id, worker, tick) + rest);
      && |done| + BeatLength(tick) <= |log|
      && After(jobs, log, |done| + |tick.before|) == ApplyAll(t, tick.before)
      && After(jobs, log, |done| + BeatLength(tick)) == PulseOf(t, id, worker, tick).jobs
  {
    var more := PulseLog(id, worker, tick) + rest;
    AfterDone(jobs, done, t, more, |tick.before|);
    AfterDone(jobs, done, t, more, BeatLength(tick));
    BeforeHeartbeat(t, id, worker, tick, rest);
    LaterBeat(t, id, worker, tick, rest, 0);
  }

  lemma BeatTold(jobs: Jobs, id: JobId, worker: string, ticks: seq<Tick>, i: nat, k: nat)
    requires i <= |ticks| && k < CourseOf(jobs, id, worker, ticks, i).beats
    ensures var c := CourseOf(jobs, id, worker, ticks, i);
      && i + c.beats <= |ticks|
      && Pos(ticks, i, c.beats) <= |CourseLog(id, worker, ticks, i, c.beats)|
      && HeartbeatAt(ticks, i, k) <= Pos(ticks, i, k + 1) <= Pos(ticks, i, c.beats)
      && BeatOk(jobs, CourseLog(id, worker, ticks, i, c.beats), c, id, worker, ticks, i, k)
  {
    CourseExtent(jobs, id, worker, ticks, i);
    BeatTables(jobs, id, worker, ticks, i, k, CourseOf(jobs, id, worker, ticks, i).beats);
    BeatInCourse(jobs, id, worker, ticks, i, k);
    PulseMeans(TableAt(jobs, id, worker, ticks, i, k), id, worker, ticks[i + k]);
  }

  lemma TerminationHasCause(jobs: Jobs, id: JobId, worker: string, ticks: seq<Tick>, i: nat) returns (k: nat)
    requires i <= |ticks| && CourseOf(jobs, id, worker, ticks, i).terminated
    ensures var c := CourseOf(jobs, id, worker, ticks, i);
      && k < c.beats && !IsLoss(c, k) && i + c.beats <= |ticks|
      && Pos(ticks, i, k + 1) <= |CourseLog(id, worker, ticks, i, c.beats)|
      && Cause(jobs, CourseLog(id, worker, ticks, i, c.beats), id, ticks, i, k)
  {
    k := TerminationHasBeat(jobs, id, worker, ticks, i);
    CourseExtent(jobs, id, worker, ticks, i);
    BeatTables(jobs, id, worker, ticks, i, k, CourseOf(jobs, id, worker, ticks, i).beats);
    BeatInCourse(jobs, id, worker, ticks, i, k);
    PulseMeans(TableAt(jobs, id, worker, ticks, i, k), id, worker, ticks[i + k]);
  }

  /** A course is stopped by the stop event seen in one of its beats, other than one that finds the row lost. */
  lemma {:induction false} StoppedIff(jobs: Jobs, id: JobId, worker: string, ticks: seq<Tick>, i: nat)
    requires i <= |ticks|
    ensures var c := CourseOf(jobs, id, worker, ticks, i);
      && i + c.beats <= |ticks|
      && (c.stopped <==> exists k :: 0 <= k < c.beats && ticks[i + k].stop && !IsLoss(c, k))
    decreases |ticks| - i
  {
    CourseExtent(jobs, id, worker, ticks, i);
    var c := CourseOf(jobs, id, worker, ticks, i);
    if i < |ticks| && ticks[i].poll.None? {
      var p := PulseOf(jobs, id, worker, ticks[i]);
      if !p.reaped {
        StoppedIff(p.jobs, id, worker, ticks, i + 1);
        var rest := CourseOf(p.jobs, id, worker, ticks, i + 1);
        assert c.beats == rest.beats + 1 && c.reaped == rest.reaped && c.stopped == (ticks[i].stop || rest.stopped);
        if k :| 0 <= k < rest.beats && ticks[i + 1 + k].stop && !IsLoss(rest, k) {
          assert ticks[i + (k + 1)].stop && !IsLoss(c, k + 1);
        }
        if k :| 0 <= k < c.beats && ticks[i + k].stop && !IsLoss(c, k) {
          assert k > 0 ==> ticks[i + 1 + (k - 1)].stop && !IsLoss(rest, k - 1);
        }
        if ticks[i].stop {
          CourseExtent(p.jobs, id, worker, ticks, i + 1);
          assert ticks[i + 0].stop && !IsLoss(c, 0);
        }
      }
    }
  }

  // ---------------------------------------------------------------- the kill flag

  /** Clears the flag of the row. */
  predicate Clears(u: Update, id: JobId) { (u.Finalize? && u.id == id) || u.CompleteInterrupted? }

  /** A kill request stands until the job is ended or repaired. */
  lemma {:induction false} KillStands(jobs: Jobs, log: seq<Entry>, id: JobId, p: nat, n: nat)
    requires p < n <= |log| && id in After(jobs, log, p) && log[p].u == Kill(id)
    requires forall q :: p < q < n ==> !Clears(log[q].u, id)
    ensures Flagged(After(jobs, log, n), id)
    decreases n
  {
    if p + 1 < n {
      KillStands(jobs, log, id, p, n - 1);
      assert !Clears(log[n - 1].u, id);
    } else {
      assert After(jobs, log, n) == Apply(After(jobs, log, p), Kill(id));
    }
  }

  /** A flag that was not there was requested. */
  lemma {:induction false} FlagWasRequested(jobs: Jobs, log: seq<Entry>, id: JobId, n: nat) returns (p: nat)
    requires n <= |log| && !Flagged(jobs, id) && Flagged(After(jobs, log, n), id)
    ensures p < n && log[p].u == Kill(id)
  {
    if Flagged(After(jobs, log, n - 1), id) {
      p := FlagWasRequested(jobs, log, id, n - 1);
    } else {
      p := n - 1;
    }
  }

  // ---------------------------------------------------------------- the call

  lemma CallKeepsCourse(jobs: Jobs, id: JobId, worker: string, ticks: seq<Tick>, ending: Ending, n: nat)
    ensures var c := CallOf(jobs, id, worker, true, ticks, ending);
      var log := CourseLog(id, worker, ticks, 0, c.course.beats);
      |log| <= |c.log| && (n <= |log| ==> After(jobs, c.log, n) == After(jobs, log, n))
  {
    var c := CallOf(jobs, id, worker, true, ticks, ending);
    var log := CourseLog(id, worker, ticks, 0, c.course.beats);
    var tail :=
      if c.course.reaped then Others(ending.before) + Others(ending.after)
      else if c.course.exit.Some? then EndLog(id, c.course.exit.value, ending)
      else [];
    assert c.log == log + tail;
    if n <= |log| { AfterPrefix(jobs, log, tail, n); }
  }

  /** A call beats until the child exits, the script ends, or a heartbeat that reaches the database finds the row not
      running for this worker. It never beats after such a heartbeat, and never leaves before the child's exit but for
      one; and what it takes for the child's exit is what poll() answered then. */
  lemma CallEndsAsSeen(jobs: Jobs, id: JobId, worker: string, ticks: seq<Tick>, ending: Ending)
    ensures var c := CallOf(jobs, id, worker, true, ticks, ending); var n := c.course.beats;
      && n <= |ticks|
      && (forall k :: 0 <= k < n ==> ticks[k].poll.None?)
      && (c.course.reaped ==> n > 0 && c.returned && c.child.exit == ending.poll && (ending.poll.None? ==> c.child.terminated))
      && (!c.course.reaped ==> (c.returned <==> n < |ticks|) && c.child.exit == if n < |ticks| then ticks[n].poll else None)
      && (!c.course.reaped && n < |ticks| ==> ticks[n].poll.Some?)
  {
    CourseExtent(jobs, id, worker, ticks, 0);
    var c := CallOf(jobs, id, worker, true, ticks, ending);
    forall k | 0 <= k < c.course.beats ensures ticks[k].poll.None? { BeatTold(jobs, id, worker, ticks, 0, k); }
  }

  lemma BeatSeen(jobs: Jobs, id: JobId, worker: string, ticks: seq<Tick>, ending: Ending, k: nat)
    requires k < CallOf(jobs, id, worker, true, ticks, ending).course.beats
    ensures var c := CallOf(jobs, id, worker, true, ticks, ending);
      && c.course.beats <= |ticks|
      && HeartbeatAt(ticks, 0, k) <= Pos(ticks, 0, k + 1) <= Pos(ticks, 0, c.course.beats) <= |c.log|
      && BeatOk(jobs, c.log, c.course, id, worker, ticks, 0, k)
  {
    var c := CallOf(jobs, id, worker, true, ticks, ending);
    BeatTold(jobs, id, worker, ticks, 0, k);
    LogLength(id, worker, ticks, 0, c.course.beats);
    CallKeepsCourse(jobs, id, worker, ticks, ending, HeartbeatAt(ticks, 0, k));
    CallKeepsCourse(jobs, id, worker, ticks, ending, Pos(ticks, 0, k + 1));
  }

  /** A heartbeat that reaches the database and finds the row lost is the call's last, and only such a one ends a call
      as lost. */
  lemma LostExactlyWhenSeen(jobs: Jobs, id: JobId, worker: string, ticks: seq<Tick>, ending: Ending, k: nat)
    requires k < CallOf(jobs, id, worker, true, ticks, ending).course.beats
    ensures var c := CallOf(jobs, id, worker, true, ticks, ending);
      && k < |ticks| && HeartbeatAt(ticks, 0, k) <= |c.log|
      && (ticks[k].heartbeatOk && !OursRunning(After(jobs, c.log, HeartbeatAt(ticks, 0, k)), id, worker) <==>
            c.course.reaped && k == c.course.beats - 1)
  {
    BeatSeen(jobs, id, worker, ticks, ending, k);
  }

  /** A kill request that stands when a beat that found its row reads it back terminates the child. */
  lemma KillTerminates(jobs: Jobs, id: JobId, worker: string, ticks: seq<Tick>, ending: Ending, k: nat, p: nat)
    requires k < CallOf(jobs, id, worker, true, ticks, ending).course.beats && k < |ticks|
    requires ticks[k].heartbeatOk && ticks[k].readOk
    requires var log := CallOf(jobs, id, worker, true, ticks, ending).log;
      && p < Pos(ticks, 0, k + 1) <= |log| && HeartbeatAt(ticks, 0, k) <= |log|
      && log[p].u == Kill(id) && id in After(jobs, log, p)
      && OursRunning(After(jobs, log, HeartbeatAt(ticks, 0, k)), id, worker)
      && forall q :: p < q < Pos(ticks, 0, k + 1) ==> !Clears(log[q].u, id)
    ensures CallOf(jobs, id, worker, true, ticks, ending).child.terminated
  {
    var c := CallOf(jobs, id, worker, true, ticks, ending);
    BeatSeen(jobs, id, worker, ticks, ending, k);
    KillStands(jobs, c.log, id, p, Pos(ticks, 0, k + 1));
  }

  /** So does a stop, unless the same beat finds the row lost; and then the end of the call does unless the child has
      exited. */
  lemma StopTerminates(jobs: Jobs, id: JobId, worker: string, ticks: seq<Tick>, ending: Ending, k: nat)
    requires k < CallOf(jobs, id, worker, true, ticks, ending).course.beats && k < |ticks| && ticks[k].stop
    ensures var c := CallOf(jobs, id, worker, true, ticks, ending);
      c.child.terminated || (c.course.reaped && k == c.course.beats - 1 && c.child.exit.Some?)
  {
    BeatSeen(jobs, id, worker, ticks, ending, k);
    CourseExtent(jobs, id, worker, ticks, 0);
  }

  /** Nothing else terminates the child, but for the end of a call that lost its row while the child runs on: some beat saw a stop, or read back a flag;
      and a flag that was not set at first was requested, during the call, by a statement in its log. */
  lemma TerminatedOnlyForCause(jobs: Jobs, id: JobId, worker: string, ticks: seq<Tick>, ending: Ending) returns (k: nat, p: nat)
    requires var c := CallOf(jobs, id, worker, true, ticks, ending); c.child.terminated && !(c.course.reaped && ending.poll.None?)
    requires !Flagged(jobs, id)
    ensures var c := CallOf(jobs, id, worker, true, ticks, ending);
      && k < c.course.beats <= |ticks| && Pos(ticks, 0, k + 1) <= |c.log|
      && (!ticks[k].stop ==>
            && ticks[k].heartbeatOk && ticks[k].readOk && Flagged(After(jobs, c.log, Pos(ticks, 0, k + 1)), id)
            && p < Pos(ticks, 0, k + 1) && c.log[p].u == Kill(id))
  {
    var c := CallOf(jobs, id, worker, true, ticks, ending);
    k := TerminationHasCause(jobs, id, worker, ticks, 0);
    CallKeepsCourse(jobs, id, worker, ticks, ending, Pos(ticks, 0, k + 1));
    p := 0;
    if !ticks[k].stop { p := FlagWasRequested(jobs, c.log, id, Pos(ticks, 0, k + 1)); }
  }

  // ---------------------------------------------------------------- the call's own statements

  function OwnsOf(log: seq<Entry>): (us: seq<Update>) {
    if log == [] then []
    else
      var last := log[|log| - 1];
      OwnsOf(log[..|log| - 1]) + if last.Own? then [last.u] else []
  }

  /** One heartbeat for each of `n` beats that reaches the database. */
  function Heartbeats(id: JobId, worker: string, ticks: seq<Tick>, n: nat): (us: seq<Update>)
    requires n <= |ticks|
  {
    if n == 0 then []
    else Heartbeats(id, worker, ticks, n - 1) + BeatOwns(id, worker, ticks[n - 1])
  }

  lemma {:induction false} OwnsOfConcat(a: seq<Entry>, b: seq<Entry>)
    ensures OwnsOf(a + b) == OwnsOf(a) + OwnsOf(b)
  {
    if b == [] {
      assert a + b == a;
    } else {
      OwnsOfConcat(a, b[..|b| - 1]);
      assert (a + b)[..|a + b| - 1] == a + b[..|b| - 1];
    }
  }

  lemma {:induction false} OwnsOfOthers(us: seq<Update>)
    ensures OwnsOf(Others(us)) == []
  {
    if us != [] {
      OwnsOfOthers(us[..|us| - 1]);
      assert Others(us)[..|us| - 1] == Others(us[..|us| - 1]);
    }
  }

  lemma OwnsOfSandwich(before: seq<Update>, own: seq<Entry>, after: seq<Update>)
    requires |own| <= 1 && (own != [] ==> own[0].Own?)
    ensures OwnsOf(Others(before) + own + Others(after)) == if own == [] then [] else [own[0].u]
  {
    OwnsOfConcat(Others(before) + own, Others(after));
    OwnsOfConcat(Others(before), own);
    OwnsOfOthers(before);
    OwnsOfOthers(after);
    if own != [] { assert own[..0] == []; }
  }

  lemma LastBeat(id: JobId, worker: string, ticks: seq<Tick>, n: nat)
    requires 0 < n <= |ticks|
    ensures CourseLog(id, worker, ticks, 0, n) == CourseLog(id, worker, ticks, 0, n - 1) + PulseLog(id, worker, ticks[n - 1])
  {
    LogSplitsAt(id, worker, ticks, 0, n - 1, n);
    assert CourseLog(id, worker, ticks, n, 0) == [];
  }

  function BeatOwns(id: JobId, worker: string, tick: Tick): (us: seq<Update>) {
    if tick.heartbeatOk then [Heartbeat(id, worker, tick.now)] else []
  }

  lemma OwnsOfBeat(id: JobId, worker: string, tick: Tick)
    ensures OwnsOf(PulseLog(id, worker, tick)) == BeatOwns(id, worker, tick)
  {
    OwnsOfSandwich(tick.before, OwnStamp(id, worker, tick), tick.between);
  }

  lemma {:induction false} CourseOwns(id: JobId, worker: string, ticks: seq<Tick>, n: nat)
    requires n <= |ticks|
    ensures OwnsOf(CourseLog(id, worker, ticks, 0, n)) == Heartbeats(id, worker, ticks, n)
  {
    if n > 0 {
      CourseOwns(id, worker, ticks, n - 1);
      OneMoreOwn(CourseLog(id, worker, ticks, 0, n), CourseLog(id, worker, ticks, 0, n - 1), id, worker, ticks, n);
    }
  }

  lemma OneMoreOwn(log: seq<Entry>, done: seq<Entry>, id: JobId, worker: string, ticks: seq<Tick>, n: nat)
    requires 0 < n <= |ticks| && log == CourseLog(id, worker, ticks, 0, n) && done == CourseLog(id, worker, ticks, 0, n - 1)
    ensures OwnsOf(log) == OwnsOf(done) + BeatOwns(id, worker, ticks[n - 1])
  {
    LastBeat(id, worker, ticks, n);
    OwnsOfConcat(done, PulseLog(id, worker, ticks[n - 1]));
    OwnsOfBeat(id, worker, ticks[n - 1]);
  }

  lemma LostOwns(log: seq<Entry>, ending: Ending)
    ensures OwnsOf(log + Others(ending.before) + Others(ending.after)) == OwnsOf(log)
  {
    OwnsOfConcat(log + Others(ending.before), Others(ending.after));
    OwnsOfConcat(log, Others(ending.before));
    OwnsOfOthers(ending.before);
    OwnsOfOthers(ending.after);
  }

  lemma EndedOwns(log: seq<Entry>, id: JobId, code: int, ending: Ending)
    ensures OwnsOf(log + EndLog(id, code, ending)) ==
      OwnsOf(log) + if ending.finalizeOk then [Finalize(id, code, ending.now)] else []
  {
    OwnsOfConcat(log, EndLog(id, code, ending));
    OwnsOfSandwich(ending.before, OwnEnd(id, code, ending), ending.after);
  }

  /** Exactly what a call itself writes, in order: a heartbeat for each beat that reaches the database, with that beat's
      time, and then the end of its job, with the code the child's poll() gave or -1 if no child was started; no end
      when the row was lost, the database failed, or the call has not returned. */
  lemma OwnStatementsExactly(jobs: Jobs, id: JobId, worker: string, spawns: bool, ticks: seq<Tick>, ending: Ending)
    ensures var c := CallOf(jobs, id, worker, spawns, ticks, ending); var n := c.course.beats;
      && n <= |ticks| && (!spawns ==> n == 0)
      && (spawns && c.returned && !c.course.reaped ==> n < |ticks| && ticks[n].poll.Some?)
      && OwnsOf(c.log) == Heartbeats(id, worker, ticks, n) +
           if c.returned && !c.course.reaped && ending.finalizeOk
           then [Finalize(id, if spawns then ticks[n].poll.value else -1, ending.now)] else []
  {
    var c := CallOf(jobs, id, worker, spawns, ticks, ending);
    if spawns {
      CallEndsAsSeen(jobs, id, worker, ticks, ending);
      CourseOwns(id, worker, ticks, c.course.beats);
      var log := CourseLog(id, worker, ticks, 0, c.course.beats);
      if c.course.reaped {
        LostOwns(log, ending);
      } else if c.returned {
        EndedOwns(log, id, c.course.exit.value, ending);
      }
    } else {
      EndedOwns([], id, SPAWN_FAILED, ending);
      assert [] + EndLog(id, SPAWN_FAILED, ending) == EndLog(id, SPAWN_FAILED, ending);
    }
  }
}
