/** One call of the builder: the driver loop around one child process, against an arbitrary environment: any statements
    of other builders, the reaper and the operators commit between any two of its own.
    `CallOf` says, for every such environment, which statements a call commits and in what order; the method
    is proved to leave the table those statements make, and the lemmas are about them. */
module BuilderCall {
  import opened Prelude
  import opened JobTable
  import opened JobStore

  /** A committed statement on the jobs table, issued by this call or by someone else. */
  datatype Entry = Own(u: Update) | Other(u: Update)

  datatype Child = Child(spawned: bool, exit: Option<int>, terminated: bool)

  /** One turn of the loop: what poll() answers, what commits around the heartbeat and the read-back,
      which of the two database calls raise, and whether the stop event is set. */
  datatype Tick = Tick(
    poll: Option<int>, before: seq<Update>, heartbeatOk: bool, now: int,
    between: seq<Update>, readOk: bool, stop: bool)

  /** Around the end of the call: what commits before and after the final statement, whether that
      statement reaches the database, and what the last poll() answers. */
  datatype Ending = Ending(before: seq<Update>, finalizeOk: bool, now: int, after: seq<Update>, poll: Option<int>)

  // ---------------------------------------------------------------- logs

  /** The table after the first `k` entries. */
  function After(jobs: Jobs, log: seq<Entry>, k: nat): (r: Jobs)
    requires k <= |log|
  {
    if k == 0 then jobs else Apply(After(jobs, log, k - 1), log[k - 1].u)
  }

  function AfterLog(jobs: Jobs, log: seq<Entry>): (r: Jobs) { After(jobs, log, |log|) }

  function Others(us: seq<Update>): (log: seq<Entry>) {
    seq(|us|, i requires 0 <= i < |us| => Other(us[i]))
  }

  /** What others committed, in order. */
  function OthersOf(log: seq<Entry>): (us: seq<Update>) {
    if log == [] then []
    else
      var last := log[|log| - 1];
      OthersOf(log[..|log| - 1]) + if last.Other? then [last.u] else []
  }

  function OwnFinalizes(log: seq<Entry>): (n: nat) {
    if log == [] then 0
    else
      var last := log[|log| - 1];
      OwnFinalizes(log[..|log| - 1]) + if last.Own? && last.u.Finalize? then 1 else 0
  }

  lemma {:induction false} AfterPrefix(jobs: Jobs, log: seq<Entry>, more: seq<Entry>, k: nat)
    requires k <= |log|
    ensures After(jobs, log + more, k) == After(jobs, log, k)
  {
    if k > 0 { AfterPrefix(jobs, log, more, k - 1); }
  }

  lemma {:induction false} AfterConcat(jobs: Jobs, a: seq<Entry>, b: seq<Entry>, k: nat)
    requires k <= |b|
    ensures After(jobs, a + b, |a| + k) == After(AfterLog(jobs, a), b, k)
  {
    if k == 0 {
      AfterPrefix(jobs, a, b, |a|);
    } else {
      AfterConcat(jobs, a, b, k - 1);
    }
  }

  lemma AfterBoth(jobs: Jobs, a: seq<Entry>, b: seq<Entry>)
    ensures AfterLog(jobs, a + b) == AfterLog(AfterLog(jobs, a), b)
  {
    AfterConcat(jobs, a, b, |b|);
  }

  lemma AfterAtMostOne(jobs: Jobs, own: seq<Entry>)
    requires |own| <= 1
    ensures AfterLog(jobs, own) == if own == [] then jobs else Apply(jobs, own[0].u)
  {
    if own != [] { assert After(jobs, own, 0) == jobs; }
  }

  lemma {:induction false} AfterOthers(jobs: Jobs, us: seq<Update>)
    ensures AfterLog(jobs, Others(us)) == ApplyAll(jobs, us)
  {
    if us != [] {
      var n := |us| - 1;
      AfterOthers(jobs, us[..n]);
      assert Others(us) == Others(us[..n]) + [Other(us[n])];
      AfterPrefix(jobs, Others(us[..n]), [Other(us[n])], n);
    }
  }

  lemma {:induction false} OthersOfConcat(a: seq<Entry>, b: seq<Entry>)
    ensures OthersOf(a + b) == OthersOf(a) + OthersOf(b)
    ensures OwnFinalizes(a + b) == OwnFinalizes(a) + OwnFinalizes(b)
  {
    if b == [] {
      assert a + b == a;
    } else {
      OthersOfConcat(a, b[..|b| - 1]);
      assert (a + b)[..|a + b| - 1] == a + b[..|b| - 1];
    }
  }

  lemma {:induction false} OthersOfOthers(us: seq<Update>)
    ensures OthersOf(Others(us)) == us && OwnFinalizes(Others(us)) == 0
  {
    if us != [] {
      OthersOfOthers(us[..|us| - 1]);
      assert Others(us)[..|us| - 1] == Others(us[..|us| - 1]);
    }
  }

  // ---------------------------------------------------------------- what a call commits

  /** The table after a beat, and what it reports. */
  datatype Pulse = Pulse(jobs: Jobs, reaped: bool, kill: bool)

  function OwnStamp(id: JobId, worker: string, tick: Tick): (own: seq<Entry>) {
    if tick.heartbeatOk then [Own(Heartbeat(id, worker, tick.now))] else []
  }

  /** The table after at most one statement. */
  function Then(jobs: Jobs, own: seq<Entry>): (r: Jobs)
    requires |own| <= 1
  {
    if own == [] then jobs else Apply(jobs, own[0].u)
  }

  function PulseLog(id: JobId, worker: string, tick: Tick): (log: seq<Entry>) {
    Others(tick.before) + OwnStamp(id, worker, tick) + Others(tick.between)
  }

  /** One heartbeat and, if it found the row, the read-back of the kill flag. */
  function PulseOf(jobs: Jobs, id: JobId, worker: string, tick: Tick): (p: Pulse) {
    var own := OwnStamp(id, worker, tick);
    var seen := ApplyAll(jobs, tick.before);
    var found := id in seen && Matches(Heartbeat(id, worker, tick.now), id, seen[id]);
    var end := ApplyAll(Then(seen, own), tick.between);
    Pulse(end, tick.heartbeatOk && !found,
          tick.heartbeatOk && found && tick.readOk && id in end && end[id].killRequested)
  }

  /** The loop, up to its break or the end of the script. */
  datatype Course = Course(
    beats: nat, jobs: Jobs, reaped: bool, exit: Option<int>, terminated: bool, stopped: bool)

  /** From tick `i` on. */
  function CourseOf(jobs: Jobs, id: JobId, worker: string, ticks: seq<Tick>, i: nat): (c: Course)
    requires i <= |ticks|
    decreases |ticks| - i
  {
    if i == |ticks| then Course(0, jobs, false, None, false, false)
    else if ticks[i].poll.Some? then Course(0, jobs, false, ticks[i].poll, false, false)
    else
      var p := PulseOf(jobs, id, worker, ticks[i]);
      if p.reaped then Course(1, p.jobs, true, None, false, false)
      else Prefixed(1, p.kill || ticks[i].stop, ticks[i].stop, CourseOf(p.jobs, id, worker, ticks, i + 1))
  }

  /** A course whose first beats are already over. */
  function Prefixed(beats: nat, terminated: bool, stopped: bool, rest: Course): (c: Course) {
    rest.(beats := beats + rest.beats, terminated := terminated || rest.terminated, stopped := stopped || rest.stopped)
  }

  /** What `beats` beats from tick `i` on commit. */
  function CourseLog(id: JobId, worker: string, ticks: seq<Tick>, i: nat, beats: nat): (log: seq<Entry>)
    decreases beats
  {
    if i >= |ticks| || beats == 0 then [] else PulseLog(id, worker, ticks[i]) + CourseLog(id, worker, ticks, i + 1, beats - 1)
  }

  function OwnEnd(id: JobId, code: int, ending: Ending): (own: seq<Entry>) {
    if ending.finalizeOk then [Own(Finalize(id, code, ending.now))] else []
  }

  function EndLog(id: JobId, code: int, ending: Ending): (log: seq<Entry>) {
    Others(ending.before) + OwnEnd(id, code, ending) + Others(ending.after)
  }

  function EndJobs(jobs: Jobs, id: JobId, code: int, ending: Ending): (r: Jobs) {
    ApplyAll(Then(ApplyAll(jobs, ending.before), OwnEnd(id, code, ending)), ending.after)
  }

  datatype Call = Call(returned: bool, child: Child, course: Course, log: seq<Entry>, jobs: Jobs)

  const SPAWN_FAILED := -1

  /** A whole call. It returns unless the script of ticks ends first. */
  function CallOf(jobs: Jobs, id: JobId, worker: string, spawns: bool, ticks: seq<Tick>, ending: Ending): (c: Call) {
    if !spawns then
      Call(true, Child(false, None, false), Course(0, jobs, false, None, false, false),
           EndLog(id, SPAWN_FAILED, ending), EndJobs(jobs, id, SPAWN_FAILED, ending))
    else
      var c := CourseOf(jobs, id, worker, ticks, 0);
      var log := CourseLog(id, worker, ticks, 0, c.beats);
      if c.reaped then
        Call(true, Child(true, ending.poll, c.terminated || ending.poll.None?), c,
             log + Others(ending.before) + Others(ending.after), ApplyAll(ApplyAll(c.jobs, ending.before), ending.after))
      else if c.exit.Some? then
        Call(true, Child(true, c.exit, c.terminated), c,
             log + EndLog(id, c.exit.value, ending), EndJobs(c.jobs, id, c.exit.value, ending))
      else Call(false, Child(true, None, c.terminated), c, log, c.jobs)
  }

  lemma SandwichJobs(jobs: Jobs, before: seq<Update>, own: seq<Entry>, after: seq<Update>)
    requires |own| <= 1
    ensures AfterLog(jobs, Others(before) + own + Others(after)) == ApplyAll(Then(ApplyAll(jobs, before), own), after)
  {
    var mid := Others(before) + own;
    AfterBoth(jobs, Others(before), own);
    AfterOthers(jobs, before);
    AfterAtMostOne(ApplyAll(jobs, before), own);
    AfterBoth(jobs, mid, Others(after));
    AfterOthers(AfterLog(jobs, mid), after);
  }

  /** The log leads from one table to the other. */
  ghost predicate Leads(jobs: Jobs, log: seq<Entry>, end: Jobs) { AfterLog(jobs, log) == end }

  /** The table a course leaves is what its log makes of the one it found. */
  lemma {:induction false} CourseJobs(jobs: Jobs, id: JobId, worker: string, ticks: seq<Tick>, i: nat)
    requires i <= |ticks|
    ensures var c := CourseOf(jobs, id, worker, ticks, i); Leads(jobs, CourseLog(id, worker, ticks, i, c.beats), c.jobs)
    decreases |ticks| - i
  {
    if i < |ticks| && ticks[i].poll.None? {
      var p := PulseOf(jobs, id, worker, ticks[i]);
      var c := CourseOf(jobs, id, worker, ticks, i);
      if p.reaped {
        assert c.beats == 1 && c.jobs == p.jobs;
        BeatThenLog(jobs, id, worker, ticks, i, 0, c.jobs);
      } else {
        var rest := CourseOf(p.jobs, id, worker, ticks, i + 1);
        assert c.beats == 1 + rest.beats && c.jobs == rest.jobs;
        CourseJobs(p.jobs, id, worker, ticks, i + 1);
        BeatThenLog(jobs, id, worker, ticks, i, rest.beats, c.jobs);
      }
    }
  }

  lemma BeatThenLog(jobs: Jobs, id: JobId, worker: string, ticks: seq<Tick>, i: nat, beats: nat, end: Jobs)
    requires i < |ticks|
    requires Leads(PulseOf(jobs, id, worker, ticks[i]).jobs, CourseLog(id, worker, ticks, i + 1, beats), end)
    ensures Leads(jobs, CourseLog(id, worker, ticks, i, 1 + beats), end)
  {
    SandwichJobs(jobs, ticks[i].before, OwnStamp(id, worker, ticks[i]), ticks[i].between);
    AfterBoth(jobs, PulseLog(id, worker, ticks[i]), CourseLog(id, worker, ticks, i + 1, beats));
  }

  /** The table a call leaves is what its log makes of the one it found. */
  lemma CallJobs(jobs: Jobs, id: JobId, worker: string, spawns: bool, ticks: seq<Tick>, ending: Ending)
    ensures var c := CallOf(jobs, id, worker, spawns, ticks, ending); c.jobs == AfterLog(jobs, c.log)
  {
    var c := CallOf(jobs, id, worker, spawns, ticks, ending);
    if !spawns {
      SandwichJobs(jobs, ending.before, OwnEnd(id, SPAWN_FAILED, ending), ending.after);
    } else {
      var log := CourseLog(id, worker, ticks, 0, c.course.beats);
      CourseJobs(jobs, id, worker, ticks, 0);
      if c.course.reaped {
        AfterTwoMore(jobs, log, ending.before, ending.after);
      } else if c.returned {
        AfterBoth(jobs, log, EndLog(id, c.course.exit.value, ending));
        SandwichJobs(c.course.jobs, ending.before, OwnEnd(id, c.course.exit.value, ending), ending.after);
      }
    }
  }

  lemma AfterTwoMore(jobs: Jobs, log: seq<Entry>, us: seq<Update>, vs: seq<Update>)
    ensures AfterLog(jobs, log + Others(us) + Others(vs)) == ApplyAll(ApplyAll(AfterLog(jobs, log), us), vs)
  {
    AfterBoth(jobs, log, Others(us));
    AfterOthers(AfterLog(jobs, log), us);
    AfterBoth(jobs, log + Others(us), Others(vs));
    AfterOthers(AfterLog(jobs, log + Others(us)), vs);
  }

  /** What others do around `beats` beats from tick `i` on. */
  function Scripted(ticks: seq<Tick>, i: nat, beats: nat): (us: seq<Update>)
    decreases beats
  {
    if i >= |ticks| || beats == 0 then [] else ticks[i].before + ticks[i].between + Scripted(ticks, i + 1, beats - 1)
  }

  // ---------------------------------------------------------------- what the call itself may write

  /** Every statement of this call is its own heartbeat, or the end of its job with the given code. */
  predicate EntryOk(e: Entry, id: JobId, worker: string, code: Option<int>) {
    e.Own? ==>
      || (e.u.Heartbeat? && e.u.id == id && e.u.worker == worker)
      || (e.u.Finalize? && e.u.id == id && code == Some(e.u.code))
  }

  predicate OwnOk(log: seq<Entry>, id: JobId, worker: string, code: Option<int>) {
    forall k :: 0 <= k < |log| ==> EntryOk(log[k], id, worker, code)
  }

  /** At each statement of the call: no other row changes; a row that has already ended, in particular one
      the reaper orphaned, is left as it is; and the row becomes complete only for exit code 0. */
  lemma OwnStatementsAreSafe(jobs: Jobs, log: seq<Entry>, id: JobId, worker: string, code: Option<int>, k: nat, j: JobId)
    requires OwnOk(log, id, worker, code) && k < |log| && log[k].Own?
    requires j in After(jobs, log, k)
    ensures var a, b := After(jobs, log, k), After(jobs, log, k + 1);
      && j in b
      && (j != id || a[j].status != Running ==> b[j] == a[j])
      && (a[j].status != Complete && b[j].status == Complete ==> j == id && code == Some(0))
      && (a[j].status != Failed && b[j].status == Failed ==> j == id && code.Some? && code.value != 0)
      && (b[j].status == Orphaned ==> a[j].status == Orphaned)
  {
    assert EntryOk(log[k], id, worker, code);
    assert After(jobs, log, k + 1) == Apply(After(jobs, log, k), log[k].u);
  }

  /** The code a call ends its job with: the child's, or -1 when there is no child. */
  function CodeOf(c: Call): (code: Option<int>) {
    if !c.child.spawned then Some(SPAWN_FAILED) else if c.course.reaped then None else c.child.exit
  }

  /** Entries of others as scripted, and no ends among the call's own. */
  predicate Follows(log: seq<Entry>, script: seq<Update>, id: JobId, worker: string) {
    OthersOf(log) == script && OwnFinalizes(log) == 0 && OwnOk(log, id, worker, None)
  }

  lemma {:induction false} CourseIsScripted(id: JobId, worker: string, ticks: seq<Tick>, i: nat, beats: nat)
    ensures Follows(CourseLog(id, worker, ticks, i, beats), Scripted(ticks, i, beats), id, worker)
    decreases beats
  {
    if i < |ticks| && beats > 0 {
      PulseIsScripted(id, worker, ticks[i]);
      CourseIsScripted(id, worker, ticks, i + 1, beats - 1);
      JoinedLogs(PulseLog(id, worker, ticks[i]), CourseLog(id, worker, ticks, i + 1, beats - 1), id, worker);
    }
  }

  lemma JoinedLogs(a: seq<Entry>, b: seq<Entry>, id: JobId, worker: string)
    requires OwnOk(a, id, worker, None) && OwnOk(b, id, worker, None)
    ensures OwnOk(a + b, id, worker, None)
    ensures OthersOf(a + b) == OthersOf(a) + OthersOf(b) && OwnFinalizes(a + b) == OwnFinalizes(a) + OwnFinalizes(b)
  {
    OthersOfConcat(a, b);
  }

  lemma PulseIsScripted(id: JobId, worker: string, tick: Tick)
    ensures Follows(PulseLog(id, worker, tick), tick.before + tick.between, id, worker)
  {
    OwnPart(OwnStamp(id, worker, tick));
    Sandwich(tick.before, OwnStamp(id, worker, tick), tick.between);
  }

  lemma OwnPart(own: seq<Entry>)
    requires |own| <= 1 && forall k :: 0 <= k < |own| ==> own[k].Own?
    ensures OthersOf(own) == [] && OwnFinalizes(own) == if own != [] && own[0].u.Finalize? then 1 else 0
  {
    if own != [] { assert own[..0] == []; }
  }

  lemma Sandwich(before: seq<Update>, own: seq<Entry>, after: seq<Update>)
    requires OthersOf(own) == []
    ensures OthersOf(Others(before) + own + Others(after)) == before + after
    ensures OwnFinalizes(Others(before) + own + Others(after)) == OwnFinalizes(own)
  {
    OthersOfConcat(Others(before) + own, Others(after));
    OthersOfConcat(Others(before), own);
    OthersOfOthers(before);
    OthersOfOthers(after);
  }

  lemma EndIsScripted(id: JobId, code: int, ending: Ending, worker: string)
    ensures OthersOf(EndLog(id, code, ending)) == ending.before + ending.after
    ensures OwnFinalizes(EndLog(id, code, ending)) == if ending.finalizeOk then 1 else 0
    ensures OwnOk(EndLog(id, code, ending), id, worker, Some(code))
  {
    var own := OwnEnd(id, code, ending);
    OwnPart(own);
    Sandwich(ending.before, own, ending.after);
  }

  /** The others' statements are the environment's, all and in order; the call's own are heartbeats and at most
      one end of its job, with the code of its child, and none at all once its row was gone. */
  lemma CallIsScripted(jobs: Jobs, id: JobId, worker: string, spawns: bool, ticks: seq<Tick>, ending: Ending)
    ensures var c := CallOf(jobs, id, worker, spawns, ticks, ending);
      && OthersOf(c.log) == Scripted(ticks, 0, c.course.beats) + (if c.returned then ending.before + ending.after else [])
      && OwnOk(c.log, id, worker, CodeOf(c))
      && OwnFinalizes(c.log) == if c.returned && !c.course.reaped && ending.finalizeOk then 1 else 0
  {
    var c := CallOf(jobs, id, worker, spawns, ticks, ending);
    if !spawns {
      EndIsScripted(id, SPAWN_FAILED, ending, worker);
    } else {
      var log := CourseLog(id, worker, ticks, 0, c.course.beats);
      CourseIsScripted(id, worker, ticks, 0, c.course.beats);
      if c.course.reaped {
        ReapedTail(log, id, worker, ending);
      } else if c.returned {
        ExitedTail(log, id, worker, c.course.exit.value, ending);
      }
    }
  }

  lemma ReapedTail(log: seq<Entry>, id: JobId, worker: string, ending: Ending)
    requires OwnOk(log, id, worker, None)
    ensures var whole := log + Others(ending.before) + Others(ending.after);
      && OthersOf(whole) == OthersOf(log) + (ending.before + ending.after)
      && OwnFinalizes(whole) == OwnFinalizes(log) && OwnOk(whole, id, worker, None)
  {
    MoreOthers(log, ending.before, id, worker);
    MoreOthers(log + Others(ending.before), ending.after, id, worker);
  }

  lemma MoreOthers(log: seq<Entry>, us: seq<Update>, id: JobId, worker: string)
    requires OwnOk(log, id, worker, None)
    ensures OthersOf(log + Others(us)) == OthersOf(log) + us
    ensures OwnFinalizes(log + Others(us)) == OwnFinalizes(log) && OwnOk(log + Others(us), id, worker, None)
  {
    JoinedLogs(log, Others(us), id, worker);
    OthersOfOthers(us);
  }

  lemma ExitedTail(log: seq<Entry>, id: JobId, worker: string, code: int, ending: Ending)
    requires OwnOk(log, id, worker, None)
    ensures var whole := log + EndLog(id, code, ending);
      && OthersOf(whole) == OthersOf(log) + (ending.before + ending.after)
      && OwnFinalizes(whole) == OwnFinalizes(log) + (if ending.finalizeOk then 1 else 0)
      && OwnOk(whole, id, worker, Some(code))
  {
    EndIsScripted(id, code, ending, worker);
    OthersOfConcat(log, EndLog(id, code, ending));
    LoosenOwnOk(log, id, worker, Some(code));
  }

  lemma LoosenOwnOk(log: seq<Entry>, id: JobId, worker: string, code: Option<int>)
    requires OwnOk(log, id, worker, None)
    ensures OwnOk(log, id, worker, code)
  {
    forall k | 0 <= k < |log| ensures EntryOk(log[k], id, worker, code) {
      assert EntryOk(log[k], id, worker, None);
    }
  }

  // ---------------------------------------------------------------- the row over the call

  /** The claimed row, whatever has happened to it since. */
  predicate Claimed(jobs: Jobs, id: JobId, worker: string) {
    id in jobs && jobs[id].workerId == Some(worker) && jobs[id].status != Pending
  }

  lemma ClaimedStays(jobs: Jobs, u: Update, id: JobId, worker: string)
    requires TableOk(jobs) && Claimed(jobs, id, worker)
    ensures TableOk(Apply(jobs, u)) && Claimed(Apply(jobs, u), id, worker)
    ensures Terminal(jobs[id].status) ==> Terminal(Apply(jobs, u)[id].status)
  {
    ApplyKeepsTable(jobs, u);
    assert RowStep(jobs[id], Apply(jobs, u)[id]);
    assert RowOk(Apply(jobs, u)[id]);
  }

  /** A claimed row stays claimed through any log, and an ended one stays ended. */
  lemma {:induction false} AfterKeepsClaims(jobs: Jobs, log: seq<Entry>, i: nat, k: nat, id: JobId, worker: string)
    requires TableOk(jobs) && Claimed(jobs, id, worker) && i <= k <= |log|
    ensures TableOk(After(jobs, log, k)) && Claimed(After(jobs, log, i), id, worker) && Claimed(After(jobs, log, k), id, worker)
    ensures Terminal(After(jobs, log, i)[id].status) ==> Terminal(After(jobs, log, k)[id].status)
    decreases k
  {
    if i < k {
      AfterKeepsClaims(jobs, log, i, k - 1, id, worker);
      ClaimedStays(After(jobs, log, k - 1), log[k - 1].u, id, worker);
    } else if k > 0 {
      AfterKeepsClaims(jobs, log, k - 1, k - 1, id, worker);
      ClaimedStays(After(jobs, log, k - 1), log[k - 1].u, id, worker);
    }
  }

  lemma {:induction false} AllKeepClaims(jobs: Jobs, us: seq<Update>, id: JobId, worker: string)
    requires TableOk(jobs) && Claimed(jobs, id, worker)
    ensures TableOk(ApplyAll(jobs, us)) && Claimed(ApplyAll(jobs, us), id, worker)
    ensures Terminal(jobs[id].status) ==> Terminal(ApplyAll(jobs, us)[id].status)
  {
    if us != [] {
      AllKeepClaims(jobs, us[..|us| - 1], id, worker);
      ClaimedStays(ApplyAll(jobs, us[..|us| - 1]), us[|us| - 1], id, worker);
    }
  }

  /** A heartbeat of ours that finds no row means the row has ended. */
  lemma ReapedMeansEnded(jobs: Jobs, id: JobId, worker: string, tick: Tick)
    requires TableOk(jobs) && Claimed(jobs, id, worker)
    ensures var p := PulseOf(jobs, id, worker, tick);
      TableOk(p.jobs) && Claimed(p.jobs, id, worker) && (p.reaped ==> Terminal(p.jobs[id].status))
  {
    AllKeepClaims(jobs, tick.before, id, worker);
    var seen := ApplyAll(jobs, tick.before);
    ClaimedStays(seen, Heartbeat(id, worker, tick.now), id, worker);
    AllKeepClaims(Then(seen, OwnStamp(id, worker, tick)), tick.between, id, worker);
  }

  lemma {:induction false} CourseEnds(jobs: Jobs, id: JobId, worker: string, ticks: seq<Tick>, i: nat)
    requires i <= |ticks| && TableOk(jobs) && Claimed(jobs, id, worker)
    ensures var c := CourseOf(jobs, id, worker, ticks, i);
      TableOk(c.jobs) && Claimed(c.jobs, id, worker) && (c.reaped ==> Terminal(c.jobs[id].status))
    decreases |ticks| - i
  {
    if i < |ticks| && ticks[i].poll.None? {
      ReapedMeansEnded(jobs, id, worker, ticks[i]);
      CourseEnds(PulseOf(jobs, id, worker, ticks[i]).jobs, id, worker, ticks, i + 1);
    }
  }

  lemma EndMeansEnded(jobs: Jobs, id: JobId, worker: string, code: int, ending: Ending)
    requires TableOk(jobs) && Claimed(jobs, id, worker)
    ensures var end := EndJobs(jobs, id, code, ending);
      TableOk(end) && Claimed(end, id, worker) && (ending.finalizeOk ==> Terminal(end[id].status))
  {
    AllKeepClaims(jobs, ending.before, id, worker);
    var seen := ApplyAll(jobs, ending.before);
    ClaimedStays(seen, Finalize(id, code, ending.now), id, worker);
    AllKeepClaims(Then(seen, OwnEnd(id, code, ending)), ending.after, id, worker);
  }

  /** On return the child has exited or was told to terminate, and the row has ended unless the final statement
      was lost while it was still running. */
  lemma ReturnMeansEnded(jobs: Jobs, id: JobId, worker: string, spawns: bool, ticks: seq<Tick>, ending: Ending)
    requires TableOk(jobs) && Claimed(jobs, id, worker)
    ensures var c := CallOf(jobs, id, worker, spawns, ticks, ending);
      && TableOk(c.jobs) && Claimed(c.jobs, id, worker)
      && c.child.spawned == spawns
      && (!spawns ==> c.returned && c.child.exit == None && !c.child.terminated)
      && (c.returned && spawns ==> c.child.exit.Some? || c.child.terminated)
      && (c.returned && (ending.finalizeOk || c.course.reaped) ==> Terminal(c.jobs[id].status))
  {
    var c := CallOf(jobs, id, worker, spawns, ticks, ending);
    if !spawns {
      EndMeansEnded(jobs, id, worker, SPAWN_FAILED, ending);
    } else {
      CourseEnds(jobs, id, worker, ticks, 0);
      if c.course.reaped {
        AllKeepClaims(c.course.jobs, ending.before, id, worker);
        AllKeepClaims(ApplyAll(c.course.jobs, ending.before), ending.after, id, worker);
      } else if c.returned {
        EndMeansEnded(c.course.jobs, id, worker, c.course.exit.value, ending);
      }
    }
  }

  /** Someone else may complete the row: the end of this job, or the repair of interrupted ones. */
  predicate MayComplete(u: Update, id: JobId) { (u.Finalize? && u.id == id) || u.CompleteInterrupted? }

  /** A row orphaned at any moment of the call is still orphaned when the call is over, unless someone else
      repaired interrupted jobs meanwhile. */
  lemma {:induction false} OrphanedIsLeft(jobs: Jobs, log: seq<Entry>, id: JobId, worker: string, code: Option<int>, i: nat, k: nat)
    requires OwnOk(log, id, worker, code) && i <= k <= |log|
    requires id in After(jobs, log, i) && After(jobs, log, i)[id].status == Orphaned
    requires forall j :: i <= j < k && log[j].Other? ==> !log[j].u.CompleteInterrupted?
    ensures id in After(jobs, log, k) && After(jobs, log, k)[id].status == Orphaned
    decreases k
  {
    if i < k {
      OrphanedIsLeft(jobs, log, id, worker, code, i, k - 1);
      assert EntryOk(log[k - 1], id, worker, code);
      if log[k - 1].Other? { assert !log[k - 1].u.CompleteInterrupted?; }
    }
  }

  /** If no one else ended this job or repaired interrupted ones, a row that is complete afterwards was made so by
      this call, and its child exited 0. */
  lemma {:induction false} CompleteMeansExitZero(jobs: Jobs, log: seq<Entry>, id: JobId, worker: string, code: Option<int>, k: nat)
    requires OwnOk(log, id, worker, code) && k <= |log|
    requires id in jobs && jobs[id].status != Complete
    requires forall j :: 0 <= j < k && log[j].Other? ==> !MayComplete(log[j].u, id)
    ensures id in After(jobs, log, k) && (After(jobs, log, k)[id].status == Complete ==> code == Some(0))
  {
    if k > 0 {
      CompleteMeansExitZero(jobs, log, id, worker, code, k - 1);
      if log[k - 1].Own? {
        OwnStatementsAreSafe(jobs, log, id, worker, code, k - 1, id);
      } else {
        assert !MayComplete(log[k - 1].u, id);
      }
    }
  }

  lemma {:induction false} OthersInLog(log: seq<Entry>, k: nat)
    requires k < |log| && log[k].Other?
    ensures log[k].u in OthersOf(log)
  {
    if k < |log| - 1 { OthersInLog(log[..|log| - 1], k); }
  }

  /** The whole story of one call on a running job. */
  lemma CallIsSafe(jobs: Jobs, id: JobId, worker: string, spawns: bool, ticks: seq<Tick>, ending: Ending)
    requires TableOk(jobs) && Claimed(jobs, id, worker) && jobs[id].status == Running
    ensures var c := CallOf(jobs, id, worker, spawns, ticks, ending);
      var end := c.jobs;
      var script := Scripted(ticks, 0, c.course.beats) + ending.before + ending.after;
      && id in end
      && ((forall u :: u in script ==> !MayComplete(u, id)) && end[id].status == Complete ==>
            c.child.spawned && c.child.exit == Some(0))
      && ((forall u :: u in script ==> !u.CompleteInterrupted?) ==>
            forall k :: 0 <= k <= |c.log| && id in After(jobs, c.log, k) && After(jobs, c.log, k)[id].status == Orphaned ==>
              end[id].status == Orphaned)
  {
    var c := CallOf(jobs, id, worker, spawns, ticks, ending);
    var script := Scripted(ticks, 0, c.course.beats) + ending.before + ending.after;
    ReturnMeansEnded(jobs, id, worker, spawns, ticks, ending);
    CallJobs(jobs, id, worker, spawns, ticks, ending);
    CallIsScripted(jobs, id, worker, spawns, ticks, ending);
    forall k | 0 <= k < |c.log| && c.log[k].Other? ensures c.log[k].u in script {
      OthersInLog(c.log, k);
    }
    if forall u :: u in script ==> !MayComplete(u, id) {
      CompleteMeansExitZero(jobs, c.log, id, worker, CodeOf(c), |c.log|);
    }
    if forall u :: u in script ==> !u.CompleteInterrupted? {
      forall k | 0 <= k <= |c.log| && id in After(jobs, c.log, k) && After(jobs, c.log, k)[id].status == Orphaned
        ensures AfterLog(jobs, c.log)[id].status == Orphaned
      {
        OrphanedIsLeft(jobs, c.log, id, worker, CodeOf(c), k, |c.log|);
      }
    }
  }

  // ---------------------------------------------------------------- the call itself

  /** Statements of others, committed one after another. */
  method Interfere(store: Store, us: seq<Update>)
    modifies store`jobs
    ensures store.jobs == ApplyAll(old(store.jobs), us)
  {
    var i := 0;
    assert us[..0] == [];
    while i < |us|
      invariant 0 <= i <= |us|
      invariant store.jobs == ApplyAll(old(store.jobs), us[..i])
    {
      assert us[..i + 1][..i] == us[..i];
      store.jobs := Apply(store.jobs, us[i]);
      i := i + 1;
    }
    assert us[..i] == us;
  }

  method Beat(store: Store, id: JobId, worker: string, tick: Tick) returns (reaped: bool, kill: bool)
    modifies store`jobs
    ensures var p := PulseOf(old(store.jobs), id, worker, tick);
      store.jobs == p.jobs && reaped == p.reaped && kill == p.kill
  {
    reaped, kill := false, false;
    Interfere(store, tick.before);
    if tick.heartbeatOk {
      var rows := store.TouchHeartbeat(id, worker, tick.now);
      reaped := rows == 0;
    }
    Interfere(store, tick.between);
    if tick.heartbeatOk && !reaped && tick.readOk && id in store.jobs {
      kill := store.jobs[id].killRequested;
    }
  }

  /** The guarded final statement, which may fail to reach the database. */
  method Finish(store: Store, id: JobId, code: int, ending: Ending)
    modifies store`jobs
    ensures store.jobs == EndJobs(old(store.jobs), id, code, ending)
  {
    Interfere(store, ending.before);
    if ending.finalizeOk {
      var rows := store.FinalizeJob(id, code, ending.now);
    }
    Interfere(store, ending.after);
  }

  /** The loop: poll, heartbeat, react, until the child exits, the row is gone, or the script ends. */
  method Watch(store: Store, id: JobId, worker: string, ticks: seq<Tick>)
    returns (reaped: bool, exit: Option<int>, terminated: bool, stopped: bool)
    modifies store`jobs
    ensures var c := CourseOf(old(store.jobs), id, worker, ticks, 0);
      && store.jobs == c.jobs
      && reaped == c.reaped && exit == c.exit && terminated == c.terminated && stopped == c.stopped
  {
    reaped, exit, terminated, stopped := false, None, false, false;
    ghost var whole := CourseOf(store.jobs, id, worker, ticks, 0);
    var i := 0;
    while i < |ticks|
      invariant 0 <= i <= |ticks| && !reaped && exit.None?
      invariant whole == Prefixed(i, terminated, stopped, CourseOf(store.jobs, id, worker, ticks, i))
    {
      var kill;
      exit, reaped, kill := OneTurn(store, id, worker, ticks, i);
      if exit.Some? || reaped {
        return;
      }
      terminated := terminated || kill || ticks[i].stop;
      stopped := stopped || ticks[i].stop;
      i := i + 1;
    }
  }

  /** Poll and, while the child runs, beat. */
  method OneTurn(store: Store, id: JobId, worker: string, ticks: seq<Tick>, i: nat)
    returns (exit: Option<int>, reaped: bool, kill: bool)
    requires i < |ticks|
    modifies store`jobs
    ensures exit == ticks[i].poll && (exit.Some? ==> !reaped)
    ensures CourseOf(old(store.jobs), id, worker, ticks, i) ==
      if exit.Some? then Course(0, store.jobs, false, exit, false, false)
      else if reaped then Course(1, store.jobs, true, None, false, false)
      else Prefixed(1, kill || ticks[i].stop, ticks[i].stop, CourseOf(store.jobs, id, worker, ticks, i + 1))
  {
    exit, reaped, kill := ticks[i].poll, false, false;
    if exit.None? {
      reaped, kill := Beat(store, id, worker, ticks[i]);
    }
  }

  /** `_run_one_job` */
  method RunOneJob(store: Store, id: JobId, worker: string, spawns: bool, ticks: seq<Tick>, ending: Ending)
    returns (returned: bool, child: Child, stopped: bool)
    modifies store`jobs
    ensures var c := CallOf(old(store.jobs), id, worker, spawns, ticks, ending);
      && store.jobs == c.jobs == AfterLog(old(store.jobs), c.log)
      && returned == c.returned && child == c.child && stopped == c.course.stopped
  {
    CallJobs(store.jobs, id, worker, spawns, ticks, ending);
    if !spawns {
      Finish(store, id, SPAWN_FAILED, ending);
      return true, Child(false, None, false), false;
    }
    var reaped, exit, terminated, stop := Watch(store, id, worker, ticks);
    child, stopped, returned := Child(true, exit, terminated), stop, reaped || exit.Some?;
    if reaped {
      Interfere(store, ending.before);
      Interfere(store, ending.after);
      child := child.(exit := ending.poll);
      if child.exit.None? {
        child := child.(terminated := true);
      }
    } else if exit.Some? {
      Finish(store, id, exit.value, ending);
    }
  }
}
