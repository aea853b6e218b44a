/** The builder: it claims a job, sees it through, and claims the next. */
module BuilderLoop {
  import opened Prelude
  import opened JobTable
  import opened JobStore
  import opened BuilderCall

  /** One turn of the builder: what commits before its claim, the caps then in force, and how the claimed job
      will go. */
  datatype Turn = Turn(others: seq<Update>, caps: Limits, now: int, spawns: bool, ticks: seq<Tick>, ending: Ending)

  /** The table at the end, the jobs claimed in order, and whether the last call did not return. */
  datatype Tour = Tour(jobs: Jobs, claimed: seq<JobId>, stuck: bool)

  /** Claim what the rule picks, run it to its end, repeat, until told to stop. */
  ghost function TourOf(jobs: Jobs, worker: string, turns: seq<Turn>): (t: Tour)
    decreases |turns|, 1
  {
    if turns == [] then Tour(jobs, [], false)
    else TourFrom(ApplyAll(jobs, turns[0].others), worker, turns)
  }

  /** The same, once the others of the first turn have committed. */
  ghost function TourFrom(ready: Jobs, worker: string, turns: seq<Turn>): (t: Tour)
    requires turns != []
    decreases |turns|, 0
  {
    if exists id :: ClaimPicks(ready, turns[0].caps, id) then
      var id :| ClaimPicks(ready, turns[0].caps, id);
      var c := CallIn(ready, id, worker, turns[0]);
      var end := c.jobs;
      if !c.returned || c.course.stopped then Tour(end, [id], !c.returned)
      else
        var rest := TourOf(end, worker, turns[1..]);
        Tour(rest.jobs, [id] + rest.claimed, rest.stuck)
    else TourOf(ready, worker, turns[1..])
  }

  /** The call on the job just claimed. */
  function CallIn(ready: Jobs, id: JobId, worker: string, t: Turn): (c: Call) {
    CallOf(Apply(ready, Claim(id, worker, t.now)), id, worker, t.spawns, t.ticks, t.ending)
  }

  /** `run_builder` */
  method RunBuilder(store: Store, worker: string, turns: seq<Turn>) returns (claimed: seq<JobId>, stuck: bool)
    modifies store
    ensures var t := TourOf(old(store.jobs), worker, turns);
      store.jobs == t.jobs && claimed == t.claimed && stuck == t.stuck
  {
    claimed, stuck := [], false;
    ghost var whole := TourOf(store.jobs, worker, turns);
    var i := 0;
    assert turns[0..] == turns;
    while i < |turns|
      invariant 0 <= i <= |turns| && !stuck
      invariant var rest := TourOf(store.jobs, worker, turns[i..]); whole == Tour(rest.jobs, claimed + rest.claimed, rest.stuck)
    {
      var turn := turns[i];
      ghost var ready := ApplyAll(store.jobs, turn.others);
      assert turns[i..][0] == turn && turns[i..][1..] == turns[i + 1..];
      var got, returned, stopped := TakeTurn(store, worker, turn);
      if got.Some? {
        TurnPicks(ready, worker, turns[i..], got.value);
        claimed := claimed + [got.value];
        if !returned || stopped {
          stuck := !returned;
          return;
        }
      } else {
        TurnIdles(ready, worker, turns[i..]);
      }
      i := i + 1;
    }
  }

  /** Claim once, and run what was claimed. */
  method TakeTurn(store: Store, worker: string, turn: Turn) returns (got: Option<JobId>, returned: bool, stopped: bool)
    modifies store
    ensures var ready := ApplyAll(old(store.jobs), turn.others);
      if got.None? then store.jobs == ready && ClaimsNothing(ready, turn.caps)
      else
        && ClaimPicks(ready, turn.caps, got.value)
        && var c := CallIn(ready, got.value, worker, turn);
        && store.jobs == c.jobs
        && returned == c.returned && stopped == c.course.stopped
  {
    Interfere(store, turn.others);
    store.limits := turn.caps;
    returned, stopped := true, false;
    got := store.ClaimNextJob(worker, turn.now);
    if got.Some? {
      var child;
      returned, child, stopped := RunOneJob(store, got.value, worker, turn.spawns, turn.ticks, turn.ending);
    }
  }

  lemma {:induction false} ClaimTimeStays(jobs: Jobs, log: seq<Entry>, k: nat, id: JobId)
    requires k <= |log| && TableOk(jobs) && id in jobs && jobs[id].workerId.Some?
    ensures TableOk(After(jobs, log, k)) && id in After(jobs, log, k)
    ensures After(jobs, log, k)[id].workerId == jobs[id].workerId && After(jobs, log, k)[id].claimedAt == jobs[id].claimedAt
  {
    if k > 0 {
      ClaimTimeStays(jobs, log, k - 1, id);
      var before := After(jobs, log, k - 1);
      ApplyKeepsTable(before, log[k - 1].u);
      assert RowStep(before[id], Apply(before, log[k - 1].u)[id]);
    }
  }

  /** When the call on a claimed job is over, the row still says who claimed it and when. */
  lemma ClaimIsOnRecord(ready: Jobs, id: JobId, worker: string, t: Turn)
    requires TableOk(ready) && id in ready && ready[id].status == Pending
    ensures var end := CallIn(ready, id, worker, t).jobs;
      id in end && end[id].workerId == Some(worker) && end[id].claimedAt == Some(t.now)
  {
    var jobs := Apply(ready, Claim(id, worker, t.now));
    ApplyKeepsTable(ready, Claim(id, worker, t.now));
    assert Matches(Claim(id, worker, t.now), id, ready[id]);
    CallJobs(jobs, id, worker, t.spawns, t.ticks, t.ending);
    ClaimTimeStays(jobs, CallIn(ready, id, worker, t).log, |CallIn(ready, id, worker, t).log|, id);
  }

  lemma TurnPicks(ready: Jobs, worker: string, turns: seq<Turn>, id: JobId)
    requires turns != [] && ClaimPicks(ready, turns[0].caps, id)
    ensures var c := CallIn(ready, id, worker, turns[0]);
      var end := c.jobs;
      TourFrom(ready, worker, turns) ==
        if !c.returned || c.course.stopped then Tour(end, [id], !c.returned)
        else
          var rest := TourOf(end, worker, turns[1..]);
          Tour(rest.jobs, [id] + rest.claimed, rest.stuck)
  {
    Picked(ready, turns[0].caps, id);
  }

  lemma TurnIdles(ready: Jobs, worker: string, turns: seq<Turn>)
    requires turns != [] && ClaimsNothing(ready, turns[0].caps)
    ensures TourFrom(ready, worker, turns) == TourOf(ready, worker, turns[1..])
  {
  }

  lemma Picked(jobs: Jobs, caps: Limits, id: JobId)
    requires ClaimPicks(jobs, caps, id)
    ensures forall other :: ClaimPicks(jobs, caps, other) ==> other == id
  {
    forall other | ClaimPicks(jobs, caps, other) ensures other == id { ClaimRuleIsDeterministic(jobs, caps, id, other); }
  }

  /** The tour goes on after its last turn so far. */
  ghost predicate GoesOn(jobs: Jobs, worker: string, turns: seq<Turn>)
    decreases |turns|
  {
    turns != [] ==>
      var ready := ApplyAll(jobs, turns[0].others);
      if exists id :: ClaimPicks(ready, turns[0].caps, id) then
        var id :| ClaimPicks(ready, turns[0].caps, id);
        var c := CallIn(ready, id, worker, turns[0]);
        c.returned && !c.course.stopped && GoesOn(c.jobs, worker, turns[1..])
      else GoesOn(ready, worker, turns[1..])
  }

  ghost predicate IsPick(jobs: Jobs, caps: Limits, got: Option<JobId>) {
    match got
    case None => ClaimsNothing(jobs, caps)
    case Some(id) => ClaimPicks(jobs, caps, id)
  }

  /** A tour with one more turn: what is claimable then is claimed, and run to the end of its call. */
  function Extended(t: Tour, worker: string, last: Turn, got: Option<JobId>): (r: Tour) {
    var ready := ApplyAll(t.jobs, last.others);
    match got
    case None => Tour(ready, t.claimed, false)
    case Some(id) => Tour(CallIn(ready, id, worker, last).jobs, t.claimed + [id], !CallIn(ready, id, worker, last).returned)
  }

  lemma TourOfOne(jobs: Jobs, worker: string, last: Turn, got: Option<JobId>)
    requires IsPick(ApplyAll(jobs, last.others), last.caps, got)
    ensures TourOf(jobs, worker, [last]) == Extended(Tour(jobs, [], false), worker, last, got)
  {
    var ready := ApplyAll(jobs, last.others);
    match got
    case None => TurnIdles(ready, worker, [last]);
    case Some(id) => TurnPicks(ready, worker, [last], id);
  }

  lemma FirstTurn(jobs: Jobs, worker: string, turns: seq<Turn>) returns (got: Option<JobId>, next: Jobs)
    requires turns != [] && GoesOn(jobs, worker, turns)
    ensures var ready := ApplyAll(jobs, turns[0].others);
      IsPick(ready, turns[0].caps, got) && next == if got.None? then ready else CallIn(ready, got.value, worker, turns[0]).jobs
    ensures GoesOn(next, worker, turns[1..])
    ensures got.Some? ==>
      var c := CallIn(ApplyAll(jobs, turns[0].others), got.value, worker, turns[0]); c.returned && !c.course.stopped
  {
    var ready := ApplyAll(jobs, turns[0].others);
    if exists id :: ClaimPicks(ready, turns[0].caps, id) {
      var id :| ClaimPicks(ready, turns[0].caps, id);
      Picked(ready, turns[0].caps, id);
      got, next := Some(id), CallIn(ready, id, worker, turns[0]).jobs;
    } else {
      PickOrNothing(ready, turns[0].caps);
      got, next := None, ready;
    }
  }

  lemma PrependTurn(jobs: Jobs, worker: string, turns: seq<Turn>, got: Option<JobId>, next: Jobs)
    requires turns != []
    requires var ready := ApplyAll(jobs, turns[0].others);
      && IsPick(ready, turns[0].caps, got)
      && match got {
           case None => next == ready
           case Some(id) =>
             var c := CallIn(ready, id, worker, turns[0]); c.returned && !c.course.stopped && next == c.jobs
         }
    ensures var rest := TourOf(next, worker, turns[1..]);
      TourOf(jobs, worker, turns) == rest.(claimed := (if got.None? then [] else [got.value]) + rest.claimed)
  {
    var ready := ApplyAll(jobs, turns[0].others);
    match got
    case None => TurnIdles(ready, worker, turns);
    case Some(id) => TurnPicks(ready, worker, turns, id);
  }

  /** Some job is picked, or nothing can be claimed. */
  lemma PickOrNothing(jobs: Jobs, caps: Limits)
    requires forall id :: !ClaimPicks(jobs, caps, id)
    ensures ClaimsNothing(jobs, caps)
  {
    if !ClaimsNothing(jobs, caps) {
      var id := RulePicksWhenItCan(jobs, caps);
      assert false;
    }
  }

  /** A builder never rests while it goes on: in one more turn it claims what the rule picks, if anything. */
  lemma {:induction false} OneMoreTurn(jobs: Jobs, worker: string, turns: seq<Turn>, last: Turn, got: Option<JobId>)
    requires GoesOn(jobs, worker, turns)
    requires IsPick(ApplyAll(TourOf(jobs, worker, turns).jobs, last.others), last.caps, got)
    ensures !TourOf(jobs, worker, turns).stuck
    ensures TourOf(jobs, worker, turns + [last]) == Extended(TourOf(jobs, worker, turns), worker, last, got)
    decreases |turns|
  {
    if turns == [] {
      assert turns + [last] == [last];
      TourOfOne(jobs, worker, last, got);
    } else {
      assert (turns + [last])[1..] == turns[1..] + [last] && (turns + [last])[0] == turns[0];
      var first, next := FirstTurn(jobs, worker, turns);
      PrependTurn(jobs, worker, turns, first, next);
      PrependTurn(jobs, worker, turns + [last], first, next);
      OneMoreTurn(next, worker, turns[1..], last, got);
      ExtendAfter(if first.None? then [] else [first.value], TourOf(next, worker, turns[1..]), worker, last, got);
    }
  }

  /** Once a call is stopped or does not return, nothing more is claimed. */
  lemma {:induction false} NothingAfterStop(jobs: Jobs, worker: string, turns: seq<Turn>, more: seq<Turn>)
    requires !GoesOn(jobs, worker, turns)
    ensures TourOf(jobs, worker, turns + more) == TourOf(jobs, worker, turns)
    decreases |turns|
  {
    var all := turns + more;
    assert all[0] == turns[0] && all[1..] == turns[1..] + more;
    var ready := ApplyAll(jobs, turns[0].others);
    if exists id :: ClaimPicks(ready, turns[0].caps, id) {
      var id :| ClaimPicks(ready, turns[0].caps, id);
      Picked(ready, turns[0].caps, id);
      TurnPicks(ready, worker, turns, id);
      TurnPicks(ready, worker, all, id);
      var c := CallIn(ready, id, worker, turns[0]);
      if c.returned && !c.course.stopped { NothingAfterStop(c.jobs, worker, turns[1..], more); }
    } else {
      NothingAfterStop(ready, worker, turns[1..], more);
    }
  }

  lemma ExtendAfter(head: seq<JobId>, t: Tour, worker: string, last: Turn, got: Option<JobId>)
    ensures var r := Extended(t, worker, last, got);
      Extended(t.(claimed := head + t.claimed), worker, last, got) == r.(claimed := head + r.claimed)
  {
    if got.Some? { assert head + (t.claimed + [got.value]) == head + t.claimed + [got.value]; }
  }

  // ---------------------------------------------------------------- what a builder holds

  predicate Held(jobs: Jobs, id: JobId, worker: string) { id in jobs && jobs[id].workerId == Some(worker) }

  predicate ClaimsFor(us: seq<Update>, id: JobId, worker: string) {
    exists i :: 0 <= i < |us| && us[i].Claim? && us[i].id == id && us[i].worker == worker
  }

  /** Everything others do during the turns. */
  function ScriptOf(turns: seq<Turn>): (us: seq<Update>) {
    if turns == [] then []
    else turns[0].others + CallScript(turns[0].ticks, turns[0].ending) + ScriptOf(turns[1..])
  }

  function CallScript(ticks: seq<Tick>, ending: Ending): (us: seq<Update>) {
    Scripted(ticks, 0, |ticks|) + (ending.before + ending.after)
  }

  lemma {:induction false} AllHold(jobs: Jobs, us: seq<Update>, id: JobId, worker: string)
    ensures Held(ApplyAll(jobs, us), id, worker) ==> Held(jobs, id, worker) || ClaimsFor(us, id, worker)
  {
    if us != [] {
      var n := |us| - 1;
      AllHold(jobs, us[..n], id, worker);
      if i :| 0 <= i < n && us[..n][i].Claim? && us[..n][i].id == id && us[..n][i].worker == worker { assert us[i] == us[..n][i]; }
    }
  }

  /** A call's own statements make nobody the worker of anything. */
  lemma {:induction false} LogHolds(jobs: Jobs, log: seq<Entry>, me: JobId, code: Option<int>, id: JobId, worker: string, k: nat)
    requires OwnOk(log, me, worker, code) && k <= |log|
    ensures Held(After(jobs, log, k), id, worker) ==> Held(jobs, id, worker) || ClaimsFor(OthersOf(log[..k]), id, worker)
  {
    if k > 0 {
      LogHolds(jobs, log, me, code, id, worker, k - 1);
      var e, us := log[k - 1], OthersOf(log[..k - 1]);
      assert EntryOk(e, me, worker, code);
      assert log[..k][..k - 1] == log[..k - 1];
      var more := OthersOf(log[..k]);
      assert more == us + if e.Other? then [e.u] else [];
      ClaimsPrefix(us, if e.Other? then [e.u] else [], id, worker);
      if e.Other? && e.u.Claim? && e.u.id == id && e.u.worker == worker { assert more[|us|] == e.u; }
    }
  }

  lemma ClaimsPrefix(a: seq<Update>, b: seq<Update>, id: JobId, worker: string)
    ensures ClaimsFor(a + b, id, worker) <==> ClaimsFor(a, id, worker) || ClaimsFor(b, id, worker)
  {
    if i :| 0 <= i < |a| && a[i].Claim? && a[i].id == id && a[i].worker == worker { assert (a + b)[i] == a[i]; }
    if i :| 0 <= i < |b| && b[i].Claim? && b[i].id == id && b[i].worker == worker { assert (a + b)[|a| + i] == b[i]; }
  }

  lemma {:induction false} ScriptedPrefix(ticks: seq<Tick>, i: nat, n: nat, id: JobId, worker: string)
    requires i <= |ticks|
    ensures ClaimsFor(Scripted(ticks, i, n), id, worker) ==> ClaimsFor(Scripted(ticks, i, |ticks| - i), id, worker)
    decreases |ticks| - i
  {
    if n > 0 && i < |ticks| {
      ScriptedPrefix(ticks, i + 1, n - 1, id, worker);
      var head := ticks[i].before + ticks[i].between;
      ClaimsPrefix(head, Scripted(ticks, i + 1, n - 1), id, worker);
      ClaimsPrefix(head, Scripted(ticks, i + 1, |ticks| - i - 1), id, worker);
    }
  }

  lemma CallHolds(jobs: Jobs, me: JobId, spawns: bool, ticks: seq<Tick>, ending: Ending, id: JobId, worker: string)
    ensures var c := CallOf(jobs, me, worker, spawns, ticks, ending);
      Held(c.jobs, id, worker) ==>
        Held(jobs, id, worker) || ClaimsFor(CallScript(ticks, ending), id, worker)
  {
    var c := CallOf(jobs, me, worker, spawns, ticks, ending);
    CallJobs(jobs, me, worker, spawns, ticks, ending);
    CallIsScripted(jobs, me, worker, spawns, ticks, ending);
    LogHolds(jobs, c.log, me, CodeOf(c), id, worker, |c.log|);
    assert c.log[..|c.log|] == c.log;
    ScriptedPrefix(ticks, 0, c.course.beats, id, worker);
    ClaimsPrefix(Scripted(ticks, 0, c.course.beats), ending.before + ending.after, id, worker);
    ClaimsPrefix(Scripted(ticks, 0, |ticks|), ending.before + ending.after, id, worker);
    ClaimsPrefix(Scripted(ticks, 0, c.course.beats), [], id, worker);
  }

  lemma ScriptSplit(turns: seq<Turn>, id: JobId, worker: string)
    requires turns != []
    ensures ClaimsFor(ScriptOf(turns), id, worker) <==>
      || ClaimsFor(turns[0].others, id, worker)
      || ClaimsFor(CallScript(turns[0].ticks, turns[0].ending), id, worker)
      || ClaimsFor(ScriptOf(turns[1..]), id, worker)
  {
    var t, rest := turns[0], ScriptOf(turns[1..]);
    var call := CallScript(t.ticks, t.ending);
    ClaimsPrefix(t.others + call, rest, id, worker);
    ClaimsPrefix(t.others, call, id, worker);
  }

  /** Whatever the builder is the worker of, it was before, or claimed, or someone claimed in its name. */
  lemma {:induction false} HoldsOnlyClaims(jobs: Jobs, worker: string, turns: seq<Turn>, id: JobId)
    ensures var t := TourOf(jobs, worker, turns);
      Held(t.jobs, id, worker) ==> Held(jobs, id, worker) || id in t.claimed || ClaimsFor(ScriptOf(turns), id, worker)
    decreases |turns|
  {
    if turns != [] {
      var t := turns[0];
      var ready := ApplyAll(jobs, t.others);
      AllHold(jobs, t.others, id, worker);
      ScriptSplit(turns, id, worker);
      if exists n :: ClaimPicks(ready, t.caps, n) {
        var n :| ClaimPicks(ready, t.caps, n);
        Picked(ready, t.caps, n);
        var taken := Apply(ready, Claim(n, worker, t.now));
        CallHolds(taken, n, t.spawns, t.ticks, t.ending, id, worker);
        HoldsOnlyClaims(CallIn(ready, n, worker, t).jobs, worker, turns[1..], id);
      } else {
        HoldsOnlyClaims(ready, worker, turns[1..], id);
      }
    }
  }

  /** One turn that claims: the job was pending, is ours from then on, and has ended if the end of it was not lost. */
  lemma TurnClaims(ready: Jobs, id: JobId, worker: string, t: Turn)
    requires TableOk(ready) && ClaimPicks(ready, t.caps, id)
    ensures var c := CallIn(ready, id, worker, t);
      && TableOk(c.jobs) && Claimed(c.jobs, id, worker)
      && (c.returned && t.ending.finalizeOk ==> Terminal(c.jobs[id].status))
  {
    ApplyKeepsTable(ready, Claim(id, worker, t.now));
    ReturnMeansEnded(Apply(ready, Claim(id, worker, t.now)), id, worker, t.spawns, t.ticks, t.ending);
  }

  /** Rows claimed by anyone stay so through a tour, and ended ones stay ended. */
  lemma {:induction false} TourKeepsClaims(jobs: Jobs, worker: string, turns: seq<Turn>, id: JobId, holder: string)
    requires TableOk(jobs) && Claimed(jobs, id, holder)
    ensures var t := TourOf(jobs, worker, turns);
      TableOk(t.jobs) && Claimed(t.jobs, id, holder) && (Terminal(jobs[id].status) ==> Terminal(t.jobs[id].status))
    decreases |turns|
  {
    if turns != [] {
      var t := turns[0];
      var ready := ApplyAll(jobs, t.others);
      AllKeepClaims(jobs, t.others, id, holder);
      if exists n :: ClaimPicks(ready, t.caps, n) {
        var n :| ClaimPicks(ready, t.caps, n);
        Picked(ready, t.caps, n);
        var taken := Apply(ready, Claim(n, worker, t.now));
        ClaimedStays(ready, Claim(n, worker, t.now), id, holder);
        var c := CallIn(ready, n, worker, t);
        CallJobs(taken, n, worker, t.spawns, t.ticks, t.ending);
        AfterKeepsClaims(taken, c.log, 0, |c.log|, id, holder);
        TourKeepsClaims(c.jobs, worker, turns[1..], id, holder);
      } else {
        TourKeepsClaims(ready, worker, turns[1..], id, holder);
      }
    }
  }

  /** Not yet claimed by anyone. */
  predicate Free(jobs: Jobs, id: JobId) { id !in jobs || jobs[id].status == Pending }

  lemma ClaimedWasNotFree(jobs: Jobs, us: seq<Update>, id: JobId)
    requires TableOk(jobs) && !Free(jobs, id)
    ensures !Free(ApplyAll(jobs, us), id)
  {
    assert RowOk(jobs[id]);
    AllKeepClaims(jobs, us, id, jobs[id].workerId.value);
  }

  lemma {:induction false} ReadyTable(jobs: Jobs, us: seq<Update>)
    requires TableOk(jobs)
    ensures TableOk(ApplyAll(jobs, us))
  {
    if us != [] {
      ReadyTable(jobs, us[..|us| - 1]);
      ApplyKeepsTable(ApplyAll(jobs, us[..|us| - 1]), us[|us| - 1]);
    }
  }

  lemma CallKeepsTaken(ready: Jobs, n: JobId, worker: string, t: Turn, id: JobId)
    requires TableOk(ready) && ClaimPicks(ready, t.caps, n) && !Free(ready, id)
    ensures !Free(CallIn(ready, n, worker, t).jobs, id)
  {
    assert RowOk(ready[id]);
    var holder := ready[id].workerId.value;
    ClaimedStays(ready, Claim(n, worker, t.now), id, holder);
    var log := CallIn(ready, n, worker, t).log;
    CallJobs(Apply(ready, Claim(n, worker, t.now)), n, worker, t.spawns, t.ticks, t.ending);
    AfterKeepsClaims(Apply(ready, Claim(n, worker, t.now)), log, 0, |log|, id, holder);
  }

  /** Each claimed job was free before and is the builder's own from then on, and none is claimed twice. With
      `kept`, all of them have ended, but for the last when its call has not returned. */
  ghost predicate Sound(jobs: Jobs, t: Tour, worker: string, kept: bool) {
    && TableOk(t.jobs)
    && (forall i :: 0 <= i < |t.claimed| ==> Free(jobs, t.claimed[i]) && Claimed(t.jobs, t.claimed[i], worker))
    && (forall i, j :: 0 <= i < j < |t.claimed| ==> t.claimed[i] != t.claimed[j])
    && (t.stuck ==> t.claimed != [])
    && (kept ==> forall i :: 0 <= i < |t.claimed| && (i < |t.claimed| - 1 || !t.stuck) ==>
          t.claimed[i] in t.jobs && Terminal(t.jobs[t.claimed[i]].status))
  }

  lemma ConsSound(jobs: Jobs, n: JobId, end: Jobs, rest: Tour, worker: string, kept: bool)
    requires Sound(end, rest, worker, kept)
    requires Free(jobs, n) && !Free(end, n) && forall id :: !Free(jobs, id) ==> !Free(end, id)
    requires Claimed(rest.jobs, n, worker) && (kept ==> Terminal(rest.jobs[n].status))
    ensures Sound(jobs, Tour(rest.jobs, [n] + rest.claimed, rest.stuck), worker, kept)
  {
    var claimed := [n] + rest.claimed;
    forall i | 0 < i < |claimed| ensures claimed[i] == rest.claimed[i - 1] && claimed[i] != n {
      assert Free(end, rest.claimed[i - 1]);
    }
  }

  lemma SoundFrom(jobs: Jobs, ready: Jobs, t: Tour, worker: string, kept: bool)
    requires Sound(ready, t, worker, kept) && forall id :: !Free(jobs, id) ==> !Free(ready, id)
    ensures Sound(jobs, t, worker, kept)
  {
    forall i | 0 <= i < |t.claimed| ensures Free(jobs, t.claimed[i]) { assert Free(ready, t.claimed[i]); }
  }

  predicate NoneLost(turns: seq<Turn>) { forall i :: 0 <= i < |turns| ==> turns[i].ending.finalizeOk }

  /** Whether or not final statements are lost, the claims of a builder are sound; the jobs have ended too when
      none is lost. */
  lemma {:induction false} TourIsSound(jobs: Jobs, worker: string, turns: seq<Turn>)
    requires TableOk(jobs)
    ensures Sound(jobs, TourOf(jobs, worker, turns), worker, NoneLost(turns))
    decreases |turns|, 1
  {
    if turns != [] {
      var t := turns[0];
      var ready := ApplyAll(jobs, t.others);
      ReadyTable(jobs, t.others);
      forall id | !Free(jobs, id) ensures !Free(ready, id) { ClaimedWasNotFree(jobs, t.others, id); }
      ReadyIsSound(ready, worker, turns);
      SoundFrom(jobs, ready, TourFrom(ready, worker, turns), worker, NoneLost(turns));
    }
  }

  lemma {:induction false} ReadyIsSound(ready: Jobs, worker: string, turns: seq<Turn>)
    requires TableOk(ready) && turns != []
    ensures Sound(ready, TourFrom(ready, worker, turns), worker, NoneLost(turns))
    decreases |turns|, 0
  {
    var t := turns[0];
    if exists n :: ClaimPicks(ready, t.caps, n) {
      var n :| ClaimPicks(ready, t.caps, n);
      Picked(ready, t.caps, n);
      TurnClaims(ready, n, worker, t);
      var c := CallIn(ready, n, worker, t);
      var end := c.jobs;
      if c.returned && !c.course.stopped {
        forall id | !Free(ready, id) ensures !Free(end, id) { CallKeepsTaken(ready, n, worker, t, id); }
        TourIsSound(end, worker, turns[1..]);
        TourKeepsClaims(end, worker, turns[1..], n, worker);
        LaterNoneLost(turns);
        ConsSound(ready, n, end, TourOf(end, worker, turns[1..]), worker, NoneLost(turns));
      }
    } else {
      TourIsSound(ready, worker, turns[1..]);
      LaterNoneLost(turns);
    }
  }

  lemma LaterNoneLost(turns: seq<Turn>)
    requires turns != []
    ensures NoneLost(turns) <==> turns[0].ending.finalizeOk && NoneLost(turns[1..])
  {
    if NoneLost(turns[1..]) && turns[0].ending.finalizeOk {
      forall i | 0 < i < |turns| ensures turns[i].ending.finalizeOk { assert turns[i] == turns[1..][i - 1]; }
    }
  }
}
