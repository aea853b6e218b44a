/** The server-side sweeps over runs that wait for a domain join or a hash capture: which runs a sweep selects,
    what it does to each, and how it accounts for them. */
module JoinSweep {
  import opened Prelude

  // ---------------------------------------------------------------- who is live

  /** A heartbeat time as Python sees it. A naive one is read as UTC. */
  datatype Stamp = Missing | Odd | Naive(t: int) | Aware(t: int)

  function Cutoff(maxAge: Option<nat>, now: int): (c: Option<int>) {
    match maxAge
    case None => None
    case Some(age) => Some(now - age)
  }

  predicate IsStale(heartbeat: Stamp, cutoff: Option<int>) {
    match cutoff
    case None => false
    case Some(limit) =>
      match heartbeat
      case Missing => true
      case Odd => true
      case Naive(t) => t < limit
      case Aware(t) => t < limit
  }

  /** A time without a zone counts as UTC, and what is no time at all as none. */
  lemma StampsAreRead(t: int, cutoff: Option<int>)
    ensures IsStale(Naive(t), cutoff) == IsStale(Aware(t), cutoff) && IsStale(Odd, cutoff) == IsStale(Missing, cutoff)
    ensures IsStale(Missing, cutoff) <==> cutoff.Some?
    ensures IsStale(Aware(t), cutoff) <==> cutoff.Some? && t < cutoff.value
  {
  }

  datatype Candidate = Candidate(run: nat, created: int, heartbeat: Option<int>)

  /** The first sort key of the query. */
  predicate FreshInSql(c: Candidate, cutoff: Option<int>) {
    c.heartbeat.Some? && (cutoff.None? || c.heartbeat.value >= cutoff.value)
  }

  function StampOf(c: Candidate): (s: Stamp) {
    match c.heartbeat case None => Missing case Some(t) => Aware(t)
  }

  predicate Live(c: Candidate, cutoff: Option<int>) { !IsStale(StampOf(c), cutoff) }

  /** The query's test and Python's agree on every row exactly when a cutoff is set or the row has a heartbeat. */
  lemma TestsAgree(c: Candidate, cutoff: Option<int>)
    ensures (FreshInSql(c, cutoff) <==> Live(c, cutoff)) <==> cutoff.Some? || c.heartbeat.Some?
  {
  }

  // ---------------------------------------------------------------- ORDER BY ... LIMIT

  predicate NotAfter(a: Candidate, b: Candidate, cutoff: Option<int>) {
    if FreshInSql(a, cutoff) == FreshInSql(b, cutoff) then a.created <= b.created else FreshInSql(a, cutoff)
  }

  /** Rows the query may return: ties come in any order. */
  ghost predicate Selects(all: set<Candidate>, limit: nat, cutoff: Option<int>, rows: seq<Candidate>) {
    && |rows| == (if |all| < limit then |all| else limit)
    && (forall i :: 0 <= i < |rows| ==> rows[i] in all)
    && (forall i, j :: 0 <= i < j < |rows| ==> rows[i] != rows[j] && NotAfter(rows[i], rows[j], cutoff))
    && (forall c, i :: c in all && c !in rows && 0 <= i < |rows| ==> NotAfter(rows[i], c, cutoff))
  }

  lemma {:induction false} FirstOf(all: set<Candidate>, cutoff: Option<int>) returns (m: Candidate)
    requires all != {}
    ensures m in all && forall c :: c in all ==> NotAfter(m, c, cutoff)
  {
    m := PickFrom(all);
    var rest := all - {m};
    assert forall c :: c in all ==> c == m || c in rest;
    if rest != {} {
      var k := FirstOf(rest, cutoff);
      if NotAfter(k, m, cutoff) { m := k; }
    }
  }

  /** Some answer always meets the query. */
  lemma {:induction false} SelectionExists(all: set<Candidate>, limit: nat, cutoff: Option<int>)
    returns (rows: seq<Candidate>)
    ensures Selects(all, limit, cutoff, rows)
    decreases limit
  {
    if limit == 0 || all == {} {
      rows := [];
    } else {
      var m := FirstOf(all, cutoff);
      var rest := SelectionExists(all - {m}, limit - 1, cutoff);
      rows := [m] + rest;
      forall i | 0 <= i < |rest| ensures rest[i] != m && NotAfter(m, rest[i], cutoff) {}
      forall c, i | c in all && c !in rows && 0 <= i < |rows| ensures NotAfter(rows[i], c, cutoff) {
        assert rows[0] == m;
      }
    }
  }

  lemma CoveredSet(all: set<Candidate>, rows: seq<Candidate>)
    requires |rows| == |all|
    requires forall i :: 0 <= i < |rows| ==> rows[i] in all
    requires forall i, j :: 0 <= i < j < |rows| ==> rows[i] != rows[j]
    ensures forall c :: c in all ==> c in rows
  {
    var s := set c | c in rows;
    DistinctCount(rows);
    assert s <= all;
    if x :| x in all && x !in rows {
      SubsetCard(s + {x}, all);
    }
  }

  lemma {:induction false} DistinctCount(rows: seq<Candidate>)
    requires forall i, j :: 0 <= i < j < |rows| ==> rows[i] != rows[j]
    ensures |set c | c in rows| == |rows|
  {
    if rows != [] {
      var front, last := rows[..|rows| - 1], rows[|rows| - 1];
      DistinctCount(front);
      assert rows == front + [last];
      assert (set c | c in rows) == (set c | c in front) + {last};
      assert last !in front;
    }
  }

  /** Abandoned runs never crowd out live ones: either every live run is selected, or the limit was spent on
      live runs alone. The live ones lead, the oldest run first. */
  lemma LiveFirst(all: set<Candidate>, limit: nat, cutoff: Option<int>, rows: seq<Candidate>)
    requires Selects(all, limit, cutoff, rows)
    ensures (forall c :: c in all && Live(c, cutoff) ==> c in rows)
         || (|rows| == limit && forall i :: 0 <= i < |rows| ==> Live(rows[i], cutoff))
    ensures forall i, j :: 0 <= i < j < |rows| && Live(rows[j], cutoff) ==> Live(rows[i], cutoff)
    ensures cutoff.Some? ==> forall i, j :: 0 <= i < j < |rows| && Live(rows[j], cutoff) ==> rows[i].created <= rows[j].created
  {
    forall c, i | c in all && c !in rows && Live(c, cutoff) && 0 <= i < |rows| ensures Live(rows[i], cutoff) {
      assert NotAfter(rows[i], c, cutoff);
    }
    if |rows| < limit { CoveredSet(all, rows); }
  }

  // ---------------------------------------------------------------- one join

  datatype Reply = Raised | Answer(exitCode: int, output: string)
  datatype Credential = NoId | Resolves(usable: bool) | ResolverRaises

  /** What the guest and the credential store will say. */
  datatype Guest = Guest(hasNode: bool, probe: Reply, credential: Credential, join: Reply, reboot: Reply)

  datatype Command = Probe | AddComputer | Reboot
  datatype StepKind = JoinStep | VerifyStep
  datatype Status = NoNode | Unreachable | AlreadyJoined | NoCredential | Failed | Joined
  datatype Outcome = Outcome(status: Status, sent: seq<Command>, done: set<StepKind>)

  predicate Contains(s: string, part: string) {
    |part| <= |s| && (s[..|part|] == part || (s != "" && Contains(s[1..], part)))
  }

  lemma {:induction false} ContainsIff(s: string, part: string)
    ensures Contains(s, part) <==> exists a, b :: s == a + part + b
  {
    if |part| <= |s| {
      if s[..|part|] == part {
        assert s == [] + part + s[|part|..];
      } else if s != "" {
        ContainsIff(s[1..], part);
        if a, b :| s[1..] == a + part + b { assert s == ([s[0]] + a) + part + b; }
        if a, b :| s == a + part + b {
          assert (part + b)[..|part|] == part && [] + part + b == part + b;
          assert s[1..] == a[1..] + part + b;
        }
      }
    }
  }

  predicate SaysJoined(r: Reply) { r.Answer? && Contains(r.output, "DOMAIN=True") }
  predicate SaysNotJoined(r: Reply) { r.Answer? && !Contains(r.output, "DOMAIN=True") && Contains(r.output, "DOMAIN=False") }
  predicate JoinSucceeded(r: Reply) { r.Answer? && r.exitCode == 0 && Contains(r.output, "JOIN_OK") }

  /** One run. Whatever raises inside counts as failed. */
  function ExecuteJoin(g: Guest): (o: Outcome)
    ensures o.status == AlreadyJoined <==> g.hasNode && SaysJoined(g.probe)
    ensures o.status == NoNode <==> !g.hasNode
    ensures o.status == Joined <==>
      AddComputer in o.sent && g.join.Answer? && g.join.exitCode == 0 && Contains(g.join.output, "JOIN_OK")
    ensures o.status == Failed <==>
      || (AddComputer in o.sent && g.join.Answer? && !(g.join.exitCode == 0 && Contains(g.join.output, "JOIN_OK")))
      || (g.hasNode && SaysNotJoined(g.probe) && g.credential == ResolverRaises)
    ensures o.status == NoCredential <==>
      g.hasNode && SaysNotJoined(g.probe) && (g.credential == NoId || g.credential == Resolves(false))
    ensures o.status == Unreachable <==>
      || (g.hasNode && !SaysJoined(g.probe) && !SaysNotJoined(g.probe))
      || (AddComputer in o.sent && g.join.Raised?)
    ensures Probe in o.sent <==> g.hasNode
    ensures AddComputer in o.sent <==> g.hasNode && SaysNotJoined(g.probe) && g.credential == Resolves(true)
    ensures VerifyStep in o.done <==> o.status == AlreadyJoined
    ensures JoinStep in o.done <==> o.status == AlreadyJoined || o.status == Joined
    ensures Reboot in o.sent <==> o.status == Joined
    ensures o.sent <= [Probe, AddComputer, Reboot]
  {
    if !g.hasNode then Outcome(NoNode, [], {})
    else if g.probe.Raised? then Outcome(Unreachable, [Probe], {})
    else if Contains(g.probe.output, "DOMAIN=True") then Outcome(AlreadyJoined, [Probe], {JoinStep, VerifyStep})
    else if !Contains(g.probe.output, "DOMAIN=False") then Outcome(Unreachable, [Probe], {})
    else match g.credential
      case NoId => Outcome(NoCredential, [Probe], {})
      case ResolverRaises => Outcome(Failed, [Probe], {})
      case Resolves(usable) =>
        if !usable then Outcome(NoCredential, [Probe], {})
        else if g.join.Raised? then Outcome(Unreachable, [Probe, AddComputer], {})
        else if !JoinSucceeded(g.join) then Outcome(Failed, [Probe, AddComputer], {})
        else Outcome(Joined, [Probe, AddComputer, Reboot], {JoinStep})
  }

  // ---------------------------------------------------------------- the sweep

  datatype Fate = Stale | Rebooting | Deferred | Ran(status: Status)

  /** The surroundings of a sweep: the guests, and the clock as read when candidate i comes up. */
  datatype World = World(guests: nat -> Guest, cutoff: Option<int>, deadline: Option<int>, clock: nat -> int)

  function FateOf(w: World, c: Candidate, i: nat): (f: Fate) {
    if IsStale(StampOf(c), w.cutoff) then Stale
    else if w.deadline.Some? && w.clock(i) >= w.deadline.value then Deferred
    else Ran(ExecuteJoin(w.guests(c.run)).status)
  }

  datatype Bucket = JoinedBucket | AlreadyBucket | FailedBucket | UnreachableBucket | StaleBucket | SkippedBucket | DeferredBucket

  function BucketOf(f: Fate): (b: Bucket)
    requires f != Rebooting
  {
    match f
    case Stale => StaleBucket
    case Deferred => DeferredBucket
    case Ran(s) =>
      match s {
        case Joined => JoinedBucket
        case AlreadyJoined => AlreadyBucket
        case Failed => FailedBucket
        case Unreachable => UnreachableBucket
        case _ => SkippedBucket
      }
  }

  /** How many of the first `n` rows end up in a bucket. */
  function InBucket(w: World, rows: seq<Candidate>, n: nat, b: Bucket): (count: nat)
    requires n <= |rows|
  {
    if n == 0 then 0
    else InBucket(w, rows, n - 1, b) + if BucketOf(FateOf(w, rows[n - 1], n - 1)) == b then 1 else 0
  }

  /** The runs a sweep rebooted, in order. */
  function Rebooted(w: World, rows: seq<Candidate>, n: nat): (runs: seq<nat>)
    requires n <= |rows|
  {
    if n == 0 then []
    else Rebooted(w, rows, n - 1) + if FateOf(w, rows[n - 1], n - 1) == Ran(Joined) then [rows[n - 1].run] else []
  }

  /** The result list: every run but the deferred ones, in order. */
  function Results(w: World, rows: seq<Candidate>, n: nat): (rs: seq<(nat, Fate)>)
    requires n <= |rows|
  {
    if n == 0 then []
    else
      var f := FateOf(w, rows[n - 1], n - 1);
      Results(w, rows, n - 1) + if f == Deferred then [] else [(rows[n - 1].run, f)]
  }

  function One(status: Status, b: Bucket): (n: nat) { if BucketOf(Ran(status)) == b then 1 else 0 }

  class Summary {
    var joined: nat
    var alreadyJoined: nat
    var failed: nat
    var unreachable: nat
    var stale: nat
    var skipped: nat
    var deferred: nat
    var rebooted: seq<nat>
    var results: seq<(nat, Fate)>

    constructor ()
      ensures joined == alreadyJoined == failed == unreachable == stale == skipped == deferred == 0
      ensures rebooted == [] && results == []
    {
      joined, alreadyJoined, failed, unreachable, stale, skipped, deferred := 0, 0, 0, 0, 0, 0, 0;
      rebooted, results := [], [];
    }

    ghost predicate Accounts(w: World, rows: seq<Candidate>, n: nat)
      requires n <= |rows|
      reads this
    {
      && joined == InBucket(w, rows, n, JoinedBucket)
      && alreadyJoined == InBucket(w, rows, n, AlreadyBucket)
      && failed == InBucket(w, rows, n, FailedBucket)
      && unreachable == InBucket(w, rows, n, UnreachableBucket)
      && stale == InBucket(w, rows, n, StaleBucket)
      && skipped == InBucket(w, rows, n, SkippedBucket)
      && deferred == InBucket(w, rows, n, DeferredBucket)
      && rebooted == Rebooted(w, rows, n)
      && results == Results(w, rows, n)
    }

    /** One run was driven, with this outcome. */
    method Count(status: Status)
      modifies this`joined, this`alreadyJoined, this`failed, this`unreachable, this`skipped
      ensures joined == old(joined) + One(status, JoinedBucket)
      ensures alreadyJoined == old(alreadyJoined) + One(status, AlreadyBucket)
      ensures failed == old(failed) + One(status, FailedBucket)
      ensures unreachable == old(unreachable) + One(status, UnreachableBucket)
      ensures skipped == old(skipped) + One(status, SkippedBucket)
    {
      if status == Joined {
        joined := joined + 1;
      } else if status == AlreadyJoined {
        alreadyJoined := alreadyJoined + 1;
      } else if status == Failed {
        failed := failed + 1;
      } else if status == Unreachable {
        unreachable := unreachable + 1;
      } else {
        skipped := skipped + 1;
      }
    }

    method Sweep(w: World, rows: seq<Candidate>)
      requires Accounts(w, rows, 0)
      modifies this
      ensures Accounts(w, rows, |rows|)
    {
      var i := 0;
      while i < |rows|
        invariant 0 <= i <= |rows|
        invariant Accounts(w, rows, i)
      {
        var c := rows[i];
        if IsStale(StampOf(c), w.cutoff) {
          stale := stale + 1;
          results := results + [(c.run, Stale)];
        } else if w.deadline.Some? && w.clock(i) >= w.deadline.value {
          deferred := deferred + 1;
        } else {
          var outcome := ExecuteJoin(w.guests(c.run));
          Count(outcome.status);
          if Reboot in outcome.sent { rebooted := rebooted + [c.run]; }
          results := results + [(c.run, Ran(outcome.status))];
        }
        i := i + 1;
      }
    }
  }

  /** A run is given up as stale when its last heartbeat is older than allowed or there is none, put off when the deadline
      has come, and driven otherwise. */
  lemma FateIff(guests: nat -> Guest, maxAge: Option<nat>, now: int, deadline: Option<int>, clock: nat -> int, c: Candidate, i: nat)
    ensures var f := FateOf(World(guests, Cutoff(maxAge, now), deadline, clock), c, i);
      var stale := maxAge.Some? && (c.heartbeat.None? || now - c.heartbeat.value > maxAge.value);
      && (f == Stale <==> stale)
      && (f == Deferred <==> !stale && deadline.Some? && deadline.value <= clock(i))
      && (f.Ran? ==> f.status == ExecuteJoin(guests(c.run)).status) && f != Rebooting
  {
  }

  lemma FateHasOneBucket(f: Fate)
    requires f != Rebooting
    ensures f == Ran(Joined) <==> BucketOf(f) == JoinedBucket
    ensures f == Ran(AlreadyJoined) <==> BucketOf(f) == AlreadyBucket
    ensures f == Ran(Failed) <==> BucketOf(f) == FailedBucket
    ensures f == Ran(Unreachable) <==> BucketOf(f) == UnreachableBucket
    ensures f == Ran(NoNode) || f == Ran(NoCredential) <==> BucketOf(f) == SkippedBucket
    ensures f == Stale <==> BucketOf(f) == StaleBucket
    ensures f == Deferred <==> BucketOf(f) == DeferredBucket
  {
  }

  predicate FallsTo(w: World, rows: seq<Candidate>, i: int, b: Bucket) {
    0 <= i < |rows| && BucketOf(FateOf(w, rows[i], i)) == b
  }

  lemma OneMoreFallen(w: World, rows: seq<Candidate>, n: nat, b: Bucket)
    requires n < |rows|
    ensures (set i | 0 <= i < n + 1 && FallsTo(w, rows, i, b))
      == (set i | 0 <= i < n && FallsTo(w, rows, i, b)) + (if FallsTo(w, rows, n, b) then {n} else {})
  {
  }

  /** A counter is the number of rows whose fate falls to it. */
  lemma {:induction false} BucketsCount(w: World, rows: seq<Candidate>, n: nat, b: Bucket)
    requires n <= |rows|
    ensures InBucket(w, rows, n, b) == |set i | 0 <= i < n && FallsTo(w, rows, i, b)|
  {
    if n > 0 {
      BucketsCount(w, rows, n - 1, b);
      OneMoreFallen(w, rows, n - 1, b);
      assert FallsTo(w, rows, n - 1, b) <==> BucketOf(FateOf(w, rows[n - 1], n - 1)) == b;
    }
  }

  /** The list holds the run and fate of each row not deferred, each behind those before it. */
  lemma {:induction false} ResultsInOrder(w: World, rows: seq<Candidate>, n: nat, i: nat)
    requires i < n <= |rows| && !FateOf(w, rows[i], i).Deferred?
    ensures |Results(w, rows, i)| < |Results(w, rows, n)|
    ensures Results(w, rows, n)[|Results(w, rows, i)|] == (rows[i].run, FateOf(w, rows[i], i))
  {
    if i < n - 1 { ResultsInOrder(w, rows, n - 1, i); }
  }

  /** Nothing is counted twice and nothing is lost. */
  lemma {:induction false} CountersAddUp(w: World, rows: seq<Candidate>, n: nat)
    requires n <= |rows|
    ensures InBucket(w, rows, n, JoinedBucket) + InBucket(w, rows, n, AlreadyBucket)
          + InBucket(w, rows, n, FailedBucket) + InBucket(w, rows, n, UnreachableBucket)
          + InBucket(w, rows, n, StaleBucket) + InBucket(w, rows, n, SkippedBucket)
          + InBucket(w, rows, n, DeferredBucket) == n
    ensures |Results(w, rows, n)| + InBucket(w, rows, n, DeferredBucket) == n
    ensures |Rebooted(w, rows, n)| == InBucket(w, rows, n, JoinedBucket)
  {
    if n > 0 {
      CountersAddUp(w, rows, n - 1);
      FateHasOneBucket(FateOf(w, rows[n - 1], n - 1));
    }
  }

  ghost predicate ClockAdvances(clock: nat -> int) { forall i: nat, j: nat :: i <= j ==> clock(i) <= clock(j) }

  /** Of all the runs that wait, every live one is driven or deferred, unless the limit went to other live runs;
      those deferred come after all that are driven, and without a deadline none is. */
  lemma NoLiveRunIsLost(w: World, all: set<Candidate>, limit: nat, rows: seq<Candidate>, c: Candidate)
    requires Selects(all, limit, w.cutoff, rows) && c in all && Live(c, w.cutoff) && ClockAdvances(w.clock)
    ensures c !in rows ==> |rows| == limit && forall i :: 0 <= i < |rows| ==> Live(rows[i], w.cutoff)
    ensures forall i :: 0 <= i < |rows| && rows[i] == c ==> (FateOf(w, c, i).Ran? || FateOf(w, c, i).Deferred?)
    ensures forall i, j :: 0 <= i < j < |rows| && FateOf(w, rows[j], j).Ran? ==> FateOf(w, rows[i], i).Ran?
    ensures w.deadline.None? ==> forall i :: 0 <= i < |rows| && rows[i] == c ==> FateOf(w, c, i).Ran?
  {
    LiveFirst(all, limit, w.cutoff, rows);
    forall i, j | 0 <= i < j < |rows| && FateOf(w, rows[j], j).Ran? ensures FateOf(w, rows[i], i).Ran? {
      assert Live(rows[j], w.cutoff);
      assert Live(rows[i], w.cutoff);
      assert w.clock(i) <= w.clock(j);
    }
  }

  // ---------------------------------------------------------------- the capture sweep of the same tick

  /** What happens to a candidate of the capture sweep, told which runs were just rebooted. */
  function CaptureFate(w: World, rebooting: set<nat>, capture: nat -> Status, c: Candidate, i: nat): (f: Fate) {
    if IsStale(StampOf(c), w.cutoff) then Stale
    else if c.run in rebooting then Rebooting
    else if w.deadline.Some? && w.clock(i) >= w.deadline.value then Deferred
    else Ran(capture(c.run))
  }

  /** The capture sweep's own rule. */
  lemma CaptureFateIff(w: World, rebooting: set<nat>, capture: nat -> Status, c: Candidate, i: nat)
    ensures var f := CaptureFate(w, rebooting, capture, c, i);
      && (f == Stale <==> !Live(c, w.cutoff))
      && (f == Rebooting <==> Live(c, w.cutoff) && c.run in rebooting)
      && (f == Deferred <==> Live(c, w.cutoff) && c.run !in rebooting && w.deadline.Some? && w.clock(i) >= w.deadline.value)
      && (f.Ran? ==> f.status == capture(c.run))
  {
  }

  lemma {:induction false} RebootedRuns(w: World, rows: seq<Candidate>, n: nat, run: nat)
    requires n <= |rows|
    ensures run in Rebooted(w, rows, n) <==>
      exists i :: 0 <= i < n && rows[i].run == run && FateOf(w, rows[i], i) == Ran(Joined)
  {
    if n > 0 { RebootedRuns(w, rows, n - 1, run); }
  }

  /** A guest sent a reboot by the join sweep is left alone by the capture sweep that follows. */
  lemma RebootedGuestsAreNotProbed(joins: World, joinRows: seq<Candidate>, captures: World, capture: nat -> Status,
                                   rebooting: set<nat>, c: Candidate, i: nat, j: nat)
    requires j < |joinRows| && joinRows[j].run == c.run
    requires FateOf(joins, joinRows[j], j).Ran? && Reboot in ExecuteJoin(joins.guests(c.run)).sent
    requires rebooting == set run | run in Rebooted(joins, joinRows, |joinRows|)
    ensures !CaptureFate(captures, rebooting, capture, c, i).Ran?
  {
    RebootedRuns(joins, joinRows, |joinRows|, c.run);
  }
}
