/** Whole calls on one cloud deployment: what a heartbeat completes, when it mends the rows, and what agents can
    do to that. */
module CloudHeartbeat {
  import opened Prelude
  import opened Text
  import opened DomainMatch
  import opened CloudRun

  function Sync(d: Deployment, now: int): (r: Deployment) { Apply(d, MarkSteps(Evidence(d.run, d.events), now)) }

  const HEARTBEAT_EVENT := Event("autopilotagent_heartbeat", "full_os")
  const JOIN_PENDING_EVENT := Event("domain_join_pending", "domain_join")
  const STEPS_PENDING_EVENT := Event("cloudosd_v2_waiting", "full_os")
  const GATE_EVENT := Event("cloudosd_v2_completion_gate_satisfied", "full_os")

  /** The heartbeat is put on record and said to be seen. */
  function Told(d: Deployment, at: int, hb: Beat): (r: Deployment) {
    Apply(Apply(d, Observe(at, hb)), Report(HEARTBEAT_EVENT))
  }

  /** One call that handles a heartbeat, run alone. */
  function Heartbeat(d: Deployment, at: int, now: int, hb: Beat): (r: Deployment) {
    if d.run.state == RunFailed then d
    else if Blocked(d.run.join, hb) then Sync(Apply(Told(d, at, hb), Report(JOIN_PENDING_EVENT)), now)
    else
      var synced := Sync(Told(d, at, hb), now);
      if Ready(synced) then Apply(Apply(synced, Finish(at, hb)), Report(GATE_EVENT))
      else Apply(synced, Report(STEPS_PENDING_EVENT))
  }

  lemma {:induction false} HasKeyInParts(a: seq<string>, b: seq<string>, key: string)
    ensures HasKey(a + b, key) <==> HasKey(a, key) || HasKey(b, key)
  {
    if a == [] {
      assert a + b == b;
    } else {
      HasKeySplit(a, key);
      HasKeySplit(a + b, key);
      assert (a + b)[1..] == a[1..] + b;
      HasKeyInParts(a[1..], b, key);
    }
  }

  /** A heartbeat holds a run up exactly when there is a domain to join and it does not show the guest joined to one of
      the names configured for it. */
  lemma BlockedMeans(c: JoinConfig, hb: Beat)
    ensures Blocked(c, hb) <==>
      && c.enabled
      && !(&& hb.joined && Strip(hb.domain) != ""
           && HasKey(c.acceptable + [Strip(c.fqdn), Strip(c.credentialDomain)], Lower(Strip(hb.domain))))
  {
    var names, key := [Strip(c.fqdn), Strip(c.credentialDomain)], KeyOf(hb.domain);
    if c.enabled {
      MatchMeaning(Sanitize(c), hb);
      StripTwice(c.fqdn);
      StripTwice(c.credentialDomain);
      UniqueKeepsKeys(c.acceptable + names, {}, key);
      HasKeyInParts(Unique(c.acceptable + names, {}), names, key);
      HasKeyInParts(c.acceptable, names, key);
    }
  }

  lemma NextTx(ds: seq<Deployment>, txs: seq<Tx>, tx: Tx)
    requires IsPath(ds, txs)
    requires tx.Finish? ==> !Blocked(ds[|txs|].run.join, tx.hb) && WasReady(ds[|txs|])
    ensures IsPath(ds + [Apply(ds[|txs|], tx)], txs + [tx])
  {
    var ds', txs' := ds + [Apply(ds[|txs|], tx)], txs + [tx];
    forall k | 0 <= k < |txs'| ensures IsTx(ds', txs', k) {
      if k < |txs| {
        assert IsTx(ds, txs, k);
        if txs[k].Finish? {
          var j :| 0 <= j <= k && WasReady(ds[j]);
          assert WasReady(ds'[j]);
        }
      } else {
        assert tx.Finish? ==> WasReady(ds'[k]);
      }
    }
  }

  /** It is made of transactions of the kind that interleave. */
  lemma HeartbeatIsTransactions(d: Deployment, at: int, now: int, hb: Beat) returns (txs: seq<Tx>, ds: seq<Deployment>)
    ensures IsPath(ds, txs) && ds[0] == d && ds[|txs|] == Heartbeat(d, at, now, hb)
  {
    txs, ds := [], [d];
    if d.run.state != RunFailed {
      txs, ds := Do(txs, ds, Observe(at, hb));
      txs, ds := Do(txs, ds, Report(HEARTBEAT_EVENT));
      var told := Told(d, at, hb);
      if Blocked(d.run.join, hb) {
        txs, ds := Do(txs, ds, Report(JOIN_PENDING_EVENT));
        var warned := Apply(told, Report(JOIN_PENDING_EVENT));
        txs, ds := Do(txs, ds, MarkSteps(Evidence(warned.run, warned.events), now));
      } else {
        txs, ds := Do(txs, ds, MarkSteps(Evidence(told.run, told.events), now));
        var synced := Sync(told, now);
        if Ready(synced) {
          SyncKeepsRun(told, now);
          ToldKeeps(d, at, hb);
          txs, ds := Do(txs, ds, Finish(at, hb));
          txs, ds := Do(txs, ds, Report(GATE_EVENT));
        } else {
          txs, ds := Do(txs, ds, Report(STEPS_PENDING_EVENT));
        }
      }
    }
  }

  lemma ToldKeeps(d: Deployment, at: int, hb: Beat)
    requires d.run.state != RunFailed
    ensures Told(d, at, hb).run.join == d.run.join && Told(d, at, hb).run.firstHeartbeatAt.Some?
  {
  }

  lemma Do(txs: seq<Tx>, ds: seq<Deployment>, tx: Tx) returns (txs': seq<Tx>, ds': seq<Deployment>)
    requires IsPath(ds, txs)
    requires tx.Finish? ==> !Blocked(ds[|txs|].run.join, tx.hb) && WasReady(ds[|txs|])
    ensures IsPath(ds', txs') && ds'[0] == ds[0] && ds'[|txs'|] == Apply(ds[|txs|], tx)
  {
    NextTx(ds, txs, tx);
    txs', ds' := txs + [tx], ds + [Apply(ds[|txs|], tx)];
  }

  /** What a heartbeat call writes to the log: that it was seen, then what holds the run up or that nothing does. */
  lemma HeartbeatEvents(d: Deployment, at: int, now: int, hb: Beat)
    requires d.run.state != RunFailed
    ensures var r := Heartbeat(d, at, now, hb);
      r.events == d.events + [
        Event("autopilotagent_heartbeat", "full_os"),
        if Blocked(d.run.join, hb) then Event("domain_join_pending", "domain_join")
        else if Ready(r) then Event("cloudosd_v2_completion_gate_satisfied", "full_os")
        else Event("cloudosd_v2_waiting", "full_os")]
  {
    var told := Told(d, at, hb);
    if Blocked(d.run.join, hb) {
      SyncKeepsRun(Apply(told, Report(JOIN_PENDING_EVENT)), now);
    } else {
      SyncKeepsRun(told, now);
      var r, synced := Heartbeat(d, at, now, hb), Sync(told, now);
      assert r.steps == synced.steps && r.run.join == synced.run.join;
      assert Ready(r) <==> Ready(synced);
    }
  }

  lemma {:induction false} StateAfterMark(steps: seq<Step>, kinds: set<Kind>, kind: Kind)
    ensures StateOf(MarkAll(steps, kinds), kind) ==
      match StateOf(steps, kind) { case None => None case Some(s) => Some(if kind in kinds then StepState.Done else s) }
  {
    if steps != [] {
      StateAfterMark(steps[..|steps| - 1], kinds, kind);
      assert MarkAll(steps, kinds)[..|steps| - 1] == MarkAll(steps[..|steps| - 1], kinds);
    }
  }

  lemma SyncKeepsRun(d: Deployment, now: int)
    ensures Sync(d, now).run == d.run && Sync(d, now).events == d.events
    ensures Sync(d, now).steps == MarkAll(d.steps, Evidence(d.run, d.events))
  {
    if Evidence(d.run, d.events) == {} { assert MarkAll(d.steps, {}) == d.steps; }
  }

  /** What a heartbeat cannot supply itself: the captured hash and, with a join to make, the verified membership. */
  predicate OnlyHeartbeatMissing(d: Deployment) {
    && StateOf(d.steps, HEARTBEAT).Some?
    && StateOf(d.steps, CAPTURE) == Some(StepState.Done)
    && (d.run.join.enabled ==> VerifiedOrSeen(d))
  }

  predicate VerifiedOrSeen(d: Deployment) {
    || StateOf(d.steps, VERIFY) == Some(StepState.Done)
    || (StateOf(d.steps, VERIFY).Some? && Saw(d.events, "domain_join_verified"))
  }

  /** A heartbeat completes a run that is not complete yet exactly when the domain is right, the plan has a
      heartbeat step, the hash is captured, and, with a join to make, membership is verified. */
  lemma HeartbeatCompletesIff(d: Deployment, at: int, now: int, hb: Beat)
    requires d.run.state != RunFailed
    ensures Heartbeat(d, at, now, hb).run.state == Complete <==>
      d.run.state == Complete || (!Blocked(d.run.join, hb) && OnlyHeartbeatMissing(d))
  {
    if Blocked(d.run.join, hb) {
      SyncKeepsRun(Apply(Told(d, at, hb), Report(JOIN_PENDING_EVENT)), now);
    } else {
      SyncKeepsRun(Told(d, at, hb), now);
      ReadyAfterHeartbeat(d, at, now, hb);
    }
  }

  lemma SawAppended(events: seq<Event>, e: Event, eventType: string)
    ensures Saw(events + [e], eventType) <==> Saw(events, eventType) || Lower(e.eventType) == eventType
  {
    if i :| 0 <= i < |events| && Lower(events[i].eventType) == eventType {
      assert (events + [e])[i] == events[i];
    }
    assert (events + [e])[|events|] == e;
  }

  lemma ReadyAfterHeartbeat(d: Deployment, at: int, now: int, hb: Beat)
    requires d.run.state != RunFailed
    ensures Ready(Sync(Told(d, at, hb), now)) <==> OnlyHeartbeatMissing(d)
  {
    var told := Told(d, at, hb);
    var kinds := Evidence(told.run, told.events);
    SyncKeepsRun(told, now);
    SawAppended(d.events, HEARTBEAT_EVENT, "domain_join_verified");
    assert Lower(HEARTBEAT_EVENT.eventType)[0] == 'a';
    HeartbeatEvidence(told);
    ToldKeeps(d, at, hb);
    ReadyAfterMark(d, kinds, Sync(told, now));
  }

  lemma ReadyAfterMark(d: Deployment, kinds: set<Kind>, r: Deployment)
    requires HEARTBEAT in kinds && CAPTURE !in kinds && (VERIFY in kinds <==> Saw(d.events, "domain_join_verified"))
    requires r.run.join == d.run.join && r.steps == MarkAll(d.steps, kinds)
    ensures Ready(r) <==> OnlyHeartbeatMissing(d)
  {
    StateAfterMark(d.steps, kinds, HEARTBEAT);
    StateAfterMark(d.steps, kinds, CAPTURE);
    StateAfterMark(d.steps, kinds, VERIFY);
    ReadyMeans(r);
  }

  lemma ReadyMeans(d: Deployment)
    ensures Ready(d) <==>
      && StateOf(d.steps, HEARTBEAT) == Some(StepState.Done)
      && StateOf(d.steps, CAPTURE) == Some(StepState.Done)
      && (d.run.join.enabled ==> StateOf(d.steps, VERIFY) == Some(StepState.Done))
  {
    assert HEARTBEAT in Required(d.run.join) && CAPTURE in Required(d.run.join);
    assert d.run.join.enabled ==> VERIFY in Required(d.run.join);
  }

  lemma HeartbeatEvidence(d: Deployment)
    requires d.run.firstHeartbeatAt.Some?
    ensures var kinds := Evidence(d.run, d.events);
      HEARTBEAT in kinds && CAPTURE !in kinds && (VERIFY in kinds <==> Saw(d.events, "domain_join_verified"))
  {
    assert CAPTURE[0] == 'c' && CAPTURE[1] == 'a' && VERIFY[0] == 'v';
    assert VERIFY !in PE_KINDS && CAPTURE !in PE_KINDS;
  }

  /** Whatever the rows said before a heartbeat that is let through, agents included: exactly when they agree after
      it. */
  lemma HeartbeatAgreesIff(d: Deployment, at: int, now: int, hb: Beat)
    requires d.run.state != RunFailed && !Blocked(d.run.join, hb)
    ensures var r := Heartbeat(d, at, now, hb);
      Agree(r) <==>
        if d.run.state == Complete then d.engine.state == EngineDone || OnlyHeartbeatMissing(d) || NoneRemain(r.steps)
        else r.run.state == Complete || (d.engine.state != EngineDone && !NoneRemain(r.steps))
  {
    var told := Told(d, at, hb);
    ToldKeeps(d, at, hb);
    HeartbeatEvidence(told);
    ReadyAfterHeartbeat(d, at, now, hb);
    AgreementExactly(d, Observe(at, hb));
  }

  /** Reading the same evidence again changes nothing. */
  lemma SyncTwice(d: Deployment, now: int, later: int)
    ensures Sync(Sync(d, now), later) == Sync(d, now)
  {
    var kinds := Evidence(d.run, d.events);
    SyncKeepsRun(d, now);
    assert MarkAll(MarkAll(d.steps, kinds), kinds) == MarkAll(d.steps, kinds);
  }

  // ---------------------------------------------------------------- no step left

  lemma {:induction false} StateOfFound(steps: seq<Step>, i: nat)
    requires i < |steps| && NoneRemain(steps)
    ensures StateOf(steps, steps[i].kind) == Some(StepState.Done) || StateOf(steps, steps[i].kind) == Some(Skipped)
  {
    var last := |steps| - 1;
    assert !Remains(steps[last]);
    if steps[last].kind != steps[i].kind {
      assert steps[..last][i] == steps[i];
      StateOfFound(steps[..last], i);
    }
  }

  /** Where a required kind stands in the plan. */
  function PlaceOf(join: JoinConfig, joinsInFullOs: bool, kind: Kind): (i: nat)
    requires kind in Required(join)
    ensures i < |PlanKinds(join, joinsInFullOs)| && PlanKinds(join, joinsInFullOs)[i] == kind
  {
    var n := |PlanKinds(join, joinsInFullOs)|;
    if kind == CAPTURE then n - 1
    else if kind == HEARTBEAT then (if join.enabled && !joinsInFullOs then 6 else 5)
    else n - 2
  }

  lemma RequiredIsPlanned(join: JoinConfig, joinsInFullOs: bool, ds: seq<Deployment>, txs: seq<Tx>, k: nat, kind: Kind)
    requires IsRun(join, joinsInFullOs, ds, txs) && k < |ds| && NoneRemain(ds[k].steps) && kind in Required(join)
    ensures StateOf(ds[k].steps, kind) == Some(StepState.Done) || StateOf(ds[k].steps, kind) == Some(Skipped)
    ensures ds[k].run.join == join
  {
    TimesNeverChange(ds, txs, 0, k);
    var i := PlaceOf(join, joinsInFullOs, kind);
    assert ds[k].steps[i].kind == ds[0].steps[i].kind == kind;
    StateOfFound(ds[k].steps, i);
  }

  /** In every reachable state in which no step is left, the required ones are done exactly when none of them was
      skipped. */
  lemma NoneRemainIsReadyIff(join: JoinConfig, joinsInFullOs: bool, ds: seq<Deployment>, txs: seq<Tx>, k: nat)
    requires IsRun(join, joinsInFullOs, ds, txs) && k < |ds| && NoneRemain(ds[k].steps)
    ensures Ready(ds[k]) <==> forall kind :: kind in Required(join) ==> StateOf(ds[k].steps, kind) != Some(Skipped)
  {
    RequiredIsPlanned(join, joinsInFullOs, ds, txs, k, CAPTURE);
    forall kind | kind in Required(join)
      ensures StateOf(ds[k].steps, kind) == Some(StepState.Done) || StateOf(ds[k].steps, kind) == Some(Skipped)
    {
      RequiredIsPlanned(join, joinsInFullOs, ds, txs, k, kind);
    }
  }

  /** Neither the hash capture nor, with a join to make, the verification was skipped, or the latter has been seen. */
  predicate NothingSkipped(d: Deployment) {
    && StateOf(d.steps, CAPTURE) != Some(Skipped)
    && (d.run.join.enabled ==> StateOf(d.steps, VERIFY) != Some(Skipped) || Saw(d.events, "domain_join_verified"))
  }

  /** A run whose engine row is ahead, no step being left, is completed, and its rows made to agree, by the next
      heartbeat that is let through, exactly when nothing it needs was skipped. */
  lemma NextHeartbeatSettlesIff(join: JoinConfig, joinsInFullOs: bool, ds: seq<Deployment>, txs: seq<Tx>, k: nat,
                                at: int, now: int, hb: Beat)
    requires IsRun(join, joinsInFullOs, ds, txs) && k < |ds| && EngineAhead(ds[k]) && !Blocked(ds[k].run.join, hb)
    ensures var r := Heartbeat(ds[k], at, now, hb);
      && (r.run.state == Complete <==> NothingSkipped(ds[k]))
      && (Agree(r) <==> NothingSkipped(ds[k]))
  {
    var d := ds[k];
    RequiredIsPlanned(join, joinsInFullOs, ds, txs, k, CAPTURE);
    RequiredIsPlanned(join, joinsInFullOs, ds, txs, k, HEARTBEAT);
    if join.enabled { RequiredIsPlanned(join, joinsInFullOs, ds, txs, k, VERIFY); }
    HeartbeatCompletesIff(d, at, now, hb);
    HeartbeatAgreesIff(d, at, now, hb);
  }

  // ---------------------------------------------------------------- what agents can do to it

  /** Everything but the last step is marked, and the last is reported skipped. */
  lemma SkipLast(d: Deployment, kinds: set<Kind>, last: nat)
    requires last == |d.steps| - 1 && d.steps[last].kind == CAPTURE && CAPTURE !in kinds && kinds != {}
    requires forall i :: 0 <= i < last ==> d.steps[i].kind in kinds
    requires !Terminal(d.run.state)
    ensures var r := Apply(Apply(d, MarkSteps(kinds, 0)), AgentReports(last, SkippedResult, 0));
      r.run == d.run && EngineAhead(r) && StateOf(r.steps, CAPTURE) == Some(Skipped)
  {
    var m := Apply(d, MarkSteps(kinds, 0));
    assert forall j :: 0 <= j < last ==> m.steps[j].state == StepState.Done;
    assert NextState(m.steps, last) == EngineDone;
  }

  /** A hash capture reported skipped leaves the engine row ahead for good: no heartbeat completes the run. */
  lemma SkippedCaptureSticks(join: JoinConfig, at: int, now: int, hb: Beat) returns (txs: seq<Tx>, ds: seq<Deployment>)
    requires !join.enabled
    ensures IsRun(join, false, ds, txs) && EngineAhead(ds[|txs|]) && !Blocked(ds[|txs|].run.join, hb)
    ensures var r := Heartbeat(ds[|txs|], at, now, hb); r.run.state != Complete && !Agree(r)
  {
    var d0 := Start(join, false);
    var kinds := PE_KINDS + {HEARTBEAT};
    assert CAPTURE !in kinds by { assert CAPTURE[1] == 'a' && HEARTBEAT[0] == 'w'; }
    assert HEARTBEAT in kinds;
    SkipLast(d0, kinds, 6);
    txs, ds := [], [d0];
    txs, ds := Do(txs, ds, MarkSteps(kinds, 0));
    txs, ds := Do(txs, ds, AgentReports(6, SkippedResult, 0));
    NextHeartbeatSettlesIff(join, false, ds, txs, |txs|, at, now, hb);
  }

  /** A late failure takes a step back whatever its state. */
  lemma LateFailure(d: Deployment, last: nat)
    requires last == |d.steps| - 1 && d.steps[last].kind == CAPTURE && d.steps[last].state != AwaitingReboot
    requires !d.steps[last].continues && d.run.state == Complete
    ensures var r := Apply(d, AgentReports(last, FailedResult, 0)); r.run == d.run && !Ready(r) && !Agree(r)
  {
    var r := Apply(d, AgentReports(last, FailedResult, 0));
    assert StateOf(r.steps, CAPTURE) == Some(r.steps[last].state);
    assert CAPTURE in Required(r.run.join);
  }

  lemma MarkedIsReady(join: JoinConfig, at: int, hb: Beat)
    requires !join.enabled
    ensures var r := Apply(Apply(Start(join, false), MarkSteps({HEARTBEAT, CAPTURE}, 0)), Observe(at, hb));
      WasReady(r) && r.run.join == join && r.steps == MarkAll(Start(join, false).steps, {HEARTBEAT, CAPTURE})
  {
    var steps := Start(join, false).steps;
    StateAfterMark(steps, {HEARTBEAT, CAPTURE}, CAPTURE);
    StateAfterMark(steps, {HEARTBEAT, CAPTURE}, HEARTBEAT);
    assert steps[..6][5] == steps[5];
    ReadyMeans(Apply(Apply(Start(join, false), MarkSteps({HEARTBEAT, CAPTURE}, 0)), Observe(at, hb)));
  }

  /** A late failure reported for the hash capture of a complete run takes the step back, and the run stays complete. */
  lemma CompleteRunCanLoseAStep(join: JoinConfig, hb: Beat) returns (txs: seq<Tx>, ds: seq<Deployment>)
    requires !join.enabled
    ensures IsRun(join, false, ds, txs) && ds[|txs|].run.state == Complete && !Ready(ds[|txs|]) && !Agree(ds[|txs|])
  {
    MarkedIsReady(join, 0, hb);
    txs, ds := [], [Start(join, false)];
    txs, ds := Do(txs, ds, MarkSteps({HEARTBEAT, CAPTURE}, 0));
    txs, ds := Do(txs, ds, Observe(0, hb));
    txs, ds := Do(txs, ds, Finish(0, hb));
    LateFailure(ds[|txs|], 6);
    txs, ds := Do(txs, ds, AgentReports(6, FailedResult, 0));
  }
}
