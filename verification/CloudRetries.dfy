/** How often a step is tried: the attempt count of a step over a whole run, and when a failure is final. */
module CloudRetries {
  import opened Prelude
  import opened DomainMatch
  import opened CloudRun

  /** A failure reported for a step that is not waiting for a reboot sends it back, with the engine running its phase,
      exactly while its attempts do not exceed its retries; then it is final. */
  lemma FailureRule(d: Deployment, i: nat, now: int)
    requires i < |d.steps| && d.steps[i].state != AwaitingReboot
    ensures var r, s := Apply(d, AgentReports(i, FailedResult, now)), d.steps[i];
      && r.steps == d.steps[i := s.(state := r.steps[i].state)] && r.run == d.run && r.events == d.events
      && (r.steps[i].state == Pending <==> s.attempt <= s.retries)
      && (r.steps[i].state == StepFailed <==> s.attempt > s.retries)
      && (s.attempt <= s.retries ==> r.engine == Engine(EngineRunning(s.phase), d.engine.finishedAt))
      && (s.attempt > s.retries && !s.continues ==> r.engine == Engine(EngineFailed, Some(now)))
  {
  }

  /** An agent is handed a step exactly when it is pending, in the agent's phase or any, and the engine has not
      finished; that counts as one more attempt. */
  lemma HandedOutIff(d: Deployment, i: nat, phase: string)
    ensures var r := Apply(d, AgentClaims(i, phase));
      && (r != d <==>
            && i < |d.steps| && d.steps[i].state == Pending && (d.steps[i].phase == phase || d.steps[i].phase == "any")
            && d.engine.state != EngineDone && d.engine.state != EngineFailed)
      && (r != d ==>
            && r.steps == d.steps[i := d.steps[i].(state := Running, attempt := d.steps[i].attempt + 1)]
            && r.engine == Engine(EngineRunning(phase), d.engine.finishedAt) && r.run == d.run && r.events == d.events)
  {
    if Claimable(d, i, phase) { assert Apply(d, AgentClaims(i, phase)).steps[i].attempt != d.steps[i].attempt; }
  }

  /** What a run never changes of a step's terms. */
  predicate SameTerms(a: Step, b: Step) {
    a.kind == b.kind && a.phase == b.phase && a.retries == b.retries && a.continues == b.continues && a.reboots == b.reboots
  }

  predicate AllSameTerms(a: seq<Step>, b: seq<Step>) {
    |a| == |b| && forall i :: 0 <= i < |a| ==> SameTerms(a[i], b[i])
  }

  lemma {:induction false} TermsNeverChange(ds: seq<Deployment>, txs: seq<Tx>, k: nat)
    requires IsPath(ds, txs) && k < |ds|
    ensures AllSameTerms(ds[0].steps, ds[k].steps)
  {
    if k > 0 {
      TermsNeverChange(ds, txs, k - 1);
      assert IsTx(ds, txs, k - 1);
      TxKeepsTerms(ds[k - 1], txs[k - 1]);
    }
  }

  lemma TxKeepsTerms(d: Deployment, tx: Tx)
    ensures AllSameTerms(d.steps, Apply(d, tx).steps)
  {
  }

  /** Step `i` is handed to an agent. */
  predicate HandsOut(ds: seq<Deployment>, txs: seq<Tx>, k: nat, i: nat)
    requires |ds| == |txs| + 1 && k < |txs|
  {
    && txs[k].AgentClaims? && txs[k].i == i && i < |ds[k].steps| && i < |ds[k + 1].steps|
    && ds[k].steps[i].state == Pending && ds[k + 1].steps[i].state == Running
  }

  /** Step `i` is sent back by an operator. */
  predicate SendsBack(ds: seq<Deployment>, txs: seq<Tx>, k: nat, i: nat)
    requires |ds| == |txs| + 1 && k < |txs|
  {
    txs[k] == Requeue(i) && i < |ds[k].steps| && ds[k].steps[i].state == StepFailed
  }

  /** How often step `i` was handed out by moment `k`, since it was last sent back or else since the start. */
  function Handouts(ds: seq<Deployment>, txs: seq<Tx>, k: nat, i: nat): (n: nat)
    requires |ds| == |txs| + 1 && k < |ds|
  {
    if k == 0 then 0
    else if HandsOut(ds, txs, k - 1, i) then Handouts(ds, txs, k - 1, i) + 1
    else if SendsBack(ds, txs, k - 1, i) then 0
    else Handouts(ds, txs, k - 1, i)
  }

  lemma AttemptOverTx(ds: seq<Deployment>, txs: seq<Tx>, k: nat, i: nat)
    requires |ds| == |txs| + 1 && k < |txs| && IsTx(ds, txs, k) && i < |ds[k].steps|
    ensures i < |ds[k + 1].steps|
    ensures ds[k + 1].steps[i].attempt ==
      if HandsOut(ds, txs, k, i) then ds[k].steps[i].attempt + 1
      else if SendsBack(ds, txs, k, i) then 0
      else ds[k].steps[i].attempt
    ensures ds[k].steps[i].state != StepFailed && ds[k + 1].steps[i].state == StepFailed ==>
      ds[k].steps[i].attempt > ds[k].steps[i].retries
    ensures ds[k].steps[i].state == StepFailed && ds[k + 1].steps[i].state == StepFailed ==>
      !HandsOut(ds, txs, k, i) && !SendsBack(ds, txs, k, i)
  {
  }

  /** The attempt count stored with a step is the number of times it was handed out. */
  lemma {:induction false} AttemptCountsHandouts(join: JoinConfig, joinsInFullOs: bool, ds: seq<Deployment>, txs: seq<Tx>, k: nat, i: nat)
    requires IsRun(join, joinsInFullOs, ds, txs) && k < |ds| && i < |ds[0].steps|
    ensures i < |ds[k].steps| && ds[k].steps[i].attempt == Handouts(ds, txs, k, i)
  {
    TermsNeverChange(ds, txs, k);
    if k > 0 {
      AttemptCountsHandouts(join, joinsInFullOs, ds, txs, k - 1, i);
      assert IsTx(ds, txs, k - 1);
      AttemptOverTx(ds, txs, k - 1, i);
    }
  }

  /** How many retries the plan gives a step. */
  lemma RetriesOf(join: JoinConfig, joinsInFullOs: bool, ds: seq<Deployment>, txs: seq<Tx>, k: nat, i: nat)
    requires IsRun(join, joinsInFullOs, ds, txs) && k < |ds| && i < |ds[0].steps|
    ensures i < |ds[k].steps|
    ensures ds[k].steps[i].retries ==
      if ds[k].steps[i].kind == "verify_ad_domain_join" then 60
      else if ds[k].steps[i].kind == "capture_autopilot_hash" then 2
      else 0
  {
    TermsNeverChange(ds, txs, k);
    assert SameTerms(ds[0].steps[i], ds[k].steps[i]);
  }

  /** A step that stands failed was handed out more often than its retries since it was last sent back: more than 60
      times for the verification, more than twice for the capture, at least once otherwise. */
  lemma {:induction false} FailedMeansSpent(join: JoinConfig, joinsInFullOs: bool, ds: seq<Deployment>, txs: seq<Tx>, k: nat, i: nat)
    requires IsRun(join, joinsInFullOs, ds, txs) && k < |ds| && i < |ds[0].steps|
    requires i < |ds[k].steps| && ds[k].steps[i].state == StepFailed
    ensures Handouts(ds, txs, k, i) > ds[k].steps[i].retries
    ensures Handouts(ds, txs, k, i) >
      if ds[k].steps[i].kind == "verify_ad_domain_join" then 60
      else if ds[k].steps[i].kind == "capture_autopilot_hash" then 2
      else 0
  {
    RetriesOf(join, joinsInFullOs, ds, txs, k, i);
    assert k > 0;
    assert IsTx(ds, txs, k - 1);
    AttemptCountsHandouts(join, joinsInFullOs, ds, txs, k - 1, i);
    AttemptCountsHandouts(join, joinsInFullOs, ds, txs, k, i);
    AttemptOverTx(ds, txs, k - 1, i);
    TxKeepsTerms(ds[k - 1], txs[k - 1]);
    assert SameTerms(ds[k - 1].steps[i], ds[k].steps[i]);
    if ds[k - 1].steps[i].state == StepFailed { FailedMeansSpent(join, joinsInFullOs, ds, txs, k - 1, i); }
  }

  /** In any run a step becomes failed exactly when a failure is reported for it, it is not waiting for a reboot, and it
      was handed out more often than it may be retried. */
  lemma FailsIffSpent(join: JoinConfig, joinsInFullOs: bool, ds: seq<Deployment>, txs: seq<Tx>, k: nat, i: nat)
    requires IsRun(join, joinsInFullOs, ds, txs) && k < |txs| && i < |ds[0].steps|
    requires i < |ds[k].steps| && ds[k].steps[i].state != StepFailed
    ensures i < |ds[k + 1].steps|
    ensures ds[k + 1].steps[i].state == StepFailed <==>
      && txs[k].AgentReports? && txs[k].i == i && txs[k].result == FailedResult && ds[k].steps[i].state != AwaitingReboot
      && Handouts(ds, txs, k, i) > (if ds[k].steps[i].kind == "verify_ad_domain_join" then 60
                                    else if ds[k].steps[i].kind == "capture_autopilot_hash" then 2 else 0)
  {
    RetriesOf(join, joinsInFullOs, ds, txs, k, i);
    AttemptCountsHandouts(join, joinsInFullOs, ds, txs, k, i);
    assert IsTx(ds, txs, k);
    BecomesFailed(ds[k], txs[k], i);
  }

  lemma BecomesFailed(d: Deployment, tx: Tx, i: nat)
    requires i < |d.steps| && d.steps[i].state != StepFailed
    ensures i < |Apply(d, tx).steps|
    ensures Apply(d, tx).steps[i].state == StepFailed <==>
      && tx.AgentReports? && tx.i == i && tx.result == FailedResult && d.steps[i].state != AwaitingReboot
      && d.steps[i].attempt > d.steps[i].retries
  {
  }
}
