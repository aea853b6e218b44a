/** One cloud deployment: its run row, the engine's run row and plan steps, and the transactions that move them.
    Transactions of different callers interleave freely. */
module CloudRun {
  import opened Prelude
  import opened Text
  import opened DomainMatch

  datatype RunState = Created | AwaitingPe | PeRegistered | WaitingForJoin | WaitingForSteps | Complete | RunFailed
  datatype EngineState =
    | EngineCreated | EngineAwaitingPe | EnginePeRegistered | EngineWaitingForJoin | EngineWaitingForSteps
    | EngineQueued | EngineRunning(phase: string) | EngineAwaitingReboot     // written for agents
    | EngineDone | EngineFailed
  datatype StepState = Pending | Running | AwaitingReboot | Done | StepFailed | Skipped

  /** Names of step kinds are never empty. */
  type Kind = k: string | k != "" witness "k"

  datatype Step = Step(kind: Kind, phase: string, state: StepState, attempt: nat, retries: nat, continues: bool, reboots: bool)
  datatype Event = Event(eventType: string, phase: string)

  datatype Run = Run(
    state: RunState, join: JoinConfig,
    peRegisteredAt: Option<int>, osFinishedAt: Option<int>, firstHeartbeatAt: Option<int>)

  datatype Engine = Engine(state: EngineState, finishedAt: Option<int>)

  datatype Deployment = Deployment(run: Run, engine: Engine, steps: seq<Step>, events: seq<Event>)

  // ---------------------------------------------------------------- plan and completion

  const CAPTURE := "capture_autopilot_hash"
  const HEARTBEAT := "wait_agent_heartbeat"
  const VERIFY := "verify_ad_domain_join"

  const PE_KINDS: set<Kind> := {
    "cloudosd_preflight", "cloudosd_deploy_os", "cloudosd_validate_offline_os",
    "stage_ad_domain_join_unattend", "stage_osd_client", "stage_autopilot_agent"}

  function PlanKinds(join: JoinConfig, joinsInFullOs: bool): (kinds: seq<Kind>) {
    ["cloudosd_preflight", "cloudosd_deploy_os"]
    + (if join.enabled && !joinsInFullOs then ["stage_ad_domain_join_unattend"] else [])
    + ["cloudosd_validate_offline_os", "stage_osd_client", "stage_autopilot_agent", HEARTBEAT]
    + (if join.enabled then (if joinsInFullOs then ["join_domain_role"] else []) + [VERIFY] else [])
    + [CAPTURE]
  }

  function Fresh(kind: Kind): (s: Step) {
    Step(kind, if kind in PE_KINDS then "pe" else "full_os", Pending, 0,
         if kind == VERIFY then 60 else if kind == CAPTURE then 2 else 0, false, kind == "join_domain_role")
  }

  function Start(join: JoinConfig, joinsInFullOs: bool): (d: Deployment) {
    var kinds := PlanKinds(join, joinsInFullOs);
    Deployment(
      Run(Created, join, None, None, None), Engine(EngineCreated, None),
      seq(|kinds|, i requires 0 <= i < |kinds| => Fresh(kinds[i])), [])
  }

  function Required(join: JoinConfig): (kinds: set<Kind>) {
    {CAPTURE, HEARTBEAT} + (if join.enabled then {VERIFY} else {})
  }

  /** The state kept for a kind: of several steps of a kind, the last one's. */
  function StateOf(steps: seq<Step>, kind: Kind): (s: Option<StepState>) {
    if steps == [] then None
    else if steps[|steps| - 1].kind == kind then Some(steps[|steps| - 1].state)
    else StateOf(steps[..|steps| - 1], kind)
  }

  predicate Ready(d: Deployment) {
    forall kind :: kind in Required(d.run.join) ==> StateOf(d.steps, kind) == Some(StepState.Done)
  }

  predicate Remains(s: Step) { s.state == Pending || s.state == Running || s.state == AwaitingReboot || s.state == StepFailed }

  predicate NoneRemain(steps: seq<Step>) { forall i :: 0 <= i < |steps| ==> !Remains(steps[i]) }

  function Mark(s: Step, kinds: set<Kind>): (r: Step) {
    if s.kind in kinds then s.(state := StepState.Done) else s
  }

  function MarkAll(steps: seq<Step>, kinds: set<Kind>): (r: seq<Step>) {
    seq(|steps|, i requires 0 <= i < |steps| => Mark(steps[i], kinds))
  }

  // ---------------------------------------------------------------- evidence

  predicate Saw(events: seq<Event>, eventType: string) {
    exists i :: 0 <= i < |events| && Lower(events[i].eventType) == eventType
  }

  predicate SawPhase(events: seq<Event>, phase: string) {
    exists i :: 0 <= i < |events| && Lower(events[i].phase) == phase
  }

  /** The step kinds that the run row and the events show to be done. */
  function Evidence(run: Run, events: seq<Event>): (kinds: set<Kind>) {
    (if run.peRegisteredAt.Some? || Saw(events, "pe_registered") || Saw(events, "osdcloud_start")
     then {"cloudosd_preflight"} else {})
    + (if Saw(events, "offline_validation_ok") || SawPhase(events, "offline validation") || SawPhase(events, "offline_validation")
       then {"cloudosd_deploy_os", "cloudosd_validate_offline_os"} else {})
    + (if run.osFinishedAt.Some? || Saw(events, "cloudosd_pe_complete") then PE_KINDS else {})
    + (if run.firstHeartbeatAt.Some? || run.state == Complete || Saw(events, "autopilotagent_heartbeat")
          || Saw(events, "autopilotagent_heartbeat_visible") || Saw(events, "firstboot_complete")
       then PE_KINDS + {HEARTBEAT} else {})
    + (if Saw(events, "domain_join_verified") then {VERIFY} else {})
  }

  // ---------------------------------------------------------------- transactions

  /** What an agent says of a step. */
  datatype Result = Success | SkippedResult | RebootRequired | FailedResult

  datatype Tx =
    | SetIdentity
    | RegisterPe(now: int)
    | FinishOs(now: int)
    | Observe(at: int, hb: Beat)            // a heartbeat is seen
    | Finish(at: int, hb: Beat)             // and, later in the same call, the run is completed
    | Report(event: Event)
    | MarkSteps(kinds: set<Kind>, now: int)
    | Fail(now: int)
    | AgentClaims(i: nat, phase: string)
    | AgentReports(i: nat, result: Result, now: int)
    | AgentRebooted(i: nat, now: int)
    | Requeue(i: nat)                       // an operator retries a failed step
    | Reopen                                // and, later in the same call, the run waits again

  predicate Blocked(join: JoinConfig, hb: Beat) { Sanitize(join).enabled && !Verify(Sanitize(join), hb).0 }

  function Observed(d: Deployment, at: int, waiting: RunState, engineWaiting: EngineState): (r: Deployment) {
    if d.run.state == RunFailed then d
    else d.(run := d.run.(state := if d.run.state == Complete then Complete else waiting,
                          firstHeartbeatAt := d.run.firstHeartbeatAt.Else(Some(at))),
            engine := d.engine.(state := if d.engine.state == EngineDone then EngineDone else engineWaiting))
  }

  function Marked(d: Deployment, kinds: set<Kind>, now: int): (r: Deployment) {
    var steps := MarkAll(d.steps, kinds);
    d.(steps := steps,
       engine := if NoneRemain(steps) && d.engine.state != EngineFailed
                 then Engine(EngineDone, d.engine.finishedAt.Else(Some(now))) else d.engine)
  }

  predicate Claimable(d: Deployment, i: nat, phase: string) {
    && d.engine.state != EngineDone && d.engine.state != EngineFailed
    && i < |d.steps| && d.steps[i].state == Pending && (d.steps[i].phase == phase || d.steps[i].phase == "any")
  }

  /** The engine's state once step `i` needs nothing more; failed steps do not count as left. */
  function NextState(steps: seq<Step>, i: nat): (e: EngineState) {
    if exists j :: 0 <= j < |steps| && j != i && Remains(steps[j]) && steps[j].state != StepFailed then EngineQueued else EngineDone
  }

  function Settled(d: Deployment, i: nat, step: Step, state: EngineState, now: int): (r: Deployment)
    requires i < |d.steps|
  {
    d.(steps := d.steps[i := step],
       engine := Engine(state, if state == EngineDone || state == EngineFailed then Some(now) else d.engine.finishedAt))
  }

  /** The step's state after a result, whatever it was before: only a late failure of a rebooting step is ignored. */
  function StepAfter(s: Step, result: Result): (r: StepState) {
    match result
    case Success => if s.reboots then AwaitingReboot else StepState.Done
    case SkippedResult => Skipped
    case RebootRequired => AwaitingReboot
    case FailedResult => if s.state == AwaitingReboot then AwaitingReboot else if s.attempt <= s.retries then Pending else StepFailed
  }

  function EngineAfter(d: Deployment, i: nat, result: Result): (e: EngineState)
    requires i < |d.steps|
  {
    match StepAfter(d.steps[i], result)
    case AwaitingReboot => EngineAwaitingReboot
    case Pending => EngineRunning(d.steps[i].phase)
    case StepFailed => if d.steps[i].continues then NextState(d.steps, i) else EngineFailed
    case _ => NextState(d.steps, i)
  }

  predicate Ignored(d: Deployment, i: nat, result: Result) {
    i >= |d.steps| || (result == FailedResult && d.steps[i].state == AwaitingReboot)
  }

  function Apply(d: Deployment, tx: Tx): (r: Deployment) {
    match tx
    case SetIdentity => d.(run := d.run.(state := AwaitingPe), engine := d.engine.(state := EngineAwaitingPe))
    case RegisterPe(now) =>
      d.(run := d.run.(state := PeRegistered, peRegisteredAt := d.run.peRegisteredAt.Else(Some(now))),
         engine := d.engine.(state := EnginePeRegistered))
    case FinishOs(now) => d.(run := d.run.(osFinishedAt := d.run.osFinishedAt.Else(Some(now))))
    case Observe(at, hb) =>
      if Blocked(d.run.join, hb) then Observed(d, at, WaitingForJoin, EngineWaitingForJoin)
      else Observed(d, at, WaitingForSteps, EngineWaitingForSteps)
    case Finish(at, hb) =>
      if d.run.state == RunFailed then d
      else d.(run := d.run.(state := Complete), engine := Engine(EngineDone, d.engine.finishedAt.Else(Some(at))))
    case Report(e) => d.(events := d.events + [e])
    case MarkSteps(kinds, now) => if kinds == {} then d else Marked(d, kinds, now)
    case Fail(now) =>
      if d.run.state == Complete then d
      else d.(run := d.run.(state := RunFailed), engine := Engine(EngineFailed, d.engine.finishedAt.Else(Some(now))))
    case AgentClaims(i, phase) =>
      if !Claimable(d, i, phase) then d
      else d.(steps := d.steps[i := d.steps[i].(state := Running, attempt := d.steps[i].attempt + 1)],
              engine := d.engine.(state := EngineRunning(phase)))
    case AgentReports(i, result, now) =>
      if Ignored(d, i, result) then d
      else Settled(d, i, d.steps[i].(state := StepAfter(d.steps[i], result)), EngineAfter(d, i, result), now)
    case AgentRebooted(i, now) =>
      if i >= |d.steps| || d.steps[i].state != AwaitingReboot then d
      else Settled(d, i, d.steps[i].(state := StepState.Done), NextState(d.steps, i), now)
    case Requeue(i) =>
      if i >= |d.steps| || d.steps[i].state != StepFailed then d
      else d.(steps := d.steps[i := d.steps[i].(state := Pending, attempt := 0)],
              engine := Engine(EngineRunning(d.steps[i].phase), None))
    case Reopen => if d.run.state == Complete then d else d.(run := d.run.(state := WaitingForSteps))
  }

  // ---------------------------------------------------------------- runs

  /** A call completes a run only after its heartbeat was seen and let through, and after it has found the
      required steps done, at some moment before. */
  ghost predicate MayFinish(ds: seq<Deployment>, k: nat, hb: Beat)
    requires k < |ds|
  {
    !Blocked(ds[k].run.join, hb) && exists j :: 0 <= j <= k && WasReady(ds[j])
  }

  predicate WasReady(d: Deployment) { Ready(d) && d.run.firstHeartbeatAt.Some? }

  ghost predicate IsTx(ds: seq<Deployment>, txs: seq<Tx>, k: nat)
    requires k < |txs| && |ds| == |txs| + 1
  {
    ds[k + 1] == Apply(ds[k], txs[k]) && (txs[k].Finish? ==> MayFinish(ds, k, txs[k].hb))
  }

  ghost predicate IsRun(join: JoinConfig, joinsInFullOs: bool, ds: seq<Deployment>, txs: seq<Tx>) {
    IsPath(ds, txs) && ds[0] == Start(join, joinsInFullOs)
  }

  ghost predicate IsPath(ds: seq<Deployment>, txs: seq<Tx>) {
    |ds| == |txs| + 1 && forall k :: 0 <= k < |txs| ==> IsTx(ds, txs, k)
  }

  // ---------------------------------------------------------------- agreement

  function EngineOf(s: RunState): (e: EngineState) {
    match s
    case Created => EngineCreated
    case AwaitingPe => EngineAwaitingPe
    case PeRegistered => EnginePeRegistered
    case WaitingForJoin => EngineWaitingForJoin
    case WaitingForSteps => EngineWaitingForSteps
    case Complete => EngineDone
    case RunFailed => EngineFailed
  }

  predicate Agree(d: Deployment) { d.engine.state == EngineOf(d.run.state) }

  predicate Terminal(s: RunState) { s == Complete || s == RunFailed }

  /** The engine counts the run as done, no step being left, before the run itself is complete. */
  predicate EngineAhead(d: Deployment) {
    d.engine.state == EngineDone && !Terminal(d.run.state) && NoneRemain(d.steps)
  }

  /** Written for or by an agent, or by an operator who sends a step back to one. */
  predicate ForAgents(tx: Tx) { tx.AgentClaims? || tx.AgentReports? || tx.AgentRebooted? || tx.Requeue? || tx.Reopen? }

  /** Whether the rows agree after a transaction, told from what they were before it. */
  predicate AgreesAfter(d: Deployment, tx: Tx) {
    match tx
    case SetIdentity => true
    case RegisterPe(_) => true
    case FinishOs(_) => Agree(d)
    case Report(_) => Agree(d)
    case Observe(_, _) => if d.run.state == RunFailed then Agree(d) else d.run.state == Complete <==> d.engine.state == EngineDone
    case Finish(_, _) => d.run.state == RunFailed ==> Agree(d)
    case Fail(_) => d.run.state == Complete ==> Agree(d)
    case MarkSteps(kinds, _) =>
      if kinds == {} || d.engine.state == EngineFailed || !NoneRemain(MarkAll(d.steps, kinds)) then Agree(d)
      else d.run.state == Complete
    case AgentClaims(i, phase) => Agree(d) && !Claimable(d, i, phase)
    case AgentReports(i, result, _) =>
      if Ignored(d, i, result) then Agree(d) else Terminal(d.run.state) && EngineAfter(d, i, result) == EngineOf(d.run.state)
    case AgentRebooted(i, _) =>
      if i >= |d.steps| || d.steps[i].state != AwaitingReboot then Agree(d)
      else d.run.state == Complete && NextState(d.steps, i) == EngineDone
    case Requeue(i) => Agree(d) && (i >= |d.steps| || d.steps[i].state != StepFailed)
    case Reopen => if d.run.state == Complete then Agree(d) else d.engine.state == EngineWaitingForSteps
  }

  /** From every state, whatever wrote it: exactly when a transaction leaves the rows agreeing. A new identity and a
      registration always do, completion and failure do unless the other of the two stands, and a heartbeat does
      when the run is complete just when the engine is done. */
  lemma AgreementExactly(d: Deployment, tx: Tx)
    ensures Agree(Apply(d, tx)) <==> AgreesAfter(d, tx)
  {
    match tx
    case AgentReports(i, result, now) => ReportAgrees(d, i, result, now);
    case AgentRebooted(i, now) => RebootAgrees(d, i, now);
    case _ =>
  }

  lemma ReportAgrees(d: Deployment, i: nat, result: Result, now: int)
    ensures Agree(Apply(d, AgentReports(i, result, now))) <==> AgreesAfter(d, AgentReports(i, result, now))
  {
  }

  lemma RebootAgrees(d: Deployment, i: nat, now: int)
    ensures Agree(Apply(d, AgentRebooted(i, now))) <==> AgreesAfter(d, AgentRebooted(i, now))
  {
  }

  /** The controller's own transactions keep agreement, or the one way they can miss it. */
  lemma TxKeepsAgreement(d: Deployment, tx: Tx)
    requires (Agree(d) || EngineAhead(d)) && !ForAgents(tx)
    ensures var r := Apply(d, tx); Agree(r) || EngineAhead(r)
  {
    match tx
    case MarkSteps(kinds, now) => MarkKeepsAgreement(d, kinds, now);
    case _ => AgreementExactly(d, tx);
  }

  lemma MarkKeepsAgreement(d: Deployment, kinds: set<Kind>, now: int)
    requires Agree(d) || EngineAhead(d)
    ensures Agree(Marked(d, kinds, now)) || EngineAhead(Marked(d, kinds, now))
  {
  }

  /** From any moment at which the rows agree, and whatever interleaves, they go on agreeing until something is
      written for an agent, but for the engine row being ahead when no step is left. So until then they agree while any
      step remains, whenever either row says failed, and whenever the run row is complete. */
  lemma {:induction false} RowsAgree(ds: seq<Deployment>, txs: seq<Tx>, i: nat, k: nat)
    requires IsPath(ds, txs) && i <= k < |ds| && (Agree(ds[i]) || EngineAhead(ds[i]))
    requires forall j :: i <= j < k ==> !ForAgents(txs[j])
    ensures Agree(ds[k]) || EngineAhead(ds[k])
    ensures !NoneRemain(ds[k].steps) || Terminal(ds[k].run.state) || ds[k].engine.state == EngineFailed ==> Agree(ds[k])
    decreases k
  {
    if i < k {
      RowsAgree(ds, txs, i, k - 1);
      assert IsTx(ds, txs, k - 1);
      TxKeepsAgreement(ds[k - 1], txs[k - 1]);
    }
  }

  /** The rows can disagree: the last pending step is marked while the run still waits. */
  lemma RowsCanDisagree(join: JoinConfig) returns (txs: seq<Tx>, ds: seq<Deployment>)
    requires !join.enabled
    ensures IsRun(join, false, ds, txs) && !Agree(ds[|txs|]) && EngineAhead(ds[|txs|])
  {
    var d0 := Start(join, false);
    var kinds := set i | 0 <= i < |d0.steps| :: d0.steps[i].kind;
    txs := [MarkSteps(kinds, 0)];
    ds := [d0, Apply(d0, txs[0])];
    assert d0.steps[0].kind in kinds;
    assert NoneRemain(MarkAll(d0.steps, kinds));
    assert IsTx(ds, txs, 0);
  }

  // ---------------------------------------------------------------- completion

  /** What is never undone. */
  predicate Advances(a: Deployment, b: Deployment) {
    && b.run.join == a.run.join
    && (a.run.peRegisteredAt.Some? ==> b.run.peRegisteredAt == a.run.peRegisteredAt)
    && (a.run.osFinishedAt.Some? ==> b.run.osFinishedAt == a.run.osFinishedAt)
    && (a.run.firstHeartbeatAt.Some? ==> b.run.firstHeartbeatAt == a.run.firstHeartbeatAt)
    && |b.steps| == |a.steps|
    && (forall i :: 0 <= i < |a.steps| ==> b.steps[i].kind == a.steps[i].kind && b.steps[i].phase == a.steps[i].phase)
    && a.events <= b.events
  }

  lemma TxAdvances(d: Deployment, tx: Tx)
    ensures Advances(d, Apply(d, tx))
  {
  }

  /** First-heartbeat, registration and installation times, once set, never change, over any stretch of any run; the
      plan stays as it is and events stay recorded. */
  lemma {:induction false} TimesNeverChange(ds: seq<Deployment>, txs: seq<Tx>, i: nat, j: nat)
    requires IsPath(ds, txs) && i <= j < |ds|
    ensures Advances(ds[i], ds[j])
    decreases j
  {
    if i < j {
      TimesNeverChange(ds, txs, i, j - 1);
      assert IsTx(ds, txs, j - 1);
      TxAdvances(ds[j - 1], txs[j - 1]);
    }
  }

  /** A result for a step that is done already, other than one more success that needs no reboot. */
  predicate Undoes(d: Deployment, tx: Tx) {
    && tx.AgentReports? && tx.i < |d.steps| && d.steps[tx.i].state.Done?
    && !(tx.result == Success && !d.steps[tx.i].reboots)
  }

  predicate KeepsDone(a: Deployment, b: Deployment) {
    |b.steps| == |a.steps| &&
    forall i :: 0 <= i < |a.steps| ==> b.steps[i].kind == a.steps[i].kind && (a.steps[i].state.Done? ==> b.steps[i].state.Done?)
  }

  /** Done steps stay done exactly as long as no agent sends another result for one of them. */
  lemma DoneStaysIff(d: Deployment, tx: Tx)
    ensures KeepsDone(d, Apply(d, tx)) <==> !Undoes(d, tx)
  {
    if Undoes(d, tx) { assert !Apply(d, tx).steps[tx.i].state.Done?; }
  }

  lemma {:induction false} StateOfAdvances(a: seq<Step>, b: seq<Step>, kind: Kind)
    requires |a| == |b| && forall i :: 0 <= i < |a| ==> b[i].kind == a[i].kind && (a[i].state.Done? ==> b[i].state.Done?)
    ensures StateOf(a, kind) == Some(StepState.Done) ==> StateOf(b, kind) == Some(StepState.Done)
  {
    if a != [] { StateOfAdvances(a[..|a| - 1], b[..|b| - 1], kind); }
  }

  lemma ReadyAdvances(a: Deployment, b: Deployment)
    requires Advances(a, b) && KeepsDone(a, b) && WasReady(a)
    ensures WasReady(b)
  {
    forall kind | kind in Required(b.run.join) ensures StateOf(b.steps, kind) == Some(StepState.Done) {
      StateOfAdvances(a.steps, b.steps, kind);
    }
  }

  /** Readiness, once found, lasts until an agent undoes a step. */
  lemma {:induction false} ReadyLasts(ds: seq<Deployment>, txs: seq<Tx>, i: nat, k: nat)
    requires IsPath(ds, txs) && i <= k < |ds| && WasReady(ds[i])
    requires forall j :: i <= j < k ==> !Undoes(ds[j], txs[j])
    ensures WasReady(ds[k])
    decreases k
  {
    if i < k {
      ReadyLasts(ds, txs, i, k - 1);
      assert IsTx(ds, txs, k - 1) && !Undoes(ds[k - 1], txs[k - 1]);
      TxAdvances(ds[k - 1], txs[k - 1]);
      DoneStaysIff(ds[k - 1], txs[k - 1]);
      ReadyAdvances(ds[k - 1], ds[k]);
    }
  }

  /** A run that is complete, in any reachable state, was found with every required step done and a first heartbeat on
      record before it became so, and is so still unless an agent has undone a step since. */
  lemma {:induction false} CompleteMeansReady(join: JoinConfig, joinsInFullOs: bool, ds: seq<Deployment>, txs: seq<Tx>, k: nat) returns (j: nat)
    requires IsRun(join, joinsInFullOs, ds, txs) && k < |ds| && ds[k].run.state == Complete
    ensures j <= k && WasReady(ds[j])
    ensures (forall m :: j <= m < k ==> !Undoes(ds[m], txs[m])) ==> WasReady(ds[k])
  {
    assert k > 0;
    assert IsTx(ds, txs, k - 1);
    if ds[k - 1].run.state == Complete {
      j := CompleteMeansReady(join, joinsInFullOs, ds, txs, k - 1);
    } else {
      assert txs[k - 1].Finish?;
      j :| 0 <= j <= k - 1 && WasReady(ds[j]);
    }
    if forall m :: j <= m < k ==> !Undoes(ds[m], txs[m]) { ReadyLasts(ds, txs, j, k); }
  }

  /** Only a finishing call completes a run; with a join to make, its heartbeat showed the right domain. A complete run
      is reopened only by a new identity or a new registration, a failed one also by sending a step back. */
  lemma TerminalMoves(ds: seq<Deployment>, txs: seq<Tx>, k: nat)
    requires |ds| == |txs| + 1 && k < |txs| && IsTx(ds, txs, k)
    ensures ds[k].run.state != Complete && ds[k + 1].run.state == Complete ==>
      txs[k].Finish? && (Sanitize(ds[k].run.join).enabled ==> Verify(Sanitize(ds[k].run.join), txs[k].hb).0)
    ensures ds[k].run.state == Complete ==> (ds[k + 1].run.state != Complete <==> txs[k].SetIdentity? || txs[k].RegisterPe?)
    ensures ds[k].run.state == RunFailed ==>
      (ds[k + 1].run.state != RunFailed <==> txs[k].SetIdentity? || txs[k].RegisterPe? || txs[k].Reopen?)
  {
  }
}
