/** The plan of a cloud deployment, which of its steps gate completion, and what counts as evidence for a step. */
module CloudPlan {
  import opened Prelude
  import opened Text
  import opened DomainMatch
  import opened CloudRun

  /** The steps of a new run, in order: a join is made either while the installation is staged or in the new system, and
      verified in both cases; the hash is captured last. */
  lemma PlanInOrder(join: JoinConfig, joinsInFullOs: bool)
    ensures var steps := Start(join, joinsInFullOs).steps;
      && KindsOf(steps) ==
         (if !join.enabled then
            ["cloudosd_preflight", "cloudosd_deploy_os", "cloudosd_validate_offline_os", "stage_osd_client",
             "stage_autopilot_agent", "wait_agent_heartbeat", "capture_autopilot_hash"]
          else if joinsInFullOs then
            ["cloudosd_preflight", "cloudosd_deploy_os", "cloudosd_validate_offline_os", "stage_osd_client",
             "stage_autopilot_agent", "wait_agent_heartbeat", "join_domain_role", "verify_ad_domain_join", "capture_autopilot_hash"]
          else
            ["cloudosd_preflight", "cloudosd_deploy_os", "stage_ad_domain_join_unattend", "cloudosd_validate_offline_os",
             "stage_osd_client", "stage_autopilot_agent", "wait_agent_heartbeat", "verify_ad_domain_join", "capture_autopilot_hash"])
      && forall i :: 0 <= i < |steps| ==>
           && steps[i].state == Pending && steps[i].attempt == 0 && !steps[i].continues
           && (steps[i].reboots <==> steps[i].kind == "join_domain_role")
  {
  }

  function KindsOf(steps: seq<Step>): (kinds: seq<string>) {
    seq(|steps|, i requires 0 <= i < |steps| => steps[i].kind)
  }

  /** The steps before the heartbeat run while installing, the heartbeat's and those after it in the new system. */
  lemma PhasesInOrder(join: JoinConfig, joinsInFullOs: bool) returns (h: nat)
    ensures var steps := Start(join, joinsInFullOs).steps;
      && h < |steps| && steps[h].kind == "wait_agent_heartbeat"
      && forall i :: 0 <= i < |steps| ==> steps[i].phase == if i < h then "pe" else "full_os"
  {
    h := if join.enabled && !joinsInFullOs then 6 else 5;
    assert "wait_agent_heartbeat"[0] == 'w' && "join_domain_role"[0] == 'j' && "verify_ad_domain_join"[0] == 'v';
    assert "capture_autopilot_hash"[1] == 'a';
  }

  /** The last step of a kind, if there is one, is in the given state. */
  predicate LastIs(steps: seq<Step>, kind: Kind, state: StepState) {
    exists i :: 0 <= i < |steps| && steps[i].kind == kind && steps[i].state == state && NoneAfter(steps, i, kind)
  }

  predicate NoneAfter(steps: seq<Step>, i: nat, kind: Kind) { forall j :: i < j < |steps| ==> steps[j].kind != kind }

  lemma {:induction false} LastOfKind(steps: seq<Step>, kind: Kind, state: StepState)
    ensures StateOf(steps, kind) == Some(state) <==> LastIs(steps, kind, state)
  {
    if steps != [] {
      var n := |steps| - 1;
      if steps[n].kind == kind {
        assert NoneAfter(steps, n, kind);
      } else {
        LastOfKind(steps[..n], kind, state);
        if i :| 0 <= i < n && steps[..n][i].kind == kind && steps[..n][i].state == state && NoneAfter(steps[..n], i, kind) {
          assert forall j :: i < j < n ==> steps[..n][j] == steps[j];
          assert NoneAfter(steps, i, kind);
        }
        if i :| 0 <= i < |steps| && steps[i].kind == kind && steps[i].state == state && NoneAfter(steps, i, kind) {
          assert steps[..n][i] == steps[i];
          assert forall j :: i < j < n ==> steps[..n][j] == steps[j];
          assert NoneAfter(steps[..n], i, kind);
        }
      }
    }
  }

  /** The gate: the heartbeat and the captured hash, and with a join to make its verification. */
  lemma ReadyIff(d: Deployment)
    ensures Ready(d) <==>
      && LastIs(d.steps, "wait_agent_heartbeat", StepState.Done)
      && LastIs(d.steps, "capture_autopilot_hash", StepState.Done)
      && (d.run.join.enabled ==> LastIs(d.steps, "verify_ad_domain_join", StepState.Done))
  {
    LastOfKind(d.steps, "wait_agent_heartbeat", StepState.Done);
    LastOfKind(d.steps, "capture_autopilot_hash", StepState.Done);
    LastOfKind(d.steps, "verify_ad_domain_join", StepState.Done);
    assert HEARTBEAT in Required(d.run.join) && CAPTURE in Required(d.run.join);
    assert d.run.join.enabled ==> VERIFY in Required(d.run.join);
  }

  predicate IsPeKind(kind: string) {
    || kind == "cloudosd_preflight" || kind == "cloudosd_deploy_os" || kind == "cloudosd_validate_offline_os"
    || kind == "stage_ad_domain_join_unattend" || kind == "stage_osd_client" || kind == "stage_autopilot_agent"
  }

  predicate SeenInFullOs(run: Run, events: seq<Event>) {
    || run.firstHeartbeatAt.Some? || run.state == Complete
    || Saw(events, "autopilotagent_heartbeat") || Saw(events, "autopilotagent_heartbeat_visible") || Saw(events, "firstboot_complete")
  }

  /** What it takes for each kind of step to be marked from evidence; the capture of the hash and the join in the new
      system never are. */
  lemma EvidenceFor(run: Run, events: seq<Event>, kind: Kind)
    ensures kind in Evidence(run, events) <==>
      || (kind == "wait_agent_heartbeat" && SeenInFullOs(run, events))
      || (kind == "verify_ad_domain_join" && Saw(events, "domain_join_verified"))
      || (IsPeKind(kind) && (SeenInFullOs(run, events) || run.osFinishedAt.Some? || Saw(events, "cloudosd_pe_complete")))
      || (kind == "cloudosd_preflight"
          && (run.peRegisteredAt.Some? || Saw(events, "pe_registered") || Saw(events, "osdcloud_start")))
      || ((kind == "cloudosd_deploy_os" || kind == "cloudosd_validate_offline_os")
          && (Saw(events, "offline_validation_ok") || SawPhase(events, "offline validation") || SawPhase(events, "offline_validation")))
  {
    assert kind in PE_KINDS <==> IsPeKind(kind);
  }

  /** An event counts whatever its case and wherever in the log it stands. */
  lemma SawIff(events: seq<Event>, e: Event, more: seq<Event>)
    ensures Saw(events + [e] + more, Lower(e.eventType)) && SawPhase(events + [e] + more, Lower(e.phase))
  {
    assert (events + [e] + more)[|events|] == e;
  }
}
