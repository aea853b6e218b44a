/** The state machine of one phase row: the merge of two reports, the closed form of folding any sequence
    of them, and why folding a batch a second time changes nothing. */
module PhaseMerge {
  import opened Prelude

  datatype Phase = Pending | Running | Done | Failed | Skipped | Stale

  predicate Ended(p: Phase) { p.Done? || p.Failed? || p.Skipped? || p.Stale? }

  function Merge(existing: Option<Phase>, incoming: Phase): (r: Phase) {
    if incoming == Failed then Failed
    else if existing == Some(Failed) && (incoming == Done || incoming == Skipped) then incoming
    else if existing == Some(Failed) && incoming != Done then Failed
    else if existing.Some? && Ended(existing.value) && (incoming == Pending || incoming == Running) then existing.value
    else incoming
  }

  /** Reports folded in the order they arrive. */
  function Fold(existing: Option<Phase>, reports: seq<Phase>): (r: Option<Phase>) {
    if reports == [] then existing
    else Some(Merge(Fold(existing, reports[..|reports| - 1]), reports[|reports| - 1]))
  }

  predicate Decisive(p: Phase) { p.Failed? || p.Done? || p.Skipped? }

  /** The last report among failed, done and skipped; -1 when there is none. */
  function LastDecisive(reports: seq<Phase>): (l: int)
    ensures -1 <= l < |reports|
    ensures l >= 0 ==> Decisive(reports[l])
    ensures forall k :: l < k < |reports| ==> !Decisive(reports[k])
  {
    if reports == [] then -1
    else if Decisive(reports[|reports| - 1]) then |reports| - 1
    else LastDecisive(reports[..|reports| - 1])
  }

  predicate StaleAfter(reports: seq<Phase>, l: int)
    requires -1 <= l
  {
    exists k :: l < k < |reports| && reports[k] == Stale
  }

  /** What a row that saw these reports shows, without replaying them. */
  function Settled(reports: seq<Phase>): (r: Phase)
    requires reports != []
  {
    var l := LastDecisive(reports);
    if l >= 0 && reports[l] == Failed then Failed
    else if StaleAfter(reports, l) then Stale
    else if l >= 0 then reports[l]
    else reports[|reports| - 1]
  }

  lemma SettledGrows(reports: seq<Phase>, x: Phase)
    requires reports != []
    ensures Settled(reports + [x]) == Merge(Some(Settled(reports)), x)
  {
    var all := reports + [x];
    assert all[..|all| - 1] == reports;
    var l := LastDecisive(reports);
    if !Decisive(x) {
      assert LastDecisive(all) == l;
      if StaleAfter(reports, l) {
        var k :| l < k < |reports| && reports[k] == Stale;
        assert all[k] == Stale;
      }
      if x == Stale { assert all[|reports|] == Stale; }
      assert StaleAfter(all, l) <==> StaleAfter(reports, l) || x == Stale;
    } else {
      assert LastDecisive(all) == |reports|;
      assert !StaleAfter(all, |reports|);
    }
  }

  lemma {:induction false} FoldIsSettled(reports: seq<Phase>)
    requires reports != []
    ensures Fold(None, reports) == Some(Settled(reports))
  {
    var n := |reports| - 1;
    if n == 0 {
      assert reports[..0] == [];
      assert Settled(reports) == reports[0];
    } else {
      FoldIsSettled(reports[..n]);
      SettledGrows(reports[..n], reports[n]);
      assert reports[..n] + [reports[n]] == reports;
    }
  }

  /** An existing row counts as one more report before the others. */
  lemma {:induction false} ExistingIsFirstReport(e: Phase, reports: seq<Phase>)
    ensures Fold(Some(e), reports) == Fold(None, [e] + reports)
  {
    var all := [e] + reports;
    if reports == [] {
      assert all == [e] && all[..0] == [];
    } else {
      var n := |reports| - 1;
      ExistingIsFirstReport(e, reports[..n]);
      assert all[..|all| - 1] == [e] + reports[..n];
    }
  }

  /** The fold in closed form, from any starting row. */
  lemma FoldClosedForm(existing: Option<Phase>, reports: seq<Phase>)
    requires existing.Some? || reports != []
    ensures Fold(existing, reports) ==
      Some(Settled((if existing.Some? then [existing.value] else []) + reports))
  {
    match existing
    case None =>
      FoldIsSettled(reports);
      assert [] + reports == reports;
    case Some(e) =>
      ExistingIsFirstReport(e, reports);
      FoldIsSettled([e] + reports);
  }

  lemma {:induction false} LastDecisiveShift(e: Phase, reports: seq<Phase>)
    ensures LastDecisive([e] + reports) ==
      if LastDecisive(reports) >= 0 then LastDecisive(reports) + 1 else if Decisive(e) then 0 else -1
  {
    var all := [e] + reports;
    if reports == [] {
      assert all == [e] && all[..0] == [];
    } else {
      LastDecisiveShift(e, reports[..|reports| - 1]);
      assert all[..|all| - 1] == [e] + reports[..|reports| - 1];
    }
  }

  lemma StaleShift(e: Phase, reports: seq<Phase>, l: int)
    requires -1 <= l
    ensures StaleAfter([e] + reports, l + 1) <==> StaleAfter(reports, l)
  {
    var all := [e] + reports;
    if StaleAfter(reports, l) {
      var k :| l < k < |reports| && reports[k] == Stale;
      assert all[k + 1] == Stale;
    }
    if StaleAfter(all, l + 1) {
      var k :| l + 1 < k < |all| && all[k] == Stale;
      assert reports[k - 1] == Stale;
    }
  }

  lemma StaleFromStart(reports: seq<Phase>)
    ensures StaleAfter(reports, -1) <==> Stale in reports
  {
    if Stale in reports {
      var k :| 0 <= k < |reports| && reports[k] == Stale;
      assert -1 < k;
    }
  }

  /** What the row shows after `[e] + reports`, told from `e` and `reports` apart. */
  function SettledFrom(e: Phase, reports: seq<Phase>): (r: Phase)
    requires reports != []
  {
    if LastDecisive(reports) >= 0 then Settled(reports)
    else if e == Failed then Failed
    else if Stale in reports || e == Stale then Stale
    else if Decisive(e) then e
    else reports[|reports| - 1]
  }

  lemma SettledAfter(e: Phase, reports: seq<Phase>)
    requires reports != []
    ensures Settled([e] + reports) == SettledFrom(e, reports)
  {
    var all := [e] + reports;
    var l := LastDecisive(reports);
    LastDecisiveShift(e, reports);
    StaleShift(e, reports, l);
    StaleFromStart(reports);
    StaleFromStart(all);
    assert Stale in all <==> e == Stale || Stale in reports;
  }

  /** Folding the same reports again leaves the state as it is. */
  lemma FoldTwice(existing: Option<Phase>, reports: seq<Phase>)
    ensures Fold(Fold(existing, reports), reports) == Fold(existing, reports)
  {
    if reports != [] {
      FoldClosedForm(existing, reports);
      var once := Fold(existing, reports);
      FoldClosedForm(once, reports);
      SettledAfter(once.value, reports);
      StaleFromStart(reports);
      if existing.Some? {
        SettledAfter(existing.value, reports);
      } else {
        assert [] + reports == reports;
      }
    }
  }

  // ---------------------------------------------------------------- last writer wins

  /** A field some reports set and others leave alone: the last one that sets it wins. */
  function Overridden<T>(init: T, ops: seq<Option<T>>): (r: T) {
    if ops == [] then init
    else if ops[|ops| - 1].Some? then ops[|ops| - 1].value
    else Overridden(init, ops[..|ops| - 1])
  }

  lemma {:induction false} OverriddenTwice<T>(init: T, ops: seq<Option<T>>)
    ensures Overridden(Overridden(init, ops), ops) == Overridden(init, ops)
    ensures (exists k :: 0 <= k < |ops| && ops[k].Some?) ==> forall other :: Overridden(other, ops) == Overridden(init, ops)
    ensures (forall k :: 0 <= k < |ops| ==> ops[k].None?) ==> forall other :: Overridden(other, ops) == other
  {
    if ops != [] && ops[|ops| - 1].None? {
      OverriddenTwice(init, ops[..|ops| - 1]);
      if exists k :: 0 <= k < |ops| && ops[k].Some? {
        var k :| 0 <= k < |ops| && ops[k].Some?;
        assert ops[..|ops| - 1][k].Some?;
      }
    }
  }
}
