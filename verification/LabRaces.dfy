/** Calls of the lab store that check in one statement and write in another: what other transactions may commit
    in between, and exactly when that breaks what every store keeps. */
module LabRaces {
  import opened Prelude
  import opened LabBubbles

  function ApplyOps(l: Lab, ops: seq<Op>): (r: Lab) {
    if ops == [] then l else Apply(ApplyOps(l, ops[..|ops| - 1]), ops[|ops| - 1])
  }

  lemma {:induction false} OpsKeepInv(l: Lab, ops: seq<Op>)
    requires Inv(l)
    ensures Inv(ApplyOps(l, ops))
  {
    if ops != [] {
      OpsKeepInv(l, ops[..|ops| - 1]);
      OpKeepsInv(ApplyOps(l, ops[..|ops| - 1]), ops[|ops| - 1]);
    }
  }

  // ---------------------------------------------------------------- where rows are put

  /** The bubble an accepted operation puts an asset in. */
  function Places(l: Lab, op: Op, a: Id): (b: Option<Id>) {
    if !Accepts(l, op) then None
    else match op
      case MoveAsset(x, b, _) => if x == a then Some(b) else None
      case AddAsset(x, b, _, _) => if x == a then Some(b) else None
      case _ => None
  }

  /** The last bubble the operations put an asset in. */
  function LastPlace(l: Lab, ops: seq<Op>, a: Id): (b: Option<Id>) {
    if ops == [] then None
    else
      var n := |ops| - 1;
      Places(ApplyOps(l, ops[..n]), ops[n], a).Else(LastPlace(l, ops[..n], a))
  }

  function PlacesService(l: Lab, op: Op, s: Id): (b: Option<Id>) {
    if Accepts(l, op) && op.AddService? && op.s == s then Some(op.b) else None
  }

  function LastServicePlace(l: Lab, ops: seq<Op>, s: Id): (b: Option<Id>) {
    if ops == [] then None
    else
      var n := |ops| - 1;
      PlacesService(ApplyOps(l, ops[..n]), ops[n], s).Else(LastServicePlace(l, ops[..n], s))
  }

  lemma {:induction false} AssetIsWherePlaced(l: Lab, ops: seq<Op>, a: Id)
    ensures a in ApplyOps(l, ops).assets ==>
      && (LastPlace(l, ops, a).Some? || a in l.assets)
      && Some(ApplyOps(l, ops).assets[a].bubble) == LastPlace(l, ops, a).Else(if a in l.assets then Some(l.assets[a].bubble) else None)
  {
    if ops != [] {
      AssetIsWherePlaced(l, ops[..|ops| - 1], a);
    }
  }

  lemma {:induction false} ServiceIsWherePlaced(l: Lab, ops: seq<Op>, s: Id)
    ensures s in ApplyOps(l, ops).services ==>
      && (LastServicePlace(l, ops, s).Some? || s in l.services)
      && Some(ApplyOps(l, ops).services[s].bubble) ==
        LastServicePlace(l, ops, s).Else(if s in l.services then Some(l.services[s].bubble) else None)
  {
    if ops != [] {
      ServiceIsWherePlaced(l, ops[..|ops| - 1], s);
    }
  }

  // ---------------------------------------------------------------- add_service

  /** What the foreign keys and the primary key ask of the insert. */
  predicate Insertable(l: Lab, s: Id, row: Service) {
    s !in l.services && row.bubble in l.bubbles && (row.provider.Some? ==> row.provider.value in l.assets)
  }

  /** The insert after the check, as the keys alone allow it. */
  function InsertService(l: Lab, s: Id, row: Service): (r: Lab) {
    Log(l.(services := l.services[s := row]), Audit(row.bubble, None, ServiceAdded, Nothing, OfService(s, row)))
  }

  /** Written together with its snapshot, a service row keeps the store in order exactly when its provider is in
      its bubble. */
  lemma ServiceWriteIff(l: Lab, s: Id, row: Service, e: Audit)
    requires Inv(l) && row.bubble in l.bubbles
    requires e.bubble == row.bubble && e.asset == None && e.after == OfService(s, row)
    ensures var r := Log(l.(services := l.services[s := row]), e);
      && (Inv(r) <==> Linked(r))
      && (Linked(r) <==> (row.provider.Some? ==> AssetInBubble(l, row.provider.value, row.bubble)))
  {
    if row.provider.Some? ==> AssetInBubble(l, row.provider.value, row.bubble) {
      ServiceWriteKeepsInv(l, s, row, e);
    } else {
      var r := Log(l.(services := l.services[s := row]), e);
      assert r.services[s] == row;
    }
  }

  /** A service is added in order exactly when, between its check and its insert, nothing was the last to put its
      provider in another bubble. */
  lemma InsertStaysLinkedIff(l: Lab, ops: seq<Op>, s: Id, row: Service)
    requires Inv(l) && Accepts(l, AddService(s, row.bubble, row.provider, row.fields, row.updatedAt))
    requires Insertable(ApplyOps(l, ops), s, row)
    ensures var r := InsertService(ApplyOps(l, ops), s, row);
      && (Inv(r) <==> Linked(r))
      && (Linked(r) <==> (row.provider.Some? ==> LastPlace(l, ops, row.provider.value).GetOr(row.bubble) == row.bubble))
  {
    OpsKeepInv(l, ops);
    ServiceWriteIff(ApplyOps(l, ops), s, row, Audit(row.bubble, None, ServiceAdded, Nothing, OfService(s, row)));
    if row.provider.Some? { AssetIsWherePlaced(l, ops, row.provider.value); }
  }

  /** Of single operations, only a move of the provider to another bubble overtakes the check. */
  lemma OneOpOvertakesIff(l: Lab, op: Op, s: Id, row: Service)
    requires Inv(l) && Accepts(l, AddService(s, row.bubble, row.provider, row.fields, row.updatedAt))
    requires Insertable(Apply(l, op), s, row)
    ensures Linked(InsertService(Apply(l, op), s, row)) <==>
      !(row.provider.Some? && op.MoveAsset? && Accepts(l, op) && op.a == row.provider.value && op.b != row.bubble)
  {
    assert [op][..0] == [];
    assert ApplyOps(l, [op]) == Apply(l, op);
    InsertStaysLinkedIff(l, [op], s, row);
  }

  // ---------------------------------------------------------------- update_service

  /** The update after the check; the row's bubble is the one it has by then. */
  function RewireService(l: Lab, s: Id, p: Id, fields: Fields, now: int): (r: Lab)
    requires s in l.services
  {
    var was := l.services[s];
    var row := was.(provider := Some(p), fields := was.fields + Pick(fields, SERVICE_COLUMNS), updatedAt := now);
    Log(l.(services := l.services[s := row]), Audit(row.bubble, None, ServiceUpdated, OfService(s, was), OfService(s, row)))
  }

  /** A service is rewired in order exactly when the operations in between last put the new provider where they
      last put the service; of its own a service never changes bubble. */
  lemma RewireStaysLinkedIff(l: Lab, ops: seq<Op>, s: Id, p: Id, fields: Fields, now: int)
    requires Inv(l) && Accepts(l, UpdateService(s, Some(Some(p)), fields, now))
    requires s in ApplyOps(l, ops).services && p in ApplyOps(l, ops).assets
    ensures var home := l.services[s].bubble;
      Inv(RewireService(ApplyOps(l, ops), s, p, fields, now)) <==>
        LastPlace(l, ops, p).GetOr(home) == LastServicePlace(l, ops, s).GetOr(home)
  {
    var m := ApplyOps(l, ops);
    OpsKeepInv(l, ops);
    AssetIsWherePlaced(l, ops, p);
    ServiceIsWherePlaced(l, ops, s);
    var was := m.services[s];
    var row := was.(provider := Some(p), fields := was.fields + Pick(fields, SERVICE_COLUMNS), updatedAt := now);
    ServiceWriteIff(m, s, row, Audit(row.bubble, None, ServiceUpdated, OfService(s, was), OfService(s, row)));
  }

  // ---------------------------------------------------------------- move_asset

  function MoveAfterCheck(l: Lab, a: Id, b: Id, now: int): (r: Lab)
    requires a in l.assets
  {
    var was := l.assets[a];
    var row := was.(bubble := b, updatedAt := now);
    Log(l.(assets := l.assets[a := row]), Audit(b, Some(a), AssetMoved, OfAsset(a, was), OfAsset(a, row)))
  }

  /** An accepted operation that makes a service outside `b` depend on the asset. */
  predicate WiresElsewhere(l: Lab, op: Op, a: Id, b: Id) {
    Accepts(l, op) &&
    match op
    case AddService(_, c, provider, _, _) => provider == Some(a) && c != b
    case UpdateService(s, rewire, _, _) => rewire == Some(Some(a)) && l.services[s].bubble != b
    case _ => false
  }

  lemma MoveIff(l: Lab, a: Id, b: Id, now: int)
    requires Inv(l) && a in l.assets && b in l.bubbles
    ensures Inv(MoveAfterCheck(l, a, b, now)) <==> !ProvidesElsewhere(l, a, b)
  {
    var was := l.assets[a];
    var row := was.(bubble := b, updatedAt := now);
    var r := MoveAfterCheck(l, a, b, now);
    if s :| s in l.services && l.services[s].provider == Some(a) && l.services[s].bubble != b {
      assert r.services[s] == l.services[s] && !AssetInBubble(r, a, r.services[s].bubble);
    } else {
      AssetWriteKeepsInv(l, a, row, Audit(b, Some(a), AssetMoved, OfAsset(a, was), OfAsset(a, row)));
    }
  }

  lemma DependentsStep(l: Lab, op: Op, a: Id, b: Id)
    requires Inv(l) && !ProvidesElsewhere(l, a, b)
    ensures ProvidesElsewhere(Apply(l, op), a, b) <==> WiresElsewhere(l, op, a, b)
  {
    var r := Apply(l, op);
    if WiresElsewhere(l, op, a, b) {
      assert r.services[op.s].provider == Some(a) && r.services[op.s].bubble != b;
    } else {
      forall s | s in r.services && r.services[s].provider == Some(a) ensures r.services[s].bubble == b {
        if s in l.services && l.services[s].provider == Some(a) { assert l.services[s].bubble == b; }
      }
    }
  }

  /** A move is overtaken, too: exactly by an operation that makes a service elsewhere depend on the asset. */
  lemma MoveOvertakenIff(l: Lab, op: Op, a: Id, b: Id, now: int)
    requires Inv(l) && Accepts(l, MoveAsset(a, b, now))
    requires a in Apply(l, op).assets && b in Apply(l, op).bubbles
    ensures Inv(MoveAfterCheck(Apply(l, op), a, b, now)) <==> !WiresElsewhere(l, op, a, b)
  {
    OpKeepsInv(l, op);
    MoveIff(Apply(l, op), a, b, now);
    DependentsStep(l, op, a, b);
  }

  // ---------------------------------------------------------------- what a later delete does

  /** After a service was inserted past its check, deleting a bubble changes a surviving service exactly when it
      is the bubble its provider was last put in, and not the service's own. */
  lemma DeleteNullsIff(l: Lab, ops: seq<Op>, s: Id, row: Service, d: Id)
    requires Inv(l) && Accepts(l, AddService(s, row.bubble, row.provider, row.fields, row.updatedAt))
    requires Insertable(ApplyOps(l, ops), s, row) && d in ApplyOps(l, ops).bubbles
    ensures var inserted := InsertService(ApplyOps(l, ops), s, row);
      var r := Apply(inserted, DeleteBubble(d));
      (exists x :: x in r.services && r.services[x] != inserted.services[x]) <==>
        d != row.bubble && row.provider.Some? && LastPlace(l, ops, row.provider.value) == Some(d)
  {
    var m := ApplyOps(l, ops);
    var inserted := InsertService(m, s, row);
    var r := Apply(inserted, DeleteBubble(d));
    OpsKeepInv(l, ops);
    if row.provider.Some? { AssetIsWherePlaced(l, ops, row.provider.value); }
    forall x | x in r.services && x != s ensures r.services[x] == inserted.services[x] {
      assert inserted.services[x] == m.services[x];
    }
    if d != row.bubble && row.provider.Some? && AssetInBubble(m, row.provider.value, d) {
      assert r.services[s] != inserted.services[s];
    }
  }

  /** A move in between leaves a service whose provider is in another bubble, and a delete that nulls it. */
  lemma CheckThenInsertCanBeOvertaken() returns (l: Lab, row: Service)
    ensures Inv(l) && Accepts(l, AddService(7, row.bubble, row.provider, row.fields, row.updatedAt))
    ensures var moved := Apply(l, MoveAsset(5, 2, 0));
      && Accepts(l, MoveAsset(5, 2, 0)) && Insertable(moved, 7, row)
      && !Linked(InsertService(moved, 7, row))
      && var broken := Apply(InsertService(moved, 7, row), DeleteBubble(2));
         7 in broken.services && broken.services[7] != row
  {
    var ops := [CreateBubble(1), CreateBubble(2), AddAsset(5, 1, map[], 0)];
    row := Service(1, Some(5), map[], 0);
    var l1 := Apply(EMPTY, ops[0]);
    var l2 := Apply(l1, ops[1]);
    l := Apply(l2, ops[2]);
    OpKeepsInv(EMPTY, ops[0]);
    OpKeepsInv(l1, ops[1]);
    OpKeepsInv(l2, ops[2]);
    var moved := Apply(l, MoveAsset(5, 2, 0));
    var inserted := InsertService(moved, 7, row);
    assert inserted.services[7].provider == Some(5) && inserted.assets[5].bubble == 2;
  }
}
