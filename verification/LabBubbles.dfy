/** Lab bubbles, their assets and services, and the audit log: four linked tables with cascade and
    SET NULL rules. Columns that no rule looks at are kept together in `fields`. */
module LabBubbles {
  import opened Prelude

  type Id = nat
  type Fields = map<string, string>

  datatype Asset = Asset(bubble: Id, fields: Fields, updatedAt: int)
  datatype Service = Service(bubble: Id, provider: Option<Id>, fields: Fields, updatedAt: int)

  datatype Action =
    | AssetAdded | AssetUpdated | AssetMoved
    | ServiceAdded | ServiceUpdated | ServiceDeleted | ReadinessUpdated

  datatype Snapshot = Nothing | OfAsset(aid: Id, asset: Asset) | OfService(sid: Id, service: Service)

  datatype Audit = Audit(bubble: Id, asset: Option<Id>, action: Action, before: Snapshot, after: Snapshot)

  datatype Lab = Lab(bubbles: set<Id>, assets: map<Id, Asset>, services: map<Id, Service>, audit: seq<Audit>)

  const EMPTY := Lab({}, map[], map[], [])

  /** The columns a caller may patch; anything else it sends is ignored. */
  const ASSET_COLUMNS: set<string> := {
    "asset_role", "vmid", "vm_uuid", "run_id", "agent_id", "service_id", "membership_state", "evidence_state", "notes"}
  const SERVICE_COLUMNS: set<string> := {
    "service_kind", "service_name", "scope", "consumer_refs", "readiness_state", "evidence_summary"}

  function Pick(fields: Fields, columns: set<string>): (r: Fields) {
    map k | k in fields && k in columns :: fields[k]
  }

  // ---------------------------------------------------------------- operations

  datatype Op =
    | CreateBubble(b: Id)
    | DeleteBubble(b: Id)
    | AddAsset(a: Id, b: Id, fields: Fields, now: int)
    | UpdateAsset(a: Id, fields: Fields, now: int)
    | MoveAsset(a: Id, b: Id, now: int)
    | AddService(s: Id, b: Id, provider: Option<Id>, fields: Fields, now: int)
    | UpdateService(s: Id, rewire: Option<Option<Id>>, fields: Fields, now: int)
    | DeleteService(s: Id)
    | NoteReadiness(b: Id, dc: Id)

  predicate AssetInBubble(l: Lab, a: Id, b: Id) { a in l.assets && l.assets[a].bubble == b }

  predicate IsActiveController(fields: Fields) {
    && "asset_role" in fields && fields["asset_role"] == "domain_controller"
    && "membership_state" in fields
    && (fields["membership_state"] == "active" || fields["membership_state"] == "provisioning")
  }

  predicate ProvidesElsewhere(l: Lab, a: Id, b: Id) {
    exists s :: s in l.services && l.services[s].provider == Some(a) && l.services[s].bubble != b
  }

  /** Whether the call commits. A refused call raises and leaves every table as it was. */
  predicate Accepts(l: Lab, op: Op) {
    match op
    case CreateBubble(b) => b !in l.bubbles
    case DeleteBubble(b) => true
    case AddAsset(a, b, _, _) => a !in l.assets && b in l.bubbles
    case UpdateAsset(a, _, _) => a in l.assets
    case MoveAsset(a, b, _) => a in l.assets && !ProvidesElsewhere(l, a, b) && b in l.bubbles
    case AddService(s, b, provider, _, _) =>
      s !in l.services && b in l.bubbles && (provider.Some? ==> AssetInBubble(l, provider.value, b))
    case UpdateService(s, provider, _, _) =>
      s in l.services &&
      (provider.Some? && provider.value.Some? ==> AssetInBubble(l, provider.value.value, l.services[s].bubble))
    case DeleteService(s) => true
    case NoteReadiness(b, dc) => AssetInBubble(l, dc, b) && IsActiveController(l.assets[dc].fields)
  }

  /** ON DELETE CASCADE and ON DELETE SET NULL for a removed bubble. */
  function CascadeServices(l: Lab, b: Id): (r: map<Id, Service>) {
    map s | s in l.services && l.services[s].bubble != b ::
      if l.services[s].provider.Some? && AssetInBubble(l, l.services[s].provider.value, b)
      then l.services[s].(provider := None) else l.services[s]
  }

  function CascadeAudit(l: Lab, audit: seq<Audit>, b: Id): (r: seq<Audit>) {
    if audit == [] then []
    else
      var before := CascadeAudit(l, audit[..|audit| - 1], b);
      var e := audit[|audit| - 1];
      if e.bubble == b then before
      else if e.asset.Some? && AssetInBubble(l, e.asset.value, b) then before + [e.(asset := None)]
      else before + [e]
  }

  function Log(l: Lab, e: Audit): (r: Lab) { l.(audit := l.audit + [e]) }

  function Apply(l: Lab, op: Op): (r: Lab)
  {
    if !Accepts(l, op) then l else
    match op
    case CreateBubble(b) => l.(bubbles := l.bubbles + {b})
    case DeleteBubble(b) =>
      if b !in l.bubbles then l
      else Lab(l.bubbles - {b}, map a | a in l.assets && l.assets[a].bubble != b :: l.assets[a],
               CascadeServices(l, b), CascadeAudit(l, l.audit, b))
    case AddAsset(a, b, fields, now) =>
      var row := Asset(b, fields, now);
      Log(l.(assets := l.assets[a := row]), Audit(b, Some(a), AssetAdded, Nothing, OfAsset(a, row)))
    case UpdateAsset(a, fields, now) =>
      var patch := Pick(fields, ASSET_COLUMNS);
      if patch == map[] then l
      else
        var was := l.assets[a];
        var row := was.(fields := was.fields + patch, updatedAt := now);
        Log(l.(assets := l.assets[a := row]), Audit(row.bubble, Some(a), AssetUpdated, OfAsset(a, was), OfAsset(a, row)))
    case MoveAsset(a, b, now) =>
      var was := l.assets[a];
      var row := was.(bubble := b, updatedAt := now);
      Log(l.(assets := l.assets[a := row]), Audit(b, Some(a), AssetMoved, OfAsset(a, was), OfAsset(a, row)))
    case AddService(s, b, provider, fields, now) =>
      var row := Service(b, provider, fields, now);
      Log(l.(services := l.services[s := row]), Audit(b, None, ServiceAdded, Nothing, OfService(s, row)))
    case UpdateService(s, provider, fields, now) =>
      var patch := Pick(fields, SERVICE_COLUMNS);
      if provider.None? && patch == map[] then l
      else
        var was := l.services[s];
        var row := was.(provider := provider.GetOr(was.provider), fields := was.fields + patch, updatedAt := now);
        Log(l.(services := l.services[s := row]), Audit(row.bubble, None, ServiceUpdated, OfService(s, was), OfService(s, row)))
    case DeleteService(s) =>
      if s !in l.services then l
      else Log(l.(services := l.services - {s}),
               Audit(l.services[s].bubble, None, ServiceDeleted, OfService(s, l.services[s]), Nothing))
    case NoteReadiness(b, dc) =>
      Log(l, Audit(b, Some(dc), ReadinessUpdated, Nothing, Nothing))
  }

  // ---------------------------------------------------------------- what updates change

  predicate IsAssetColumn(k: string) {
    || k == "asset_role" || k == "vmid" || k == "vm_uuid" || k == "run_id" || k == "agent_id" || k == "service_id"
    || k == "membership_state" || k == "evidence_state" || k == "notes"
  }

  predicate IsServiceColumn(k: string) {
    || k == "service_kind" || k == "service_name" || k == "scope" || k == "consumer_refs" || k == "readiness_state"
    || k == "evidence_summary"
  }

  /** The columns sent that may be patched, and no others, are taken over. */
  ghost predicate Patched(was: Fields, now: Fields, sent: Fields, patchable: string -> bool) {
    && (forall k :: k in now <==> k in was || (k in sent && patchable(k)))
    && forall k :: k in now ==> now[k] == if k in sent && patchable(k) then sent[k] else was[k]
  }

  ghost predicate SendsSome(sent: Fields, patchable: string -> bool) { exists k :: k in sent && patchable(k) }

  lemma PickIsSome(sent: Fields, columns: set<string>, patchable: string -> bool)
    requires forall k :: k in columns <==> patchable(k)
    ensures Pick(sent, columns) != map[] <==> SendsSome(sent, patchable)
  {
    var picked := Pick(sent, columns);
    if k :| k in sent && patchable(k) { assert k in picked; }
    if picked != map[] {
      var k :| k in picked;
      assert patchable(k);
    }
  }

  /** An update sets the columns that may be patched, in a row that stays in its bubble, and logs both versions; if none
      of those is sent, nothing happens. */
  lemma AssetUpdateMeans(l: Lab, a: Id, sent: Fields, now: int)
    requires a in l.assets
    ensures var r := Apply(l, UpdateAsset(a, sent, now)); var was := l.assets[a];
      if SendsSome(sent, IsAssetColumn) then
        && a in r.assets && r == Lab(l.bubbles, l.assets[a := r.assets[a]], l.services,
             l.audit + [Audit(was.bubble, Some(a), AssetUpdated, OfAsset(a, was), OfAsset(a, r.assets[a]))])
        && r.assets[a].bubble == was.bubble && r.assets[a].updatedAt == now
        && Patched(was.fields, r.assets[a].fields, sent, IsAssetColumn)
      else r == l
  {
    PickIsSome(sent, ASSET_COLUMNS, IsAssetColumn);
  }

  /** Likewise for a service, whose provider is replaced, or cleared, only if the caller says so. */
  lemma ServiceUpdateMeans(l: Lab, s: Id, provider: Option<Option<Id>>, sent: Fields, now: int)
    requires Accepts(l, UpdateService(s, provider, sent, now))
    ensures var r := Apply(l, UpdateService(s, provider, sent, now)); var was := l.services[s];
      if provider.Some? || SendsSome(sent, IsServiceColumn) then
        && s in r.services && r == Lab(l.bubbles, l.assets, l.services[s := r.services[s]],
             l.audit + [Audit(was.bubble, None, ServiceUpdated, OfService(s, was), OfService(s, r.services[s]))])
        && r.services[s].bubble == was.bubble && r.services[s].updatedAt == now
        && r.services[s].provider == (if provider.Some? then provider.value else was.provider)
        && Patched(was.fields, r.services[s].fields, sent, IsServiceColumn)
      else r == l
  {
    PickIsSome(sent, SERVICE_COLUMNS, IsServiceColumn);
  }

  // ---------------------------------------------------------------- what every store keeps

  ghost predicate Linked(l: Lab) {
    && (forall a :: a in l.assets ==> l.assets[a].bubble in l.bubbles)
    && (forall s :: s in l.services ==> l.services[s].bubble in l.bubbles)
    && (forall s :: s in l.services && l.services[s].provider.Some? ==>
         AssetInBubble(l, l.services[s].provider.value, l.services[s].bubble))
    && (forall i :: 0 <= i < |l.audit| ==> l.audit[i].bubble in l.bubbles)
    && (forall i :: 0 <= i < |l.audit| && l.audit[i].asset.Some? ==> l.audit[i].asset.value in l.assets)
  }

  /** The newest snapshot of an asset among the audit events of one bubble. */
  function LatestAsset(audit: seq<Audit>, b: Id, a: Id): (r: Option<Asset>) {
    if audit == [] then None
    else
      var e := audit[|audit| - 1];
      if e.bubble == b && e.after.OfAsset? && e.after.aid == a then Some(e.after.asset)
      else LatestAsset(audit[..|audit| - 1], b, a)
  }

  function LatestService(audit: seq<Audit>, b: Id, s: Id): (r: Option<Service>) {
    if audit == [] then None
    else
      var e := audit[|audit| - 1];
      if e.bubble == b && e.after.OfService? && e.after.sid == s then Some(e.after.service)
      else LatestService(audit[..|audit| - 1], b, s)
  }

  ghost predicate Audited(l: Lab) {
    && (forall a :: a in l.assets ==> LatestAsset(l.audit, l.assets[a].bubble, a) == Some(l.assets[a]))
    && (forall s :: s in l.services ==> LatestService(l.audit, l.services[s].bubble, s) == Some(l.services[s]))
  }

  ghost predicate Inv(l: Lab) { Linked(l) && Audited(l) }

  lemma LatestAfterLog(audit: seq<Audit>, e: Audit, b: Id, x: Id)
    ensures LatestAsset(audit + [e], b, x) ==
      if e.bubble == b && e.after.OfAsset? && e.after.aid == x then Some(e.after.asset) else LatestAsset(audit, b, x)
    ensures LatestService(audit + [e], b, x) ==
      if e.bubble == b && e.after.OfService? && e.after.sid == x then Some(e.after.service) else LatestService(audit, b, x)
  {
    assert (audit + [e])[..|audit|] == audit;
  }

  /** Deleting another bubble hides nothing from a bubble's own log. */
  lemma {:induction false} CascadeKeepsLatest(l: Lab, audit: seq<Audit>, b: Id, c: Id, x: Id)
    requires b != c
    ensures LatestAsset(CascadeAudit(l, audit, b), c, x) == LatestAsset(audit, c, x)
    ensures LatestService(CascadeAudit(l, audit, b), c, x) == LatestService(audit, c, x)
  {
    if audit != [] {
      var n := |audit| - 1;
      CascadeKeepsLatest(l, audit[..n], b, c, x);
      var before := CascadeAudit(l, audit[..n], b);
      LatestAfterLog(before, audit[n], c, x);
      LatestAfterLog(before, audit[n].(asset := None), c, x);
    }
  }

  lemma {:induction false} CascadeAuditLinked(l: Lab, audit: seq<Audit>, b: Id)
    ensures forall i :: 0 <= i < |CascadeAudit(l, audit, b)| ==>
      var e := CascadeAudit(l, audit, b)[i];
      e.bubble != b && (exists j :: 0 <= j < |audit| && audit[j].bubble == e.bubble && (e.asset.Some? ==> e.asset == audit[j].asset)) &&
      (e.asset.Some? ==> !AssetInBubble(l, e.asset.value, b))
  {
    if audit != [] {
      var n := |audit| - 1;
      var before := CascadeAudit(l, audit[..n], b);
      CascadeAuditLinked(l, audit[..n], b);
      var all := CascadeAudit(l, audit, b);
      forall i | 0 <= i < |all|
        ensures all[i].bubble != b
        ensures all[i].asset.Some? ==> !AssetInBubble(l, all[i].asset.value, b)
        ensures exists j :: 0 <= j < |audit| && audit[j].bubble == all[i].bubble && (all[i].asset.Some? ==> all[i].asset == audit[j].asset)
      {
        if i < |before| {
          assert all[i] == before[i];
          var j :| 0 <= j < n && audit[..n][j].bubble == before[i].bubble && (before[i].asset.Some? ==> before[i].asset == audit[..n][j].asset);
          assert audit[j] == audit[..n][j];
        } else {
          assert audit[n].bubble == all[i].bubble;
        }
      }
    }
  }

  /** The positions of the events of other bubbles. */
  function Kept(audit: seq<Audit>, b: Id): (kept: seq<nat>) {
    if audit == [] then []
    else
      var n := |audit| - 1;
      if audit[n].bubble == b then Kept(audit[..n], b) else Kept(audit[..n], b) + [n]
  }

  predicate Ascend(ks: seq<nat>, n: nat) {
    (forall i :: 0 <= i < |ks| ==> ks[i] < n) && forall i, j :: 0 <= i < j < |ks| ==> ks[i] < ks[j]
  }

  lemma {:induction false} KeptAscend(audit: seq<Audit>, b: Id)
    ensures Ascend(Kept(audit, b), |audit|)
  {
    if audit != [] { KeptAscend(audit[..|audit| - 1], b); }
  }

  lemma {:induction false} KeptIff(audit: seq<Audit>, b: Id, k: nat)
    requires k < |audit|
    ensures k in Kept(audit, b) <==> audit[k].bubble != b
  {
    var n := |audit| - 1;
    var before := Kept(audit[..n], b);
    if k < n {
      KeptIff(audit[..n], b, k);
      assert audit[..n][k] == audit[k];
    } else {
      KeptAscend(audit[..n], b);
      assert n !in before;
    }
    assert k in before + [n] <==> k in before || k == n;
  }

  /** What a deletion leaves of the log: the events of the other bubbles, in their order, each without its asset if that
      was deleted. */
  lemma {:induction false} CascadeAuditKeeps(l: Lab, audit: seq<Audit>, b: Id, i: nat)
    ensures |CascadeAudit(l, audit, b)| == |Kept(audit, b)|
    ensures i < |Kept(audit, b)| ==>
      && Kept(audit, b)[i] < |audit|
      && var e := audit[Kept(audit, b)[i]];
         CascadeAudit(l, audit, b)[i] ==
           if e.asset.Some? && e.asset.value in l.assets && l.assets[e.asset.value].bubble == b then e.(asset := None) else e
  {
    KeptAscend(audit, b);
    if audit != [] {
      var n := |audit| - 1;
      CascadeAuditKeeps(l, audit[..n], b, i);
    }
  }

  lemma DeleteKeepsInv(l: Lab, b: Id)
    requires Inv(l) && b in l.bubbles
    ensures Inv(Apply(l, DeleteBubble(b)))
  {
    var r := Apply(l, DeleteBubble(b));
    CascadeAuditLinked(l, l.audit, b);
    forall a | a in r.assets ensures LatestAsset(r.audit, r.assets[a].bubble, a) == Some(r.assets[a]) {
      CascadeKeepsLatest(l, l.audit, b, l.assets[a].bubble, a);
    }
    forall s | s in r.services
      ensures r.services[s] == l.services[s]
      ensures LatestService(r.audit, r.services[s].bubble, s) == Some(r.services[s])
    {
      CascadeKeepsLatest(l, l.audit, b, l.services[s].bubble, s);
    }
  }

  /** Writing one asset row together with its snapshot. */
  lemma AssetWriteKeepsInv(l: Lab, a: Id, row: Asset, e: Audit)
    requires Inv(l) && row.bubble in l.bubbles
    requires e.bubble == row.bubble && e.asset == Some(a) && e.after == OfAsset(a, row)
    requires !ProvidesElsewhere(l, a, row.bubble)
    ensures Inv(Log(l.(assets := l.assets[a := row]), e))
  {
    var r := Log(l.(assets := l.assets[a := row]), e);
    forall x | x in r.assets ensures LatestAsset(r.audit, r.assets[x].bubble, x) == Some(r.assets[x]) {
      LatestAfterLog(l.audit, e, r.assets[x].bubble, x);
    }
    forall s | s in r.services
      ensures LatestService(r.audit, r.services[s].bubble, s) == Some(r.services[s])
      ensures r.services[s].provider.Some? ==> AssetInBubble(r, r.services[s].provider.value, r.services[s].bubble)
    {
      LatestAfterLog(l.audit, e, r.services[s].bubble, s);
    }
  }

  lemma ServiceWriteKeepsInv(l: Lab, s: Id, row: Service, e: Audit)
    requires Inv(l) && row.bubble in l.bubbles
    requires e.bubble == row.bubble && e.asset == None && e.after == OfService(s, row)
    requires row.provider.Some? ==> AssetInBubble(l, row.provider.value, row.bubble)
    ensures Inv(Log(l.(services := l.services[s := row]), e))
  {
    var r := Log(l.(services := l.services[s := row]), e);
    forall a | a in r.assets ensures LatestAsset(r.audit, r.assets[a].bubble, a) == Some(r.assets[a]) {
      LatestAfterLog(l.audit, e, r.assets[a].bubble, a);
    }
    forall x | x in r.services ensures LatestService(r.audit, r.services[x].bubble, x) == Some(r.services[x]) {
      LatestAfterLog(l.audit, e, r.services[x].bubble, x);
    }
  }

  /** Logging an event that carries no snapshot. */
  lemma PlainLogKeepsInv(l: Lab, services: map<Id, Service>, e: Audit)
    requires Inv(l) && e.bubble in l.bubbles && e.after == Nothing && (e.asset.Some? ==> e.asset.value in l.assets)
    requires services.Keys <= l.services.Keys && forall s :: s in services ==> services[s] == l.services[s]
    ensures Inv(Log(l.(services := services), e))
  {
    var r := Log(l.(services := services), e);
    forall a | a in r.assets ensures LatestAsset(r.audit, r.assets[a].bubble, a) == Some(r.assets[a]) {
      LatestAfterLog(l.audit, e, r.assets[a].bubble, a);
    }
    forall x | x in r.services ensures LatestService(r.audit, r.services[x].bubble, x) == Some(r.services[x]) {
      LatestAfterLog(l.audit, e, r.services[x].bubble, x);
    }
  }

  lemma OpKeepsInv(l: Lab, op: Op)
    requires Inv(l)
    ensures Inv(Apply(l, op))
  {
    if Accepts(l, op) {
      match op
      case CreateBubble(b) =>
      case DeleteBubble(b) => if b in l.bubbles { DeleteKeepsInv(l, b); }
      case AddAsset(a, b, fields, now) =>
        var row := Asset(b, fields, now);
        AssetWriteKeepsInv(l, a, row, Audit(b, Some(a), AssetAdded, Nothing, OfAsset(a, row)));
      case UpdateAsset(a, fields, now) =>
        var patch := Pick(fields, ASSET_COLUMNS);
        if patch != map[] {
          var was := l.assets[a];
          var row := was.(fields := was.fields + patch, updatedAt := now);
          AssetWriteKeepsInv(l, a, row, Audit(row.bubble, Some(a), AssetUpdated, OfAsset(a, was), OfAsset(a, row)));
        }
      case MoveAsset(a, b, now) =>
        var was := l.assets[a];
        var row := was.(bubble := b, updatedAt := now);
        AssetWriteKeepsInv(l, a, row, Audit(b, Some(a), AssetMoved, OfAsset(a, was), OfAsset(a, row)));
      case AddService(s, b, provider, fields, now) =>
        var row := Service(b, provider, fields, now);
        ServiceWriteKeepsInv(l, s, row, Audit(b, None, ServiceAdded, Nothing, OfService(s, row)));
      case UpdateService(s, provider, fields, now) =>
        var patch := Pick(fields, SERVICE_COLUMNS);
        if provider.Some? || patch != map[] {
          var was := l.services[s];
          var row := was.(provider := provider.GetOr(was.provider), fields := was.fields + patch, updatedAt := now);
          ServiceWriteKeepsInv(l, s, row, Audit(row.bubble, None, ServiceUpdated, OfService(s, was), OfService(s, row)));
        }
      case DeleteService(s) =>
        if s in l.services {
          PlainLogKeepsInv(l, l.services - {s}, Audit(l.services[s].bubble, None, ServiceDeleted, OfService(s, l.services[s]), Nothing));
        }
      case NoteReadiness(b, dc) =>
        PlainLogKeepsInv(l, l.services, Audit(b, Some(dc), ReadinessUpdated, Nothing, Nothing));
    }
  }

  function Reach(ops: seq<Op>): (l: Lab) {
    if ops == [] then EMPTY else Apply(Reach(ops[..|ops| - 1]), ops[|ops| - 1])
  }

  /** In every reachable store each service's provider is an asset of the service's own bubble, and the
      newest snapshot of every live row in its bubble's log is the row. */
  lemma {:induction false} EveryStoreIsLinkedAndAudited(ops: seq<Op>)
    ensures Inv(Reach(ops))
  {
    if ops != [] {
      EveryStoreIsLinkedAndAudited(ops[..|ops| - 1]);
      OpKeepsInv(Reach(ops[..|ops| - 1]), ops[|ops| - 1]);
    }
  }

  /** Deleting a bubble takes its own rows and changes no other: no surviving service loses its provider. */
  lemma DeleteTouchesNothingElse(ops: seq<Op>, b: Id)
    ensures var l := Reach(ops); var r := Apply(l, DeleteBubble(b));
      && (forall s :: s in r.services <==> s in l.services && l.services[s].bubble != b)
      && (forall s :: s in r.services ==> r.services[s] == l.services[s])
      && (forall a :: a in r.assets <==> a in l.assets && l.assets[a].bubble != b)
      && (forall a :: a in r.assets ==> r.assets[a] == l.assets[a])
  {
    EveryStoreIsLinkedAndAudited(ops);
  }

  /** A move there and back restores the asset but for its update time, and both bubbles keep a record. */
  lemma MoveBackRestores(l: Lab, a: Id, b: Id, t0: int, t1: int)
    requires Inv(l) && Accepts(l, MoveAsset(a, b, t0))
    ensures var home := l.assets[a].bubble;
      var there := Apply(l, MoveAsset(a, b, t0));
      var back := Apply(there, MoveAsset(a, home, t1));
      && Accepts(there, MoveAsset(a, home, t1)) == !ProvidesElsewhere(l, a, home)
      && (Accepts(there, MoveAsset(a, home, t1)) ==>
           back.assets == l.assets[a := l.assets[a].(updatedAt := t1)] && back.services == l.services &&
           LatestAsset(back.audit, home, a) == Some(back.assets[a]))
  {
    var home := l.assets[a].bubble;
    var there := Apply(l, MoveAsset(a, b, t0));
    OpKeepsInv(l, MoveAsset(a, b, t0));
    OpKeepsInv(there, MoveAsset(a, home, t1));
    assert ProvidesElsewhere(there, a, home) == ProvidesElsewhere(l, a, home);
  }
}
