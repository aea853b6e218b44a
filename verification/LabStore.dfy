/** The lab store's operations as methods over the four tables they update in place. Each call commits
    what the corresponding operation on values prescribes, or raises and leaves the tables alone, and
    keeps the invariant of every reachable store. */
module LabStore {
  import opened Prelude
  import opened LabBubbles

  class Store {
    var bubbles: set<Id>
    var assets: map<Id, Asset>
    var services: map<Id, Service>
    var audit: seq<Audit>

    function Tables(): (l: Lab)
      reads this
    {
      Lab(bubbles, assets, services, audit)
    }

    ghost predicate Valid()
      reads this
    {
      Inv(Tables())
    }

    constructor ()
      ensures Valid() && Tables() == EMPTY
    {
      bubbles, assets, services, audit := {}, map[], map[], [];
    }

    method RecordAuditEvent(e: Audit)
      requires e.bubble in bubbles && (e.asset.Some? ==> e.asset.value in assets)
      modifies this`audit
      ensures Tables() == Log(old(Tables()), e)
      ensures audit == old(audit) + [e]
    {
      audit := audit + [e];
    }

    method CreateBubble(b: Id) returns (ok: bool)
      requires Valid()
      modifies this
      ensures Valid() && Tables() == Apply(old(Tables()), LabBubbles.CreateBubble(b))
      ensures ok <==> b !in old(bubbles)
      ensures bubbles == old(bubbles) + {b} && assets == old(assets) && services == old(services) && audit == old(audit)
    {
      OpKeepsInv(Tables(), LabBubbles.CreateBubble(b));
      ok := b !in bubbles;
      if ok {
        bubbles := bubbles + {b};
      }
    }

    method DeleteBubble(b: Id) returns (existed: bool)
      requires Valid()
      modifies this
      ensures Valid() && Tables() == Apply(old(Tables()), LabBubbles.DeleteBubble(b))
      ensures existed <==> b in old(bubbles)
      ensures bubbles == old(bubbles) - {b}
      ensures assets == map a | a in old(assets) && old(assets)[a].bubble != b :: old(assets)[a]
      ensures forall s :: s in services ==> s in old(services) && services[s] == old(services)[s]
      ensures forall s :: s in old(services) && old(services)[s].bubble != b ==> s in services
    {
      OpKeepsInv(Tables(), LabBubbles.DeleteBubble(b));
      existed := b in bubbles;
      if existed {
        var l := Tables();
        bubbles := bubbles - {b};
        services := CascadeServices(l, b);
        assets := map a | a in assets && assets[a].bubble != b :: assets[a];
        audit := CascadeAudit(l, audit, b);
      }
    }

    method AddAsset(a: Id, b: Id, fields: Fields, now: int) returns (ok: bool)
      requires Valid()
      modifies this
      ensures Valid() && Tables() == Apply(old(Tables()), LabBubbles.AddAsset(a, b, fields, now))
      ensures ok <==> a !in old(assets) && b in old(bubbles)
      ensures !ok ==> Tables() == old(Tables())
      ensures ok ==> assets == old(assets)[a := Asset(b, fields, now)] && bubbles == old(bubbles) && services == old(services)
      ensures ok ==> audit == old(audit) + [Audit(b, Some(a), AssetAdded, Nothing, OfAsset(a, assets[a]))]
    {
      OpKeepsInv(Tables(), LabBubbles.AddAsset(a, b, fields, now));
      ok := a !in assets && b in bubbles;
      if ok {
        var row := Asset(b, fields, now);
        assets := assets[a := row];
        RecordAuditEvent(Audit(b, Some(a), AssetAdded, Nothing, OfAsset(a, row)));
      }
    }

    method UpdateAsset(a: Id, fields: Fields, now: int) returns (ok: bool)
      requires Valid()
      modifies this
      ensures Valid() && Tables() == Apply(old(Tables()), LabBubbles.UpdateAsset(a, fields, now))
      ensures ok <==> a in old(assets)
    {
      OpKeepsInv(Tables(), LabBubbles.UpdateAsset(a, fields, now));
      ok := a in assets;
      var patch := Pick(fields, ASSET_COLUMNS);
      if ok && patch != map[] {
        var was := assets[a];
        var row := was.(fields := was.fields + patch, updatedAt := now);
        assets := assets[a := row];
        RecordAuditEvent(Audit(row.bubble, Some(a), AssetUpdated, OfAsset(a, was), OfAsset(a, row)));
      }
    }

    /** The query for a service elsewhere that this asset provides. */
    method FindProvidedElsewhere(a: Id, b: Id) returns (found: Option<Id>)
      ensures found.Some? ==>
        found.value in services && services[found.value].provider == Some(a) && services[found.value].bubble != b
      ensures found.None? <==> !ProvidesElsewhere(Tables(), a, b)
    {
      found := None;
      var todo := services.Keys;
      while todo != {} && found.None?
        invariant todo <= services.Keys
        invariant found.Some? ==>
          found.value in services && services[found.value].provider == Some(a) && services[found.value].bubble != b
        invariant found.None? ==> forall s :: s in services && s !in todo ==>
          !(services[s].provider == Some(a) && services[s].bubble != b)
        decreases todo
      {
        ghost var some := PickFrom(todo);
        var s :| s in todo;
        if services[s].provider == Some(a) && services[s].bubble != b {
          found := Some(s);
        }
        todo := todo - {s};
      }
    }

    method MoveAsset(a: Id, b: Id, now: int) returns (ok: bool)
      requires Valid()
      modifies this
      ensures Valid() && Tables() == Apply(old(Tables()), LabBubbles.MoveAsset(a, b, now))
      ensures ok <==>
        && a in old(assets) && b in old(bubbles)
        && forall s :: s in old(services) && old(services)[s].provider == Some(a) ==> old(services)[s].bubble == b
      ensures !ok ==> Tables() == old(Tables())
      ensures bubbles == old(bubbles) && services == old(services)
      ensures ok ==>
        && assets == old(assets)[a := Asset(b, old(assets)[a].fields, now)]
        && audit == old(audit) + [Audit(b, Some(a), AssetMoved, OfAsset(a, old(assets)[a]), OfAsset(a, assets[a]))]
    {
      OpKeepsInv(Tables(), LabBubbles.MoveAsset(a, b, now));
      ok := false;
      if a in assets {
        var was := assets[a];
        var elsewhere := FindProvidedElsewhere(a, b);
        if elsewhere.None? && b in bubbles {
          var row := was.(bubble := b, updatedAt := now);
          assets := assets[a := row];
          RecordAuditEvent(Audit(b, Some(a), AssetMoved, OfAsset(a, was), OfAsset(a, row)));
          ok := true;
        }
      }
    }

    method AddService(s: Id, b: Id, provider: Option<Id>, fields: Fields, now: int) returns (ok: bool)
      requires Valid()
      modifies this
      ensures Valid() && Tables() == Apply(old(Tables()), LabBubbles.AddService(s, b, provider, fields, now))
      ensures ok <==>
        && s !in old(services) && b in old(bubbles)
        && (provider.Some? ==> provider.value in old(assets) && old(assets)[provider.value].bubble == b)
      ensures !ok ==> Tables() == old(Tables())
      ensures bubbles == old(bubbles) && assets == old(assets)
      ensures ok ==>
        && services == old(services)[s := Service(b, provider, fields, now)]
        && audit == old(audit) + [Audit(b, None, ServiceAdded, Nothing, OfService(s, services[s]))]
    {
      OpKeepsInv(Tables(), LabBubbles.AddService(s, b, provider, fields, now));
      ok := false;
      if provider.Some? && !AssetInBubble(Tables(), provider.value, b) {
        return;
      }
      if s !in services && b in bubbles {
        var row := Service(b, provider, fields, now);
        services := services[s := row];
        RecordAuditEvent(Audit(b, None, ServiceAdded, Nothing, OfService(s, row)));
        ok := true;
      }
    }

    method UpdateService(s: Id, provider: Option<Option<Id>>, fields: Fields, now: int) returns (ok: bool)
      requires Valid()
      modifies this
      ensures Valid() && Tables() == Apply(old(Tables()), LabBubbles.UpdateService(s, provider, fields, now))
      ensures ok <==> s in old(services) && (provider.Some? && provider.value.Some? ==>
        provider.value.value in old(assets) && old(assets)[provider.value.value].bubble == old(services)[s].bubble)
    {
      OpKeepsInv(Tables(), LabBubbles.UpdateService(s, provider, fields, now));
      ok := false;
      if s in services {
        var was := services[s];
        if provider.Some? && provider.value.Some? && !AssetInBubble(Tables(), provider.value.value, was.bubble) {
          return;
        }
        ok := true;
        var patch := Pick(fields, SERVICE_COLUMNS);
          if provider.Some? || patch != map[] {
          var row := was.(provider := provider.GetOr(was.provider), fields := was.fields + patch, updatedAt := now);
          services := services[s := row];
          RecordAuditEvent(Audit(row.bubble, None, ServiceUpdated, OfService(s, was), OfService(s, row)));
        }
      }
    }

    method UpdateReadiness(b: Id, dc: Id) returns (ok: bool)
      requires Valid()
      modifies this
      ensures Valid() && Tables() == Apply(old(Tables()), NoteReadiness(b, dc))
      ensures ok <==>
        && dc in old(assets) && old(assets)[dc].bubble == b
        && "asset_role" in old(assets)[dc].fields && old(assets)[dc].fields["asset_role"] == "domain_controller"
        && "membership_state" in old(assets)[dc].fields
        && (|| old(assets)[dc].fields["membership_state"] == "active"
            || old(assets)[dc].fields["membership_state"] == "provisioning")
      ensures bubbles == old(bubbles) && assets == old(assets) && services == old(services)
      ensures audit == if ok then old(audit) + [Audit(b, Some(dc), ReadinessUpdated, Nothing, Nothing)] else old(audit)
    {
      OpKeepsInv(Tables(), NoteReadiness(b, dc));
      ok := dc in assets && assets[dc].bubble == b && IsActiveController(assets[dc].fields);
      if ok { RecordAuditEvent(Audit(b, Some(dc), ReadinessUpdated, Nothing, Nothing)); }
    }

    method DeleteService(s: Id) returns (existed: bool)
      requires Valid()
      modifies this
      ensures Valid() && Tables() == Apply(old(Tables()), LabBubbles.DeleteService(s))
      ensures existed <==> s in old(services)
      ensures services == old(services) - {s} && bubbles == old(bubbles) && assets == old(assets)
      ensures !existed ==> audit == old(audit)
      ensures existed ==>
        audit == old(audit) + [Audit(old(services)[s].bubble, None, ServiceDeleted, OfService(s, old(services)[s]), Nothing)]
    {
      OpKeepsInv(Tables(), LabBubbles.DeleteService(s));
      existed := s in services;
      if existed {
        var was := services[s];
        services := services - {s};
        RecordAuditEvent(Audit(was.bubble, None, ServiceDeleted, OfService(s, was), Nothing));
      }
    }
  }
}
