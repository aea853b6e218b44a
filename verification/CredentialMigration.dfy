/** Importing the legacy credentials: an id allocator, an upsert keyed by name, and the id map that
    task-sequence parameters are rewritten with. */
module CredentialMigration {
  import opened Prelude
  import opened CredentialRefs

  type Blob = seq<bv8>

  datatype Legacy = Legacy(id: int, name: string, kind: string, blob: Blob)
  datatype Cred = Cred(name: string, kind: string, blob: Blob)
  type Table = map<int, Cred>

  // ---------------------------------------------------------------- the allocator

  /** The least id from `n` on that is not in use. */
  function FirstFree(used: set<int>, n: int): (f: int)
    ensures n <= f && f !in used && forall k :: n <= k < f ==> k in used
    decreases |set u | u in used && u >= n|
  {
    if n !in used then n
    else
      (assert n in (set u | u in used && u >= n);
       SubsetCard(set u | u in used && u >= n + 1, (set u | u in used && u >= n) - {n});
       FirstFree(used, n + 1))
  }

  class Allocator {
    var used: set<int>
    var next: int

    constructor (used: set<int>, next: int)
      ensures this.used == used && this.next == next
    {
      this.used, this.next := used, next;
    }

    /** A usable legacy id is kept; otherwise the next free one is taken. */
    method ChooseId(rowId: int) returns (chosen: int)
      modifies this
      ensures chosen !in old(used) && used == old(used) + {chosen}
      ensures (chosen, next) == Choose(old(used), old(next), rowId)
      ensures chosen == rowId || (old(next) <= chosen < next && forall k :: old(next) <= k < chosen ==> k in old(used))
      ensures rowId > 0 && rowId !in old(used) <==> chosen == rowId && next == old(next)
    {
      if rowId > 0 && rowId !in used {
        used := used + {rowId};
        return rowId;
      }
      while next in used
        invariant used == old(used)
        invariant old(next) <= next <= FirstFree(used, old(next))
        invariant forall k :: old(next) <= k < next ==> k in used
        decreases FirstFree(used, old(next)) - next
      {
        next := next + 1;
      }
      chosen := next;
      assert chosen == FirstFree(old(used), old(next));
      used := used + {chosen};
      next := next + 1;
    }
  }

  function Choose(used: set<int>, next: int, rowId: int): (r: (int, int)) {
    if rowId > 0 && rowId !in used then (rowId, next)
    else var f := FirstFree(used, next); (f, f + 1)
  }

  // ---------------------------------------------------------------- the import

  /** The tables and maps while the rows are walked; `failed` is a refused insert, which rolls all back. */
  datatype Import = Import(
    table: Table, byName: map<string, int>, used: set<int>, next: int,
    ids: map<int, int>, inserted: nat, failed: bool)

  /** How blobs are re-encrypted and what an unnamed row is called. */
  datatype Env = Env(rewrap: Blob -> Blob, nameless: int -> string)

  const DEFAULT_KIND := "local_admin"

  function KindOf(row: Legacy): (k: string) { if row.kind == "" then DEFAULT_KIND else row.kind }

  predicate NameTaken(t: Table, name: string) { exists id :: id in t && t[id].name == name }

  function Step(env: Env, m: Import, row: Legacy): (r: Import) {
    if m.failed then m
    else if row.name in m.byName && m.byName[row.name] != 0 then
      var id := m.byName[row.name];
      m.(table := if id in m.table then m.table[id := m.table[id].(kind := KindOf(row), blob := env.rewrap(row.blob))] else m.table,
         ids := m.ids[row.id := id])
    else
      var (id, next) := Choose(m.used, m.next, row.id);
      var name := if row.name == "" then env.nameless(row.id) else row.name;
      if NameTaken(m.table, name) then m.(used := m.used + {id}, next := next, failed := true)
      else Import(m.table[id := Cred(name, KindOf(row), env.rewrap(row.blob))], m.byName[row.name := id],
                  m.used + {id}, next, m.ids[row.id := id], m.inserted + 1, false)
  }

  /** One row, whatever came before: it is known by its name, or goes in under a new id; a row without a name gets one
      made from its id; and it is refused, with all the others, exactly when its name stands in the table unknown to the
      index. */
  lemma RowMeans(env: Env, m: Import, row: Legacy)
    requires !m.failed
    ensures var r := Step(env, m, row);
      var known := row.name in m.byName && m.byName[row.name] != 0;
      var name := if row.name == "" then env.nameless(row.id) else row.name;
      && (r.failed <==> !known && exists id :: id in m.table && m.table[id].name == name)
      && (r.failed ==> r.table == m.table && r.ids == m.ids)
      && (!r.failed ==> row.id in r.ids && r.inserted == m.inserted + if known then 0 else 1)
      && (known ==> r.ids[row.id] == m.byName[row.name] && r.used == m.used && r.next == m.next && r.table.Keys == m.table.Keys)
      && (!known && !r.failed ==>
            && r.ids[row.id] !in m.used && r.used == m.used + {r.ids[row.id]}
            && (row.id > 0 && row.id !in m.used ==> r.ids[row.id] == row.id && r.next == m.next)
            && r.table == m.table[r.ids[row.id] :=
                 Cred(name, if row.kind == "" then "local_admin" else row.kind, env.rewrap(row.blob))]
            && r.byName == m.byName[row.name := r.ids[row.id]])
  {
    if !(row.name in m.byName && m.byName[row.name] != 0) {
      var f := FirstFree(m.used, m.next);
    }
  }

  // ---------------------------------------------------------------- where the import starts

  ghost predicate UniqueNames(t: Table) {
    forall a, b :: a in t && b in t && t[a].name == t[b].name ==> a == b
  }

  /** What the schema guarantees of the target: serial ids and unique names. */
  ghost predicate WellFormed(t: Table) {
    UniqueNames(t) && forall id :: id in t ==> id > 0
  }

  ghost predicate ByNameOf(t: Table, byName: map<string, int>) {
    && (forall name :: name in byName ==> byName[name] in t && t[byName[name]].name == name)
    && (forall id :: id in t ==> t[id].name in byName && byName[t[id].name] == id)
  }

  /** One more than every id on either side. */
  ghost predicate IsNextId(t: Table, rows: seq<Legacy>, n: int) {
    && n >= 1
    && (forall id :: id in t ==> id < n)
    && (forall k :: 0 <= k < |rows| ==> rows[k].id < n)
    && (n == 1 || n - 1 in t || exists k :: 0 <= k < |rows| && rows[k].id == n - 1)
  }

  function Begin(t: Table, byName: map<string, int>, n: int): (m: Import) {
    Import(t, byName, t.Keys, n, map[], 0, false)
  }

  ghost predicate DistinctIds(rows: seq<Legacy>) {
    forall i, j :: 0 <= i < j < |rows| ==> rows[i].id != rows[j].id
  }

  ghost predicate DistinctNames(rows: seq<Legacy>) {
    forall i, j :: 0 <= i < j < |rows| ==> rows[i].name != rows[j].name
  }

  ghost predicate Named(rows: seq<Legacy>) {
    forall i :: 0 <= i < |rows| ==> rows[i].name != ""
  }

  ghost predicate NewName(t: Table, name: string) { forall id :: id in t ==> t[id].name != name }

  function CredOf(env: Env, row: Legacy): (c: Cred) { Cred(row.name, KindOf(row), env.rewrap(row.blob)) }

  // ---------------------------------------------------------------- the invariant of the import

  ghost predicate Positive(t: Table) { forall id :: id in t ==> id > 0 }

  /** Every row of `a` is in `b` under the same name. */
  ghost predicate Keeps(a: Table, b: Table) {
    forall id :: id in a ==> id in b && b[id].name == a[id].name
  }

  ghost predicate Tables(t0: Table, m: Import) {
    && !m.failed
    && m.used == m.table.Keys
    && Positive(m.table)
    && ByNameOf(m.table, m.byName)
    && Keeps(t0, m.table)
    && |m.table| == |t0| + m.inserted
  }

  lemma IndexedNamesAreUnique(t: Table, byName: map<string, int>)
    requires ByNameOf(t, byName)
    ensures UniqueNames(t)
  {
    forall a, b | a in t && b in t && t[a].name == t[b].name ensures a == b {
      assert byName[t[a].name] == a && byName[t[b].name] == b;
    }
  }

  /** The legacy ids of the first `i` rows. */
  function IdsOf(rows: seq<Legacy>, i: nat): (ids: set<int>)
    requires i <= |rows|
  {
    if i == 0 then {} else IdsOf(rows, i - 1) + {rows[i - 1].id}
  }

  lemma {:induction false} IdsAre(rows: seq<Legacy>, i: nat, id: int)
    requires i <= |rows|
    ensures id in IdsOf(rows, i) <==> exists k :: 0 <= k < i && rows[k].id == id
  {
    if i > 0 {
      IdsAre(rows, i - 1, id);
      if id == rows[i - 1].id { assert 0 <= i - 1 < i; }
    }
  }

  lemma FreshId(rows: seq<Legacy>, i: nat)
    requires i < |rows| && DistinctIds(rows)
    ensures rows[i].id !in IdsOf(rows, i)
  {
    IdsAre(rows, i, rows[i].id);
  }

  /** Every id of the target was there before, is a legacy id, or was handed out from `n` on without gaps. */
  ghost predicate Allotted(t0: Table, seen: set<int>, n: int, m: Import) {
    && n <= m.next
    && (forall id :: id in m.table ==> id in t0 || n <= id < m.next || id in seen)
    && (forall id :: n <= id < m.next ==> id in m.table)
  }

  /** The map sends each legacy id seen so far to the row that bears its name. */
  ghost predicate Mapped(rows: seq<Legacy>, i: nat, m: Import)
    requires i <= |rows|
  {
    && m.ids.Keys == IdsOf(rows, i)
    && forall k :: 0 <= k < i ==> NamedAs(m, rows[k].id, rows[k].name)
  }

  ghost predicate NamedAs(m: Import, id: int, name: string) {
    id in m.ids && m.ids[id] in m.table && m.table[m.ids[id]].name == name
  }

  ghost predicate Domain(t0: Table, rows: seq<Legacy>, n: int) {
    WellFormed(t0) && IsNextId(t0, rows, n) && DistinctIds(rows) && Named(rows)
  }

  ghost predicate Inv(t0: Table, rows: seq<Legacy>, i: nat, n: int, m: Import)
    requires i <= |rows|
  {
    Tables(t0, m) && Allotted(t0, IdsOf(rows, i), n, m) && Mapped(rows, i, m)
  }

  /** Where a row goes: the row of its name, else its own id if free, else the counter. */
  function TargetOf(m: Import, row: Legacy): (id: int) {
    if row.name in m.byName then m.byName[row.name]
    else if row.id > 0 && row.id !in m.table then row.id
    else m.next
  }

  /** One step, when ids and names are in order: the row of that name is rewritten, or a new one is added. */
  ghost predicate Shaped(env: Env, m: Import, row: Legacy, r: Import) {
    var id := TargetOf(m, row);
    && !r.failed
    && r.table == m.table[id := CredOf(env, row)]
    && r.ids == m.ids[row.id := id]
    && if row.name in m.byName then
         r.byName == m.byName && r.used == m.used && r.next == m.next && r.inserted == m.inserted
       else
         && id !in m.table
         && r.byName == m.byName[row.name := id] && r.used == m.used + {id} && r.inserted == m.inserted + 1
         && r.next == (if row.id > 0 && row.id !in m.table then m.next else m.next + 1)
  }

  lemma UnindexedIsFree(t: Table, byName: map<string, int>, name: string)
    requires ByNameOf(t, byName) && name !in byName
    ensures !NameTaken(t, name)
  {
    forall id | id in t ensures t[id].name != name {
      assert t[id].name in byName;
    }
  }

  lemma InsertIsShaped(env: Env, m: Import, row: Legacy)
    requires !m.failed && row.name !in m.byName && row.name != ""
    requires !NameTaken(m.table, row.name) && m.used == m.table.Keys && m.next !in m.used
    ensures Shaped(env, m, row, Step(env, m, row))
  {
  }

  lemma StepIsShaped(env: Env, t0: Table, m: Import, row: Legacy)
    requires Tables(t0, m) && row.name != "" && m.next !in m.table
    ensures Shaped(env, m, row, Step(env, m, row))
    ensures row.name in m.byName ==> TargetSafe(m, row)
  {
    if row.name !in m.byName {
      UnindexedIsFree(m.table, m.byName, row.name);
      InsertIsShaped(env, m, row);
    }
  }

  /** The row written to is new or bears the same name. */
  ghost predicate TargetSafe(m: Import, row: Legacy) {
    TargetOf(m, row) in m.table ==> m.table[TargetOf(m, row)].name == row.name
  }

  lemma IndexUpdate(t: Table, byName: map<string, int>, c: Cred)
    requires ByNameOf(t, byName) && c.name in byName
    ensures ByNameOf(t[byName[c.name] := c], byName)
  {
  }

  lemma ShapedUpdate(env: Env, t0: Table, m: Import, row: Legacy, r: Import)
    requires Tables(t0, m) && Shaped(env, m, row, r) && row.name in m.byName
    ensures Tables(t0, r) && Keeps(m.table, r.table)
  {
    var id := TargetOf(m, row);
    assert id in m.table && m.table[id].name == row.name;
    IndexUpdate(m.table, m.byName, CredOf(env, row));
    assert r.table.Keys == m.table.Keys;
    SameCard(m.table, r.table);
  }

  lemma ShapedInsert(env: Env, t0: Table, m: Import, row: Legacy, r: Import)
    requires Tables(t0, m) && Shaped(env, m, row, r) && row.name !in m.byName && m.next > 0
    ensures Tables(t0, r) && Keeps(m.table, r.table)
  {
    var id := TargetOf(m, row);
    OneMore(m.table, id, CredOf(env, row));
  }

  lemma SameCard(a: Table, b: Table)
    requires a.Keys == b.Keys
    ensures |a| == |b|
  {
    assert |a| == |a.Keys| && |b| == |b.Keys|;
  }

  lemma OneMore(a: Table, id: int, c: Cred)
    requires id !in a
    ensures |a[id := c]| == |a| + 1
  {
    assert a[id := c].Keys == a.Keys + {id};
    assert |a[id := c]| == |a[id := c].Keys| && |a| == |a.Keys|;
  }

  lemma StillNamed(m: Import, r: Import, x: int, name: string, newId: int, target: int)
    requires NamedAs(m, x, name) && Keeps(m.table, r.table) && r.ids == m.ids[newId := target] && x != newId
    ensures NamedAs(r, x, name)
  {
    var id := m.ids[x];
    assert id in m.table;
  }

  lemma StillMapped(rows: seq<Legacy>, i: nat, m: Import, r: Import, target: int)
    requires i < |rows| && Mapped(rows, i, m)
    requires forall k :: 0 <= k < i ==> rows[k].id != rows[i].id
    requires r.ids == m.ids[rows[i].id := target]
    requires NamedAs(r, rows[i].id, rows[i].name)
    requires Keeps(m.table, r.table)
    ensures Mapped(rows, i + 1, r)
  {
    forall k | 0 <= k < i + 1 ensures NamedAs(r, rows[k].id, rows[k].name) {
      if k < i { StillNamed(m, r, rows[k].id, rows[k].name, rows[i].id, target); }
    }
  }

  lemma StillAllotted(env: Env, t0: Table, seen: set<int>, n: int, m: Import, row: Legacy, r: Import)
    requires Allotted(t0, seen, n, m) && Shaped(env, m, row, r)
    requires row.name in m.byName ==> TargetOf(m, row) in m.table
    ensures Allotted(t0, seen + {row.id}, n, r)
  {
    assert r.table.Keys == m.table.Keys + {TargetOf(m, row)};
  }

  lemma NextNotUsed(t0: Table, rows: seq<Legacy>, i: nat, n: int, m: Import)
    requires IsNextId(t0, rows, n) && i <= |rows| && Allotted(t0, IdsOf(rows, i), n, m)
    ensures m.next !in m.table && m.next > 0
  {
    IdsAre(rows, i, m.next);
  }

  lemma ShapedKeepsInv(env: Env, t0: Table, rows: seq<Legacy>, i: nat, n: int, m: Import, r: Import)
    requires DistinctIds(rows) && i < |rows| && Inv(t0, rows, i, n, m) && m.next > 0
    requires Shaped(env, m, rows[i], r)
    ensures Inv(t0, rows, i + 1, n, r)
  {
    if rows[i].name in m.byName { ShapedUpdate(env, t0, m, rows[i], r); } else { ShapedInsert(env, t0, m, rows[i], r); }
    StillAllotted(env, t0, IdsOf(rows, i), n, m, rows[i], r);
    StillMapped(rows, i, m, r, TargetOf(m, rows[i]));
  }

  // ---------------------------------------------------------------- a whole import

  /** What an import starts from: the environment, the target with its name index, the rows and the
      first id of the counter. */
  datatype Input = Input(env: Env, target: Table, byName: map<string, int>, rows: seq<Legacy>, n: int) {
    ghost predicate Ok() {
      Domain(target, rows, n) && ByNameOf(target, byName)
    }

    /** After the first `i` rows. */
    function At(i: nat): (m: Import)
      requires i <= |rows|
    {
      if i == 0 then Begin(target, byName, n) else Step(env, At(i - 1), rows[i - 1])
    }

    function Run(): (m: Import) { At(|rows|) }
  }

  lemma {:induction false} AtKeepsInv(x: Input, i: nat)
    requires x.Ok() && i <= |x.rows|
    ensures Inv(x.target, x.rows, i, x.n, x.At(i))
    decreases i, 0
  {
    if i > 0 {
      AtStep(x, i - 1);
    }
  }

  lemma {:induction false} AtStep(x: Input, i: nat)
    requires x.Ok() && i < |x.rows|
    ensures Inv(x.target, x.rows, i, x.n, x.At(i)) && Inv(x.target, x.rows, i + 1, x.n, x.At(i + 1))
    decreases i, 1
  {
    AtKeepsInv(x, i);
    GoodFrom(x, i, x.At(i), x.At(i + 1));
  }

  lemma AtIsGood(x: Input, i: nat)
    requires x.Ok() && i < |x.rows|
    ensures GoodStep(x, i, x.At(i), x.At(i + 1))
  {
    AtKeepsInv(x, i);
    GoodFrom(x, i, x.At(i), x.At(i + 1));
  }

  /** What later lemmas need of one step, free of quantifiers. */
  ghost predicate GoodStep(x: Input, i: nat, m: Import, r: Import)
    requires i < |x.rows|
  {
    && Shaped(x.env, m, x.rows[i], r)
    && TargetSafe(m, x.rows[i])
    && (x.rows[i].id in m.table <==> x.rows[i].id in x.target)
    && x.n <= m.next
  }

  lemma GoodFrom(x: Input, i: nat, m: Import, r: Import)
    requires x.Ok() && i < |x.rows| && Inv(x.target, x.rows, i, x.n, m) && r == Step(x.env, m, x.rows[i])
    ensures GoodStep(x, i, m, r) && Inv(x.target, x.rows, i + 1, x.n, r)
  {
    NextNotUsed(x.target, x.rows, i, x.n, m);
    StepIsShaped(x.env, x.target, m, x.rows[i]);
    TakenFromTheStart(x.target, x.rows, i, x.n, m);
    ShapedKeepsInv(x.env, x.target, x.rows, i, x.n, m, r);
  }

  /** The import as the sequence of its states. */
  ghost predicate IsTrace(x: Input, ms: seq<Import>) {
    && |ms| == |x.rows| + 1
    && ms[0] == Begin(x.target, x.byName, x.n)
    && forall i :: 0 <= i < |x.rows| ==> GoodStep(x, i, ms[i], ms[i + 1])
  }

  lemma TraceOf(x: Input) returns (ms: seq<Import>)
    requires x.Ok()
    ensures IsTrace(x, ms) && ms[|x.rows|] == x.Run()
  {
    ms := seq(|x.rows| + 1, i requires 0 <= i < |x.rows| + 1 => x.At(i));
    forall i | 0 <= i < |x.rows| ensures GoodStep(x, i, ms[i], ms[i + 1]) {
      AtIsGood(x, i);
    }
  }

  // ---------------------------------------------------------------- what the import guarantees

  /** The import commits. Every legacy credential lives on under its own name at the id the map gives, names
      stay unique, and what the target already had keeps its ids and names. */
  lemma NamesArePreserved(x: Input)
    requires x.Ok()
    ensures var m := x.Run();
      && !m.failed && WellFormed(m.table) && ByNameOf(m.table, m.byName)
      && m.ids.Keys == IdsOf(x.rows, |x.rows|)
      && (forall k :: 0 <= k < |x.rows| ==> NamedAs(m, x.rows[k].id, x.rows[k].name))
      && Keeps(x.target, m.table)
      && |m.table| == |x.target| + m.inserted
  {
    AtKeepsInv(x, |x.rows|);
    IndexedNamesAreUnique(x.Run().table, x.Run().byName);
  }

  lemma ShapedIds(env: Env, m: Import, row: Legacy, r: Import, id: int)
    requires Shaped(env, m, row, r) && (id in m.ids || id == row.id)
    ensures id in r.ids && r.ids[id] == if id == row.id then TargetOf(m, row) else m.ids[id]
  {
  }

  /** Once mapped, a legacy id keeps its target. */
  lemma {:induction false} MappingIsStable(x: Input, ms: seq<Import>, i: nat, j: nat)
    requires IsTrace(x, ms) && DistinctIds(x.rows) && i < j <= |x.rows|
    ensures x.rows[i].id in ms[j].ids && ms[j].ids[x.rows[i].id] == TargetOf(ms[i], x.rows[i])
    decreases j
  {
    if i + 1 < j {
      MappingIsStable(x, ms, i, j - 1);
      assert x.rows[i].id != x.rows[j - 1].id;
    }
    assert GoodStep(x, j - 1, ms[j - 1], ms[j - 1 + 1]);
    ShapedIds(x.env, ms[j - 1], x.rows[j - 1], ms[j], x.rows[i].id);
  }

  function NamesOf(rows: seq<Legacy>, i: nat): (names: set<string>)
    requires i <= |rows|
  {
    if i == 0 then {} else NamesOf(rows, i - 1) + {rows[i - 1].name}
  }

  lemma {:induction false} FreshName(rows: seq<Legacy>, i: nat, j: nat)
    requires i <= j < |rows| && DistinctNames(rows)
    ensures rows[j].name !in NamesOf(rows, i)
  {
    if i > 0 { FreshName(rows, i - 1, j); }
  }

  /** The names known before row `i` are the target's own and those of the rows before it. */
  lemma {:induction false} KnownNames(x: Input, ms: seq<Import>, i: nat)
    requires IsTrace(x, ms) && i <= |x.rows|
    ensures ms[i].byName.Keys == x.byName.Keys + NamesOf(x.rows, i)
  {
    if i > 0 {
      KnownNames(x, ms, i - 1);
      assert GoodStep(x, i - 1, ms[i - 1], ms[i - 1 + 1]);
      KnownNamesStep(x.env, ms[i - 1], x.rows[i - 1], ms[i]);
    }
  }

  lemma KnownNamesStep(env: Env, m: Import, row: Legacy, r: Import)
    requires Shaped(env, m, row, r)
    ensures r.byName.Keys == m.byName.Keys + {row.name}
  {
  }

  lemma NewNameUnindexed(t: Table, byName: map<string, int>, name: string)
    requires ByNameOf(t, byName) && NewName(t, name)
    ensures name !in byName
  {
    var id := if name in byName then byName[name] else 0;
    assert id in t ==> t[id].name != name;
  }

  /** A legacy id is taken, when its row's turn comes, only if it was taken at the start. */
  lemma TakenFromTheStart(t0: Table, rows: seq<Legacy>, i: nat, n: int, m: Import)
    requires i < |rows| && DistinctIds(rows) && IsNextId(t0, rows, n) && Inv(t0, rows, i, n, m)
    ensures rows[i].id in m.table <==> rows[i].id in t0
  {
    FreshId(rows, i);
  }

  /** A row with a new name keeps its legacy id exactly when that id was free at the start. */
  lemma LegacyIdKeptIffFree(x: Input, i: nat)
    requires x.Ok() && DistinctNames(x.rows) && i < |x.rows|
    requires x.rows[i].id > 0 && NewName(x.target, x.rows[i].name)
    ensures var id := x.rows[i].id;
      && id in x.Run().ids
      && (x.Run().ids[id] == id <==> id !in x.target)
      && (id in x.target ==> x.n <= x.Run().ids[id])
  {
    var ms := TraceOf(x);
    KnownNames(x, ms, i);
    FreshName(x.rows, i, i);
    NewNameUnindexed(x.target, x.byName, x.rows[i].name);
    MappingIsStable(x, ms, i, |x.rows|);
    assert GoodStep(x, i, ms[i], ms[i + 1]);
  }

  // ---------------------------------------------------------------- a second run

  predicate Holds(t: Table, id: int, c: Cred) { id in t && t[id] == c }

  /** With distinct names, what a row wrote is still there at the end. */
  lemma {:induction false} WrittenStays(x: Input, ms: seq<Import>, i: nat, j: nat)
    requires IsTrace(x, ms) && DistinctNames(x.rows) && i < j <= |x.rows|
    ensures Holds(ms[j].table, TargetOf(ms[i], x.rows[i]), CredOf(x.env, x.rows[i]))
    decreases j
  {
    assert GoodStep(x, j - 1, ms[j - 1], ms[j - 1 + 1]);
    if i + 1 < j {
      WrittenStays(x, ms, i, j - 1);
      assert x.rows[i].name != x.rows[j - 1].name;
      WrittenStep(x.env, ms[j - 1], x.rows[j - 1], ms[j], TargetOf(ms[i], x.rows[i]), CredOf(x.env, x.rows[i]));
    } else {
      ShapedWrites(x.env, ms[i], x.rows[i], ms[j]);
    }
  }

  lemma ShapedWrites(env: Env, m: Import, row: Legacy, r: Import)
    requires Shaped(env, m, row, r)
    ensures Holds(r.table, TargetOf(m, row), CredOf(env, row))
  {
  }

  lemma WrittenStep(env: Env, m: Import, row: Legacy, r: Import, id: int, c: Cred)
    requires TargetSafe(m, row) && Shaped(env, m, row, r)
    requires Holds(m.table, id, c) && c.name != row.name
    ensures Holds(r.table, id, c)
  {
  }

  /** The row went in as the legacy row says. */
  ghost predicate WrittenAs(env: Env, m: Import, row: Legacy) {
    NamedAs(m, row.id, row.name) && m.table[m.ids[row.id]] == CredOf(env, row)
  }

  lemma RunWrites(x: Input)
    requires x.Ok() && DistinctNames(x.rows)
    ensures forall k :: 0 <= k < |x.rows| ==> WrittenAs(x.env, x.Run(), x.rows[k])
    ensures forall k :: 0 <= k < |x.rows| ==>
      && x.rows[k].id in x.Run().ids && x.Run().ids[x.rows[k].id] in x.Run().table
      && var c := x.Run().table[x.Run().ids[x.rows[k].id]];
         && c.name == x.rows[k].name && c.blob == x.env.rewrap(x.rows[k].blob)
         && c.kind == if x.rows[k].kind == "" then "local_admin" else x.rows[k].kind
  {
    var ms := TraceOf(x);
    forall k | 0 <= k < |x.rows| ensures WrittenAs(x.env, ms[|x.rows|], x.rows[k]) {
      WrittenStays(x, ms, k, |x.rows|);
      MappingIsStable(x, ms, k, |x.rows|);
    }
  }

  /** The second run, from what the first one left. */
  ghost predicate Settled(m1: Import, rows: seq<Legacy>, i: nat, n: int, m: Import)
    requires i <= |rows|
  {
    && m.byName == m1.byName && m.inserted == 0 && m.next == n && !m.failed
    && m.table.Keys == m1.table.Keys
    && m.ids.Keys == IdsOf(rows, i)
    && forall id :: id in m.ids ==> id in m1.ids && m.ids[id] == m1.ids[id]
  }

  /** `m1` is where an import of the same rows ended. */
  ghost predicate EndOf(m1: Import, y: Input, whole: bool) {
    && y.target == m1.table && y.byName == m1.byName
    && (forall k :: 0 <= k < |y.rows| ==> NamedAs(m1, y.rows[k].id, y.rows[k].name))
    && (whole ==> forall k :: 0 <= k < |y.rows| ==> WrittenAs(y.env, m1, y.rows[k]))
  }

  lemma {:induction false} SecondRunStays(y: Input, ms: seq<Import>, m1: Import, i: nat, whole: bool)
    requires ByNameOf(m1.table, m1.byName) && EndOf(m1, y, whole) && IsTrace(y, ms) && i <= |y.rows|
    ensures Settled(m1, y.rows, i, y.n, ms[i])
    ensures whole ==> ms[i].table == m1.table
  {
    if i > 0 {
      SecondRunStays(y, ms, m1, i - 1, whole);
      var row := y.rows[i - 1];
      assert NamedAs(m1, row.id, row.name) && (whole ==> WrittenAs(y.env, m1, row));
      NamedIsIndexed(m1, row.id, row.name);
      assert GoodStep(y, i - 1, ms[i - 1], ms[i - 1 + 1]);
      SettledStep(y.env, m1, y.rows, i - 1, y.n, ms[i - 1], ms[i]);
    }
  }

  lemma NamedIsIndexed(m: Import, id: int, name: string)
    requires NamedAs(m, id, name) && ByNameOf(m.table, m.byName)
    ensures name in m.byName && m.byName[name] == m.ids[id]
  {
    var at := m.ids[id];
    assert at in m.table && m.table[at].name == name;
    assert m.table[at].name in m.byName;
  }

  lemma SettledStep(env: Env, m1: Import, rows: seq<Legacy>, i: nat, n: int, m: Import, r: Import)
    requires i < |rows| && Settled(m1, rows, i, n, m) && Shaped(env, m, rows[i], r)
    requires rows[i].id in m1.ids && rows[i].name in m1.byName && m1.byName[rows[i].name] == m1.ids[rows[i].id]
    requires m1.ids[rows[i].id] in m1.table
    ensures Settled(m1, rows, i + 1, n, r)
    ensures m.table == m1.table && m1.table[m1.ids[rows[i].id]] == CredOf(env, rows[i]) ==> r.table == m1.table
  {
    assert TargetOf(m, rows[i]) == m1.ids[rows[i].id];
    assert r.table.Keys == m.table.Keys;
    assert r.ids.Keys == m.ids.Keys + {rows[i].id};
  }

  lemma SettledIsSame(m1: Import, rows: seq<Legacy>, n: int, m2: Import)
    requires m1.ids.Keys == IdsOf(rows, |rows|) && Settled(m1, rows, |rows|, n, m2)
    ensures m2.inserted == 0 && !m2.failed && m2.ids == m1.ids && m2.table.Keys == m1.table.Keys
  {
    assert m2.ids.Keys == m1.ids.Keys;
    forall id | id in m1.ids ensures m2.ids[id] == m1.ids[id] {
      assert id in m2.ids;
    }
  }

  /** Running the import again inserts nothing, returns the same map, and, with distinct names, leaves the
      credentials as they are. */
  lemma SecondRunInsertsNothing(x: Input, y: Input)
    requires x.Ok() && y == Input(x.env, x.Run().table, x.Run().byName, x.rows, y.n)
    requires IsNextId(y.target, y.rows, y.n)
    ensures y.Run().inserted == 0 && !y.Run().failed && y.Run().ids == x.Run().ids
    ensures y.Run().table.Keys == x.Run().table.Keys
    ensures DistinctNames(x.rows) ==> y.Run().table == x.Run().table
  {
    var m1 := x.Run();
    NamesArePreserved(x);
    var whole := DistinctNames(x.rows);
    if whole { RunWrites(x); }
    var ms := TraceOf(y);
    SecondRunStays(y, ms, m1, |y.rows|, whole);
    SettledIsSame(m1, y.rows, y.n, y.Run());
  }

  // ---------------------------------------------------------------- what references mean

  /** A reference to a migrated credential, wherever it sits in a step's parameters, names the same
      credential after the rewrite as before. */
  lemma ReferencesKeepMeaning(x: Input, params: Json, path: seq<nat>, parse: string -> Option<int>, k: nat)
    requires x.Ok() && k < |x.rows|
    requires RefAt(params, path, parse) == Some(x.rows[k].id)
    ensures var ref := RefAt(Remap(params, x.Run().ids, parse), path, parse);
      ref.Some? && ref.value in x.Run().table && x.Run().table[ref.value].name == x.rows[k].name
  {
    NamesArePreserved(x);
    EveryRefIsRemapped(params, x.Run().ids, parse, path);
  }

  /** A row of a new name whose legacy id cannot be kept takes the next id of the counter. */
  predicate IsRenumbered(x: Input, row: Legacy) {
    row.name !in x.byName && (row.id <= 0 || row.id in x.target)
  }

  function Renumbered(x: Input, i: nat): (c: nat)
    requires i <= |x.rows|
  {
    if i == 0 then 0 else Renumbered(x, i - 1) + (if IsRenumbered(x, x.rows[i - 1]) then 1 else 0)
  }

  lemma {:induction false} CounterAdvances(x: Input, ms: seq<Import>, i: nat)
    requires DistinctNames(x.rows) && IsTrace(x, ms) && i <= |x.rows|
    ensures ms[i].next == x.n + Renumbered(x, i)
  {
    if i > 0 {
      CounterAdvances(x, ms, i - 1);
      KnownNames(x, ms, i - 1);
      FreshName(x.rows, i - 1, i - 1);
      assert GoodStep(x, i - 1, ms[i - 1], ms[i - 1 + 1]);
      CounterStep(x, ms[i - 1], x.rows[i - 1], ms[i]);
    }
  }

  lemma CounterStep(x: Input, m: Import, row: Legacy, r: Import)
    requires Shaped(x.env, m, row, r)
    requires row.id in m.table <==> row.id in x.target
    requires row.name in m.byName <==> row.name in x.byName
    ensures r.next == m.next + if IsRenumbered(x, row) then 1 else 0
  {
  }

  /** A reference to no legacy credential is left alone. It still names nothing afterwards exactly when its
      id is neither in the target already nor handed out to a renumbered row. */
  lemma DanglingRefs(x: Input, params: Json, path: seq<nat>, parse: string -> Option<int>, d: int)
    requires x.Ok() && DistinctNames(x.rows)
    requires RefAt(params, path, parse) == Some(d) && d !in IdsOf(x.rows, |x.rows|)
    ensures RefAt(Remap(params, x.Run().ids, parse), path, parse) == Some(d)
    ensures d !in x.Run().table <==> d !in x.target && !(x.n <= d < x.n + Renumbered(x, |x.rows|))
  {
    EveryRefIsRemapped(params, x.Run().ids, parse, path);
    MappedIds(x);
    DanglingIds(x, d);
  }

  lemma MappedIds(x: Input)
    requires x.Ok()
    ensures x.Run().ids.Keys == IdsOf(x.rows, |x.rows|)
  {
    AtKeepsInv(x, |x.rows|);
  }

  lemma DanglingIds(x: Input, d: int)
    requires x.Ok() && DistinctNames(x.rows) && d !in IdsOf(x.rows, |x.rows|)
    ensures d in x.Run().table <==> d in x.target || x.n <= d < x.n + Renumbered(x, |x.rows|)
  {
    var ms := TraceOf(x);
    CounterAdvances(x, ms, |x.rows|);
    AtKeepsInv(x, |x.rows|);
    OnlyAllotted(x.target, x.rows, x.n, x.Run(), d);
  }

  lemma OnlyAllotted(t0: Table, rows: seq<Legacy>, n: int, m: Import, d: int)
    requires Inv(t0, rows, |rows|, n, m) && d !in IdsOf(rows, |rows|)
    ensures d in m.table <==> d in t0 || n <= d < m.next
  {
  }

  /** Such a reference can come to name a credential it never named. */
  lemma DanglingRefCanBeCaptured(env: Env, parse: string -> Option<int>) returns (x: Input, params: Json)
    ensures x.Ok() && DistinctNames(x.rows)
    ensures RefAt(params, [0], parse) == Some(2) && 2 !in IdsOf(x.rows, |x.rows|) && 2 !in x.target
    ensures RefAt(Remap(params, x.Run().ids, parse), [0], parse) == Some(2) && 2 in x.Run().table
  {
    x := Input(env, map[1 := Cred("x", "", [])], map["x" := 1], [Legacy(1, "a", "", [])], 2);
    params := Obj([Field("credential_id", Num(2))]);
    IdsAre(x.rows, 1, 2);
    assert IsRenumbered(x, x.rows[0]);
    assert Renumbered(x, 1) == Renumbered(x, 0) + 1;
    DanglingRefs(x, params, [0], parse, 2);
  }

  // ---------------------------------------------------------------- the script's own loops

  /** The name index read before the first row is walked. */
  method IndexByName(t: Table) returns (byName: map<string, int>)
    requires UniqueNames(t)
    ensures ByNameOf(t, byName)
  {
    byName := map[];
    var todo := t.Keys;
    ghost var done := {};
    while todo != {}
      invariant todo !! done && todo + done == t.Keys
      invariant forall name :: name in byName ==> byName[name] in done && t[byName[name]].name == name
      invariant forall id :: id in done ==> t[id].name in byName && byName[t[id].name] == id
      decreases todo
    {
      ghost var some := PickFrom(todo);
      var id :| id in todo;
      byName := byName[t[id].name := id];
      todo := todo - {id};
      done := done + {id};
    }
  }

  method NextId(t: Table, rows: seq<Legacy>) returns (n: int)
    ensures IsNextId(t, rows, n)
  {
    var top := 0;
    var i := 0;
    while i < |rows|
      invariant 0 <= i <= |rows| && top >= 0
      invariant forall k :: 0 <= k < i ==> rows[k].id <= top
      invariant top == 0 || exists k :: 0 <= k < i && rows[k].id == top
    {
      if rows[i].id > top { top := rows[i].id; }
      i := i + 1;
    }
    ghost var legacy := top;
    var todo := t.Keys;
    ghost var done := {};
    while todo != {}
      invariant todo !! done && todo + done == t.Keys && top >= legacy
      invariant forall id :: id in done ==> id <= top
      invariant top == legacy || top in done
      decreases todo
    {
      ghost var some := PickFrom(todo);
      var id :| id in todo;
      if id > top { top := id; }
      todo := todo - {id};
      done := done + {id};
    }
    n := top + 1;
    assert forall id :: id in t ==> id in done;
  }

  class Importer {
    var credentials: Table
    var byName: map<string, int>
    var ids: map<int, int>
    var inserted: nat
    var failed: bool
    const alloc: Allocator

    function State(): (m: Import)
      reads this, alloc
    {
      Import(credentials, byName, alloc.used, alloc.next, ids, inserted, failed)
    }

    constructor (t: Table, byName: map<string, int>, alloc: Allocator)
      requires alloc.used == t.Keys
      ensures this.alloc == alloc && State() == Begin(t, byName, alloc.next)
    {
      this.credentials, this.byName, this.alloc := t, byName, alloc;
      this.ids, this.inserted, this.failed := map[], 0, false;
    }

    /** One legacy row: an update by name, or an insert under a chosen id. */
    method ImportRow(env: Env, row: Legacy)
      requires !failed
      modifies this, alloc
      ensures State() == Step(env, old(State()), row)
    {
      if row.name in byName && byName[row.name] != 0 {
        var id := byName[row.name];
        if id in credentials {
          credentials := credentials[id := credentials[id].(kind := KindOf(row), blob := env.rewrap(row.blob))];
        }
        ids := ids[row.id := id];
      } else {
        var id := alloc.ChooseId(row.id);
        var name := if row.name == "" then env.nameless(row.id) else row.name;
        if NameTaken(credentials, name) {
          failed := true;
        } else {
          credentials := credentials[id := Cred(name, KindOf(row), env.rewrap(row.blob))];
          byName := byName[row.name := id];
          ids := ids[row.id := id];
          inserted := inserted + 1;
        }
      }
    }
  }

  /** `_migrate_credentials`: what the rows walked one by one leave is the import, or nothing at all when
      an insert is refused and the transaction rolls back. */
  method MigrateCredentials(env: Env, t: Table, rows: seq<Legacy>)
    returns (result: Table, ids: map<int, int>, ok: bool, byName: map<string, int>, n: int)
    requires WellFormed(t)
    ensures ByNameOf(t, byName) && IsNextId(t, rows, n)
    ensures var x := Input(env, t, byName, rows, n);
      && ok == !x.Run().failed
      && (if ok then result == x.Run().table && ids == x.Run().ids else result == t)
  {
    byName := IndexByName(t);
    n := NextId(t, rows);
    var alloc := new Allocator(t.Keys, n);
    var importer := new Importer(t, byName, alloc);
    var i := 0;
    while i < |rows| && !importer.failed
      invariant 0 <= i <= |rows|
      invariant importer.alloc == alloc
      invariant importer.State() == Input(env, t, byName, rows, n).At(i)
    {
      importer.ImportRow(env, rows[i]);
      i := i + 1;
    }
    ok := !importer.failed;
    result, ids := if ok then importer.credentials else t, importer.ids;
    if !ok {
      FailureSticks(Input(env, t, byName, rows, n), i, |rows|);
    }
  }

  lemma {:induction false} FailureSticks(x: Input, i: nat, j: nat)
    requires i <= j <= |x.rows| && x.At(i).failed
    ensures x.At(j).failed
    decreases j
  {
    if i < j { FailureSticks(x, i, j - 1); }
  }
}
