/** Carrying the steps of task sequences over: old steps of a known sequence go, the legacy ones come in with
    their credential references rewritten. */
module SequenceSteps {
  import opened Prelude
  import opened CredentialRefs
  import CM = CredentialMigration

  datatype Legacy = Legacy(sequence: int, order: int, stepType: string, params: Json, enabled: bool)
  datatype Step = Step(stepType: string, params: Json, enabled: bool)

  /** Rows are unique by sequence and position. */
  type Steps = map<(int, int), Step>

  datatype Maps = Maps(sequences: map<int, int>, credentials: map<int, int>, parse: string -> Option<int>)

  function Carried(m: Maps, row: Legacy): (s: Step) {
    Step(row.stepType, Remap(row.params, m.credentials, m.parse), row.enabled)
  }

  /** Where a legacy row goes; rows of sequences that were not migrated are skipped. */
  function TargetOf(m: Maps, sequence: int): (t: Option<int>) {
    if sequence in m.sequences && m.sequences[sequence] != 0 then Some(m.sequences[sequence]) else None
  }

  function Clear(t: Steps, targets: set<int>): (r: Steps) {
    map k | k in t && k.0 !in targets :: t[k]
  }

  function Upsert(m: Maps, t: Steps, row: Legacy): (r: Steps) {
    match TargetOf(m, row.sequence)
    case None => t
    case Some(q) => t[(q, row.order) := Carried(m, row)]
  }

  /** A row of a sequence that was not migrated, or not to any, is skipped; any other takes its position in the sequence
      its own went to. */
  lemma RowIsCarriedIff(m: Maps, t: Steps, row: Legacy)
    ensures Upsert(m, t, row) ==
      if row.sequence !in m.sequences || m.sequences[row.sequence] == 0 then t
      else t[(m.sequences[row.sequence], row.order) :=
             Step(row.stepType, Remap(row.params, m.credentials, m.parse), row.enabled)]
  {
  }

  function UpsertAll(m: Maps, t: Steps, rows: seq<Legacy>): (r: Steps) {
    if rows == [] then t else Upsert(m, UpsertAll(m, t, rows[..|rows| - 1]), rows[|rows| - 1])
  }

  /** The legacy rows of one sequence and position, in order. */
  function Only(rows: seq<Legacy>, sequence: int, order: int): (r: seq<Legacy>) {
    if rows == [] then []
    else Only(rows[..|rows| - 1], sequence, order) + Hit(rows[|rows| - 1], sequence, order)
  }

  function Hit(row: Legacy, sequence: int, order: int): (r: seq<Legacy>) {
    if row.sequence == sequence && row.order == order then [row] else []
  }

  predicate NotAfter(a: Legacy, b: Legacy) { a.sequence < b.sequence || (a.sequence == b.sequence && a.order <= b.order) }

  function InsertRow(sorted: seq<Legacy>, row: Legacy): (r: seq<Legacy>) {
    if sorted == [] || NotAfter(sorted[|sorted| - 1], row) then sorted + [row]
    else InsertRow(sorted[..|sorted| - 1], row) + [sorted[|sorted| - 1]]
  }

  function SortRows(rows: seq<Legacy>): (r: seq<Legacy>) {
    if rows == [] then [] else InsertRow(SortRows(rows[..|rows| - 1]), rows[|rows| - 1])
  }

  lemma OnlyAppend(rows: seq<Legacy>, row: Legacy, sequence: int, order: int)
    ensures Only(rows + [row], sequence, order) == Only(rows, sequence, order) + Hit(row, sequence, order)
  {
    assert (rows + [row])[..|rows|] == rows;
  }

  lemma {:induction false} InsertIsStable(sorted: seq<Legacy>, row: Legacy, sequence: int, order: int)
    ensures Only(InsertRow(sorted, row), sequence, order) == Only(sorted, sequence, order) + Hit(row, sequence, order)
  {
    if sorted == [] || NotAfter(sorted[|sorted| - 1], row) {
      OnlyAppend(sorted, row, sequence, order);
    } else {
      var front, last := sorted[..|sorted| - 1], sorted[|sorted| - 1];
      InsertIsStable(front, row, sequence, order);
      OnlyAppend(InsertRow(front, row), last, sequence, order);
    }
  }

  predicate IsSorted(rows: seq<Legacy>) { forall i, j :: 0 <= i < j < |rows| ==> NotAfter(rows[i], rows[j]) }

  lemma {:induction false} InsertSorts(sorted: seq<Legacy>, row: Legacy)
    requires IsSorted(sorted)
    ensures IsSorted(InsertRow(sorted, row)) && multiset(InsertRow(sorted, row)) == multiset(sorted) + multiset{row}
  {
    if sorted != [] && !NotAfter(sorted[|sorted| - 1], row) {
      var front, last := sorted[..|sorted| - 1], sorted[|sorted| - 1];
      assert sorted == front + [last];
      InsertSorts(front, row);
      var r := InsertRow(front, row);
      forall i | 0 <= i < |r| ensures NotAfter(r[i], last) {
        assert r[i] in multiset(r);
        assert r[i] == row || r[i] in front;
      }
    }
  }

  /** By sequence and position, every row once. */
  lemma {:induction false} SortSorts(rows: seq<Legacy>)
    ensures IsSorted(SortRows(rows)) && multiset(SortRows(rows)) == multiset(rows)
  {
    if rows != [] {
      var front, last := rows[..|rows| - 1], rows[|rows| - 1];
      assert rows == front + [last];
      SortSorts(front);
      InsertSorts(SortRows(front), last);
    }
  }

  lemma SortAscends(rows: seq<Legacy>, i: nat, j: nat)
    requires i < j < |SortRows(rows)|
    ensures var a, b := SortRows(rows)[i], SortRows(rows)[j];
      a.sequence < b.sequence || (a.sequence == b.sequence && a.order <= b.order)
  {
    SortSorts(rows);
  }

  /** Sorting changes nothing among rows of one sequence and position. */
  lemma {:induction false} SortIsStable(rows: seq<Legacy>, sequence: int, order: int)
    ensures Only(SortRows(rows), sequence, order) == Only(rows, sequence, order)
  {
    if rows != [] {
      SortIsStable(rows[..|rows| - 1], sequence, order);
      InsertIsStable(SortRows(rows[..|rows| - 1]), rows[|rows| - 1], sequence, order);
    }
  }

  /** The whole step import, given the sequences that were found again by name. */
  function Import(m: Maps, t: Steps, found: set<int>, rows: seq<Legacy>): (r: Steps) {
    UpsertAll(m, Clear(t, found), SortRows(rows))
  }

  method MigrateSteps(m: Maps, t: Steps, found: set<int>, rows: seq<Legacy>) returns (r: Steps)
    ensures r == Import(m, t, found, rows)
  {
    r := Clear(t, found);
    var sorted := SortRows(rows);
    var i := 0;
    while i < |sorted|
      invariant 0 <= i <= |sorted|
      invariant r == UpsertAll(m, Clear(t, found), sorted[..i])
    {
      assert sorted[..i + 1][..i] == sorted[..i];
      var target := TargetOf(m, sorted[i].sequence);
      if target.Some? {
        r := r[(target.value, sorted[i].order) := Carried(m, sorted[i])];
      }
      i := i + 1;
    }
    assert sorted[..i] == sorted;
  }

  // ---------------------------------------------------------------- what arrives

  /** No two legacy sequences went to one target. */
  ghost predicate Injective(m: Maps) {
    forall a, b :: a in m.sequences && b in m.sequences && m.sequences[a] == m.sequences[b] ==> a == b
  }

  ghost predicate IsTarget(m: Maps, q: int) { exists s :: s in m.sequences && m.sequences[s] == q }

  function Get(t: Steps, key: (int, int)): (s: Option<Step>) { if key in t then Some(t[key]) else None }

  function LastOf(m: Maps, rows: seq<Legacy>): (s: Option<Step>) {
    if rows == [] then None else Some(Carried(m, rows[|rows| - 1]))
  }

  lemma {:induction false} UpsertedAt(m: Maps, t: Steps, rows: seq<Legacy>, sequence: int, order: int)
    requires Injective(m) && TargetOf(m, sequence).Some?
    ensures var key := (m.sequences[sequence], order);
      Get(UpsertAll(m, t, rows), key) == LastOf(m, Only(rows, sequence, order)).Else(Get(t, key))
  {
    if rows != [] { UpsertedAt(m, t, rows[..|rows| - 1], sequence, order); }
  }

  lemma {:induction false} OthersUntouched(m: Maps, t: Steps, rows: seq<Legacy>, key: (int, int))
    requires forall s :: s in m.sequences ==> m.sequences[s] != key.0
    ensures Get(UpsertAll(m, t, rows), key) == Get(t, key)
  {
    if rows != [] { OthersUntouched(m, t, rows[..|rows| - 1], key); }
  }

  /** At each position of a migrated sequence stands the last legacy row for it, rewritten, or what was kept
      there; sequences nobody migrated keep all their steps. */
  lemma ImportedSteps(m: Maps, t: Steps, found: set<int>, rows: seq<Legacy>, sequence: int, order: int)
    requires Injective(m) && TargetOf(m, sequence).Some?
    ensures var key := (m.sequences[sequence], order);
      Get(Import(m, t, found, rows), key) == LastOf(m, Only(rows, sequence, order)).Else(Get(Clear(t, found), key))
    ensures m.sequences[sequence] in found ==>
      Get(Import(m, t, found, rows), (m.sequences[sequence], order)) == LastOf(m, Only(rows, sequence, order))
    ensures var mine, key, r := Only(rows, sequence, order), (m.sequences[sequence], order), Import(m, t, found, rows);
      mine != [] ==>
        && key in r
        && r[key].stepType == mine[|mine| - 1].stepType && r[key].enabled == mine[|mine| - 1].enabled
        && r[key].params == Remap(mine[|mine| - 1].params, m.credentials, m.parse)
  {
    SortIsStable(rows, sequence, order);
    UpsertedAt(m, Clear(t, found), SortRows(rows), sequence, order);
  }

  lemma OtherSequencesKeepTheirSteps(m: Maps, t: Steps, found: set<int>, rows: seq<Legacy>, key: (int, int))
    requires key.0 !in found && forall s :: s in m.sequences ==> m.sequences[s] != key.0
    ensures Get(Import(m, t, found, rows), key) == Get(t, key)
  {
    OthersUntouched(m, Clear(t, found), SortRows(rows), key);
  }

  /** Importing again, every migrated sequence now being found, leaves all steps as they are, provided the new
      sequences had no steps to begin with. */
  lemma ImportTwice(m: Maps, t: Steps, found: set<int>, rows: seq<Legacy>, again: set<int>)
    requires Injective(m) && !IsTarget(m, 0) && forall q :: q in again <==> IsTarget(m, q)
    requires found <= again && forall k :: k in t ==> k.0 !in again || k.0 in found
    ensures Import(m, Import(m, t, found, rows), again, rows) == Import(m, t, found, rows)
  {
    var once := Import(m, t, found, rows);
    var twice := Import(m, once, again, rows);
    forall key: (int, int) ensures Get(twice, key) == Get(once, key) {
      if key.0 in again {
        var s := PickKey(m.sequences, key.0);
        ImportedSteps(m, t, found, rows, s, key.1);
        ImportedSteps(m, once, again, rows, s, key.1);
        assert Get(Clear(t, found), key) == None;
      } else {
        OtherSequencesKeepTheirSteps(m, t, found, rows, key);
        OtherSequencesKeepTheirSteps(m, once, again, rows, key);
      }
    }
    SameSteps(twice, once);
  }

  lemma SameSteps(a: Steps, b: Steps)
    requires forall key: (int, int) :: Get(a, key) == Get(b, key)
    ensures a == b
  {
    forall key: (int, int) ensures (key in a <==> key in b) && (key in a ==> a[key] == b[key]) {
      assert Get(a, key) == Get(b, key);
    }
  }

  /** A step that arrives names, wherever its parameters name a migrated credential, the credential of the
      same name as before. */
  lemma StepsKeepTheirCredentials(m: Maps, x: CM.Input, row: Legacy, path: seq<nat>, k: nat)
    requires x.Ok() && k < |x.rows| && m.credentials == x.Run().ids
    requires RefAt(row.params, path, m.parse) == Some(x.rows[k].id)
    ensures var ref := RefAt(Carried(m, row).params, path, m.parse);
      ref.Some? && ref.value in x.Run().table && x.Run().table[ref.value].name == x.rows[k].name
  {
    CM.ReferencesKeepMeaning(x, row.params, path, m.parse, k);
  }

  // ---------------------------------------------------------------- the sequences come first

  /** Sequences are imported by name like credentials. Those known by name at the start are the ones whose old steps
      are cleared. */
  ghost predicate FoundByName(x: CM.Input, found: set<int>) {
    forall q :: q in found <==> exists k :: 0 <= k < |x.rows| && x.rows[k].name in x.byName && x.byName[x.rows[k].name] == q
  }

  lemma SequenceTargets(x: CM.Input, m: Maps, s: int) returns (k: nat)
    requires x.Ok() && m.sequences == x.Run().ids && s in m.sequences
    ensures k < |x.rows| && x.rows[k].id == s && CM.NamedAs(x.Run(), s, x.rows[k].name)
  {
    CM.NamesArePreserved(x);
    CM.IdsAre(x.rows, |x.rows|, s);
    k :| 0 <= k < |x.rows| && x.rows[k].id == s;
  }

  lemma SequencesAreInjective(x: CM.Input, m: Maps)
    requires x.Ok() && CM.DistinctNames(x.rows) && m.sequences == x.Run().ids
    ensures Injective(m) && !IsTarget(m, 0)
  {
    forall a, b | a in m.sequences && b in m.sequences && m.sequences[a] == m.sequences[b] ensures a == b {
      TargetsDiffer(x, m, a, b);
    }
    forall s | s in m.sequences ensures m.sequences[s] != 0 { TargetIsPositive(x, m, s); }
  }

  lemma TargetsDiffer(x: CM.Input, m: Maps, a: int, b: int)
    requires x.Ok() && CM.DistinctNames(x.rows) && m.sequences == x.Run().ids
    requires a in m.sequences && b in m.sequences && m.sequences[a] == m.sequences[b]
    ensures a == b
  {
    var i := SequenceTargets(x, m, a);
    var j := SequenceTargets(x, m, b);
    assert x.rows[i].name == x.rows[j].name;
  }

  lemma TargetIsPositive(x: CM.Input, m: Maps, s: int)
    requires x.Ok() && m.sequences == x.Run().ids && s in m.sequences
    ensures m.sequences[s] > 0
  {
    var k := SequenceTargets(x, m, s);
    CM.NamesArePreserved(x);
    assert m.sequences[s] in x.Run().table;
  }

  /** A migrated sequence is one of the target's own exactly when its name was known there. */
  lemma OwnSequencesWereFound(x: CM.Input, m: Maps, found: set<int>, s: int)
    requires x.Ok() && m.sequences == x.Run().ids && FoundByName(x, found) && s in m.sequences
    ensures m.sequences[s] in x.target ==> m.sequences[s] in found
  {
    var k := SequenceTargets(x, m, s);
    CM.NamesArePreserved(x);
    var q := m.sequences[s];
    if q in x.target {
      assert x.target[q].name == x.rows[k].name;
      assert x.target[q].name in x.byName && x.byName[x.target[q].name] == q;
    }
  }

  /** With steps only of sequences that exist, importing sequences and steps again leaves all steps as they are. */
  lemma StepsImportTwice(x: CM.Input, m: Maps, t: Steps, found: set<int>, rows: seq<Legacy>, again: set<int>)
    requires x.Ok() && CM.DistinctNames(x.rows) && m.sequences == x.Run().ids && FoundByName(x, found)
    requires forall key :: key in t ==> key.0 in x.target
    requires forall q :: q in again <==> IsTarget(m, q)
    ensures Import(m, Import(m, t, found, rows), again, rows) == Import(m, t, found, rows)
  {
    SequencesAreInjective(x, m);
    CM.NamesArePreserved(x);
    forall q | q in found ensures q in again {
      var k :| 0 <= k < |x.rows| && x.rows[k].name in x.byName && x.byName[x.rows[k].name] == q;
      FoundIsTarget(x, m, k);
    }
    forall key | key in t ensures key.0 !in again || key.0 in found {
      if key.0 in again {
        var s := PickKey(m.sequences, key.0);
        OwnSequencesWereFound(x, m, found, s);
      }
    }
    ImportTwice(m, t, found, rows, again);
  }

  /** A row whose name was known goes to the row of that name. */
  lemma FoundIsTarget(x: CM.Input, m: Maps, k: nat)
    requires x.Ok() && m.sequences == x.Run().ids && k < |x.rows| && x.rows[k].name in x.byName
    ensures IsTarget(m, x.byName[x.rows[k].name])
  {
    CM.NamesArePreserved(x);
    var id, q := x.rows[k].id, x.byName[x.rows[k].name];
    assert q in x.target && x.target[q].name == x.rows[k].name;
    assert CM.NamedAs(x.Run(), id, x.rows[k].name);
    assert x.Run().table[q].name == x.Run().table[m.sequences[id]].name;
    assert m.sequences[id] == q;
  }
}
