/** The phase-timing store: one row per deployment and phase, into which every report is folded. */
module PhaseStore {
  import opened Prelude
  import opened PhaseMerge

  const MICROS := 1_000_000              // timestamps are in microseconds, durations in seconds

  /** What a caller reports about one phase; the evidence is the sanitised one. */
  datatype Report = Report(
    state: Phase, started: Option<int>, ended: Option<int>, progress: Option<int>,
    evidence: map<string, string>, error: Option<string>, origin: string)

  /** A report and the clock reading that stands in for a missing start. */
  datatype Arrival = Arrival(report: Report, now: int)

  datatype Row = Row(
    state: Phase, started: int, ended: Option<int>, lastProgress: int, duration: Option<int>,
    evidence: map<string, string>, error: Option<string>, origin: string)

  type Key = (string, string)            // deployment key, phase key
  type Table = map<Key, Row>

  function Duration(started: int, ended: Option<int>): (d: Option<int>)
    ensures d.Some? <==> ended.Some?
    ensures d.Some? ==> d.value >= 0
  {
    if ended.Some? then Some(MaxInt(0, (ended.value - started) / MICROS)) else None
  }

  function StartOf(a: Arrival): (s: int) { a.report.started.GetOr(a.now) }

  function ProgressOf(a: Arrival): (p: int) {
    a.report.progress.Else(a.report.ended).GetOr(StartOf(a))
  }

  function Record(row: Option<Row>, a: Arrival): (r: Row) {
    var rep := a.report;
    match row
    case None =>
      Row(rep.state, StartOf(a), rep.ended, ProgressOf(a), Duration(StartOf(a), rep.ended),
          rep.evidence, rep.error, rep.origin)
    case Some(c) =>
      var started := MinInt(c.started, StartOf(a));
      var ended := rep.ended.Else(c.ended);
      var progress := MaxInt(MaxInt(c.lastProgress, ProgressOf(a)), MaxInt(ended.GetOr(started), started));
      Row(Merge(Some(c.state), rep.state), started, ended, progress, Duration(started, ended),
          c.evidence + rep.evidence,
          if rep.state == Done || rep.state == Skipped then rep.error else rep.error.Else(c.error),
          rep.origin)
  }

  function FoldRow(row: Option<Row>, batch: seq<Arrival>): (r: Option<Row>)
    ensures row.Some? || batch != [] ==> r.Some?
  {
    if batch == [] then row else Some(Record(FoldRow(row, batch[..|batch| - 1]), batch[|batch| - 1]))
  }

  /** The duration is the whole seconds from the start to the end, if there is one, and 0 if that comes first. */
  predicate InSeconds(started: int, ended: Option<int>, d: Option<int>) {
    match ended
    case None => d == None
    case Some(e) =>
      && d.Some?
      && (started <= e ==> d.value * 1_000_000 <= e - started < (d.value + 1) * 1_000_000)
      && (e < started ==> d.value == 0)
  }

  // ---------------------------------------------------------------- field by field

  function StateOf(row: Option<Row>): (s: Option<Phase>) { if row.Some? then Some(row.value.state) else None }
  function EndOf(row: Option<Row>): (e: Option<int>) { if row.Some? then row.value.ended else None }
  function ErrorOf(row: Option<Row>): (e: Option<string>) { if row.Some? then row.value.error else None }
  function EvidenceAt(row: Option<Row>, key: string): (v: Option<string>) {
    if row.Some? && key in row.value.evidence then Some(row.value.evidence[key]) else None
  }

  function States(batch: seq<Arrival>): (s: seq<Phase>)
    ensures |s| == |batch|
  {
    seq(|batch|, i requires 0 <= i < |batch| => batch[i].report.state)
  }

  function EndOp(a: Arrival): (op: Option<Option<int>>) {
    if a.report.ended.Some? then Some(a.report.ended) else None
  }

  function ErrorOp(a: Arrival): (op: Option<Option<string>>) {
    if a.report.state == Done || a.report.state == Skipped || a.report.error.Some? then Some(a.report.error) else None
  }

  function EvidenceOp(a: Arrival, key: string): (op: Option<Option<string>>) {
    if key in a.report.evidence then Some(Some(a.report.evidence[key])) else None
  }

  function EndOps(batch: seq<Arrival>): (ops: seq<Option<Option<int>>>)
    ensures |ops| == |batch|
  {
    seq(|batch|, i requires 0 <= i < |batch| => EndOp(batch[i]))
  }

  function ErrorOps(batch: seq<Arrival>): (ops: seq<Option<Option<string>>>)
    ensures |ops| == |batch|
  {
    seq(|batch|, i requires 0 <= i < |batch| => ErrorOp(batch[i]))
  }

  function EvidenceOps(batch: seq<Arrival>, key: string): (ops: seq<Option<Option<string>>>)
    ensures |ops| == |batch|
  {
    seq(|batch|, i requires 0 <= i < |batch| => EvidenceOp(batch[i], key))
  }

  lemma {:induction false} FoldRowState(row: Option<Row>, batch: seq<Arrival>)
    ensures StateOf(FoldRow(row, batch)) == Fold(StateOf(row), States(batch))
  {
    if batch != [] {
      var n := |batch| - 1;
      FoldRowState(row, batch[..n]);
      assert States(batch)[..n] == States(batch[..n]);
    }
  }

  lemma {:induction false} FoldRowFields(row: Option<Row>, batch: seq<Arrival>, key: string)
    ensures EndOf(FoldRow(row, batch)) == Overridden(EndOf(row), EndOps(batch))
    ensures ErrorOf(FoldRow(row, batch)) == Overridden(ErrorOf(row), ErrorOps(batch))
    ensures EvidenceAt(FoldRow(row, batch), key) == Overridden(EvidenceAt(row, key), EvidenceOps(batch, key))
  {
    if batch != [] {
      var n := |batch| - 1;
      FoldRowFields(row, batch[..n], key);
      assert EndOps(batch)[..n] == EndOps(batch[..n]);
      assert ErrorOps(batch)[..n] == ErrorOps(batch[..n]);
      assert EvidenceOps(batch, key)[..n] == EvidenceOps(batch[..n], key);
    }
  }

  /** The start is the least start ever reported. */
  lemma {:induction false} FoldRowStart(row: Option<Row>, batch: seq<Arrival>)
    requires row.Some? || batch != []
    ensures var s := FoldRow(row, batch).value.started;
      && (row.Some? ==> s <= row.value.started)
      && (forall i :: 0 <= i < |batch| ==> s <= StartOf(batch[i]))
      && ((row.Some? && s == row.value.started) || exists i :: 0 <= i < |batch| && s == StartOf(batch[i]))
  {
    if batch != [] {
      var n := |batch| - 1;
      var rest := batch[..n];
      var s := FoldRow(row, batch).value.started;
      if n > 0 || row.Some? {
        FoldRowStart(row, rest);
        var s0 := FoldRow(row, rest).value.started;
        assert s == MinInt(s0, StartOf(batch[n]));
        forall i | 0 <= i < |batch| ensures s <= StartOf(batch[i]) {
          if i < n { assert rest[i] == batch[i]; }
        }
        if s == s0 && !(row.Some? && s == row.value.started) {
          var i :| 0 <= i < |rest| && s == StartOf(rest[i]);
          assert batch[i] == rest[i];
        }
      } else {
        assert rest == [];
        assert s == StartOf(batch[n]);
      }
    }
  }

  // ---------------------------------------------------------------- re-syncing

  /** The second pass reports the same things; only the clock has moved on. */
  predicate Again(batch: seq<Arrival>, later: seq<Arrival>) {
    && |batch| == |later|
    && forall i :: 0 <= i < |batch| ==> later[i].report == batch[i].report && later[i].now >= batch[i].now
  }

  /** All of the row but its last progress. */
  predicate SameTiming(a: Row, b: Row) {
    a.state == b.state && a.started == b.started && a.ended == b.ended && a.duration == b.duration &&
    a.evidence == b.evidence && a.error == b.error && a.origin == b.origin
  }

  lemma StateTwice(row: Option<Row>, batch: seq<Arrival>, later: seq<Arrival>)
    requires Again(batch, later)
    ensures StateOf(FoldRow(FoldRow(row, batch), later)) == StateOf(FoldRow(row, batch))
  {
    assert States(later) == States(batch);
    FoldRowState(row, batch);
    FoldRowState(FoldRow(row, batch), later);
    FoldTwice(StateOf(row), States(batch));
  }

  lemma StartTwice(row: Option<Row>, batch: seq<Arrival>, later: seq<Arrival>)
    requires batch != [] && Again(batch, later)
    ensures FoldRow(FoldRow(row, batch), later).value.started == FoldRow(row, batch).value.started
  {
    var once := FoldRow(row, batch);
    FoldRowStart(row, batch);
    FoldRowStart(once, later);
    forall i | 0 <= i < |later| ensures once.value.started <= StartOf(later[i]) {
      assert once.value.started <= StartOf(batch[i]);
    }
  }

  lemma FieldsTwice(row: Option<Row>, batch: seq<Arrival>, later: seq<Arrival>, key: string)
    requires Again(batch, later)
    ensures var once := FoldRow(row, batch); var twice := FoldRow(once, later);
      EndOf(twice) == EndOf(once) && ErrorOf(twice) == ErrorOf(once) && EvidenceAt(twice, key) == EvidenceAt(once, key)
  {
    assert EndOps(later) == EndOps(batch) && ErrorOps(later) == ErrorOps(batch);
    assert EvidenceOps(later, key) == EvidenceOps(batch, key);
    FoldRowFields(row, batch, key);
    FoldRowFields(FoldRow(row, batch), later, key);
    OverriddenTwice(EndOf(row), EndOps(batch));
    OverriddenTwice(ErrorOf(row), ErrorOps(batch));
    OverriddenTwice(EvidenceAt(row, key), EvidenceOps(batch, key));
  }

  /** Reporting a whole batch again, onto whatever row there was, changes nothing of the row but perhaps its last
      progress. */
  lemma BatchTwice(row: Option<Row>, batch: seq<Arrival>, later: seq<Arrival>)
    requires batch != [] && Again(batch, later)
    ensures SameTiming(FoldRow(row, batch).value, FoldRow(FoldRow(row, batch), later).value)
  {
    var once := FoldRow(row, batch);
    var twice := FoldRow(once, later);
    StateTwice(row, batch, later);
    StartTwice(row, batch, later);
    FieldsTwice(row, batch, later, "");
    forall key ensures EvidenceAt(Some(once.value), key) == EvidenceAt(Some(twice.value), key) {
      FieldsTwice(row, batch, later, key);
    }
    SameEvidence(once.value, twice.value);
  }

  lemma SameEvidence(a: Row, b: Row)
    requires forall key :: EvidenceAt(Some(a), key) == EvidenceAt(Some(b), key)
    ensures a.evidence == b.evidence
  {
    forall key ensures key in a.evidence <==> key in b.evidence {
      assert EvidenceAt(Some(a), key) == EvidenceAt(Some(b), key);
    }
    forall key | key in a.evidence ensures a.evidence[key] == b.evidence[key] {
      assert EvidenceAt(Some(a), key) == EvidenceAt(Some(b), key);
    }
  }

  // ---------------------------------------------------------------- the whole table

  datatype Item = Item(key: Key, arrival: Arrival)

  function Get(t: Table, key: Key): (r: Option<Row>) { if key in t then Some(t[key]) else None }

  function Sync(t: Table, items: seq<Item>): (r: Table) {
    if items == [] then t
    else
      var before := Sync(t, items[..|items| - 1]);
      var last := items[|items| - 1];
      before[last.key := Record(Get(before, last.key), last.arrival)]
  }

  /** The reports of a batch that concern one row, in order. */
  function Only(items: seq<Item>, key: Key): (batch: seq<Arrival>) {
    if items == [] then []
    else
      var before := Only(items[..|items| - 1], key);
      if items[|items| - 1].key == key then before + [items[|items| - 1].arrival] else before
  }

  /** Each row is the fold of its own reports. */
  lemma {:induction false} SyncRowwise(t: Table, items: seq<Item>, key: Key)
    ensures Get(Sync(t, items), key) == FoldRow(Get(t, key), Only(items, key))
  {
    if items != [] {
      var n := |items| - 1;
      SyncRowwise(t, items[..n], key);
      if items[n].key == key {
        var b := Only(items[..n], key);
        assert (b + [items[n].arrival])[..|b|] == b;
      }
    }
  }

  predicate SyncedAgain(items: seq<Item>, later: seq<Item>) {
    && |items| == |later|
    && forall i :: 0 <= i < |items| ==>
         later[i].key == items[i].key && later[i].arrival.report == items[i].arrival.report &&
         later[i].arrival.now >= items[i].arrival.now
  }

  lemma {:induction false} OnlyAgain(items: seq<Item>, later: seq<Item>, key: Key)
    requires SyncedAgain(items, later)
    ensures Again(Only(items, key), Only(later, key))
  {
    if items != [] {
      OnlyAgain(items[..|items| - 1], later[..|items| - 1], key);
    }
  }

  /** Re-running the sync over unchanged sources changes no phase row but perhaps in its last progress, however many
      reports of one pass fall on the same row, and adds none. */
  lemma SyncTwice(t: Table, items: seq<Item>, later: seq<Item>)
    requires SyncedAgain(items, later)
    ensures var once := Sync(t, items); var twice := Sync(once, later);
      once.Keys == twice.Keys && forall key :: key in once ==> SameTiming(once[key], twice[key])
  {
    var once := Sync(t, items);
    var twice := Sync(once, later);
    forall key ensures key in once <==> key in twice
      ensures key in once && key in twice ==> SameTiming(once[key], twice[key])
    {
      SyncRowwise(t, items, key);
      SyncRowwise(once, later, key);
      OnlyAgain(items, later, key);
      if Only(items, key) != [] {
        BatchTwice(Get(t, key), Only(items, key), Only(later, key));
      }
    }
  }

  /** However often and in whatever order a row was reported, its duration is that from its start to its end: for
      each row the sync writes, and for all of them if it was so before. */
  lemma DurationsAreSeconds(t: Table, items: seq<Item>, key: Key)
    requires key in Sync(t, items)
    requires Only(items, key) != [] || (key in t ==> InSeconds(t[key].started, t[key].ended, t[key].duration))
    ensures var row := Sync(t, items)[key]; InSeconds(row.started, row.ended, row.duration)
  {
    SyncRowwise(t, items, key);
    var batch := Only(items, key);
    if batch != [] {
      DurationOfFold(Get(t, key), batch);
    }
  }

  lemma DurationOfFold(row: Option<Row>, batch: seq<Arrival>)
    requires batch != []
    ensures var r := FoldRow(row, batch).value; InSeconds(r.started, r.ended, r.duration)
  {
    var r := FoldRow(row, batch).value;
    assert r.duration == Duration(r.started, r.ended);
    WholeSeconds(r.started, r.ended);
  }

  lemma WholeSeconds(started: int, ended: Option<int>)
    ensures InSeconds(started, ended, Duration(started, ended))
  {
    if ended.Some? {
      var micros := ended.value - started;
      assert micros == micros / MICROS * MICROS + micros % MICROS;
    }
  }

  // ---------------------------------------------------------------- the store

  class Store {
    var rows: Table

    constructor ()
      ensures rows == map[]
    {
      rows := map[];
    }

    method RecordPhase(key: Key, a: Arrival) returns (row: Row)
      modifies this
      ensures row == Record(Get(old(rows), key), a)
      ensures rows == old(rows)[key := row]
      ensures InSeconds(row.started, row.ended, row.duration)
      ensures row.origin == a.report.origin
      ensures row.started <= a.report.started.GetOr(a.now)
      ensures a.report.ended.Some? ==> row.ended == a.report.ended
      ensures key !in old(rows) ==>
        && row.state == a.report.state && row.started == a.report.started.GetOr(a.now) && row.ended == a.report.ended
        && row.lastProgress == a.report.progress.GetOr(a.report.ended.GetOr(row.started))
        && row.evidence == a.report.evidence && row.error == a.report.error
      ensures key in old(rows) ==> var was := old(rows)[key];
        && row.started <= was.started && (row.started == was.started || row.started == a.report.started.GetOr(a.now))
        && (a.report.ended.None? ==> row.ended == was.ended)
        && var told := a.report.progress.GetOr(a.report.ended.GetOr(a.report.started.GetOr(a.now)));
        && row.lastProgress >= was.lastProgress && row.lastProgress >= told
        && row.lastProgress >= row.started && row.lastProgress >= row.ended.GetOr(row.started)
        && (|| row.lastProgress == was.lastProgress || row.lastProgress == told
            || row.lastProgress == row.started || row.lastProgress == row.ended.GetOr(row.started))
        && (forall k :: k in row.evidence <==> k in was.evidence || k in a.report.evidence)
        && (forall k :: k in row.evidence ==>
              row.evidence[k] == if k in a.report.evidence then a.report.evidence[k] else was.evidence[k])
        && (a.report.state == Done || a.report.state == Skipped || a.report.error.Some? ==> row.error == a.report.error)
        && (a.report.state != Done && a.report.state != Skipped && a.report.error.None? ==> row.error == was.error)
        && (a.report.state == Failed ==> row.state == Failed)
        && (was.state == Failed && a.report.state != Done && a.report.state != Skipped ==> row.state == Failed)
        && (a.report.state == Done || a.report.state == Skipped ==> row.state == a.report.state)
        && (a.report.state == Pending || a.report.state == Running ==>
              row.state == if was.state == Pending || was.state == Running then a.report.state else was.state)
        && (a.report.state == Stale && was.state != Failed ==> row.state == Stale)
    {
      WholeSeconds(Record(Get(rows, key), a).started, Record(Get(rows, key), a).ended);
      var rep := a.report;
      var started := StartOf(a);
      var progress := ProgressOf(a);
      if key in rows {
        var c := rows[key];
        var mergedStart := MinInt(c.started, started);
        var mergedEnd := rep.ended.Else(c.ended);
        progress := MaxInt(MaxInt(c.lastProgress, progress), MaxInt(mergedEnd.GetOr(mergedStart), mergedStart));
        var error := if rep.state == Done || rep.state == Skipped then rep.error else rep.error.Else(c.error);
        row := Row(Merge(Some(c.state), rep.state), mergedStart, mergedEnd, progress,
                   Duration(mergedStart, mergedEnd), c.evidence + rep.evidence, error, rep.origin);
      } else {
        row := Row(rep.state, started, rep.ended, progress, Duration(started, rep.ended), rep.evidence, rep.error, rep.origin);
      }
      rows := rows[key := row];
    }

    /** One pass of `sync_from_sources` over the reports its producers read from the source tables. */
    method SyncFromSources(items: seq<Item>)
      modifies this
      ensures rows == Sync(old(rows), items)
    {
      var i := 0;
      assert items[..0] == [];
      while i < |items|
        invariant 0 <= i <= |items|
        invariant rows == Sync(old(rows), items[..i])
      {
        var row := RecordPhase(items[i].key, items[i].arrival);
        assert items[..i + 1][..i] == items[..i];
        i := i + 1;
      }
      assert items[..i] == items;
    }

    /** A progress note on a row leaves its state, end, duration and error alone, and never moves it back. */
    method ProgressPhase(key: Key, at: Option<int>, evidence: map<string, string>, now: int) returns (row: Option<Row>)
      modifies this
      ensures row.None? <==> key !in old(rows)
      ensures row.None? ==> rows == old(rows)
      ensures row.Some? ==> rows == old(rows)[key := row.value]
      ensures row.Some? ==>
        && row.value.state == old(rows)[key].state && row.value.started == old(rows)[key].started
        && row.value.ended == old(rows)[key].ended && row.value.error == old(rows)[key].error
        && row.value.lastProgress >= old(rows)[key].lastProgress && row.value.lastProgress >= at.GetOr(now)
        && row.value.evidence == old(rows)[key].evidence + evidence && row.value.origin == old(rows)[key].origin
    {
      row := None;
      if key in rows {
        var c := rows[key];
        var r := RecordPhase(key, Arrival(Report(c.state, Some(c.started), c.ended, Some(at.GetOr(now)), evidence, c.error, c.origin), now));
        row := Some(r);
      }
    }

    /** Ending a phase settles it as done from any state, and clears its error. */
    method EndPhase(key: Key, at: Option<int>, evidence: map<string, string>, now: int) returns (row: Option<Row>)
      modifies this
      ensures row.None? <==> key !in old(rows)
      ensures row.None? ==> rows == old(rows)
      ensures row.Some? ==> rows == old(rows)[key := row.value]
      ensures row.Some? ==> row.value.state == Done && row.value.error == None
      ensures row.Some? ==> row.value.evidence == old(rows)[key].evidence + evidence && row.value.origin == old(rows)[key].origin
      ensures row.Some? ==> row.value.lastProgress >= old(rows)[key].lastProgress && row.value.lastProgress >= at.GetOr(now)
      ensures row.Some? ==> InSeconds(row.value.started, row.value.ended, row.value.duration)
      ensures row.Some? ==> row.value.started == old(rows)[key].started && row.value.ended == Some(at.GetOr(now))
    {
      row := None;
      if key in rows {
        var c := rows[key];
        var r := RecordPhase(key, Arrival(Report(Done, Some(c.started), Some(at.GetOr(now)), None, evidence, None, c.origin), now));
        row := Some(r);
      }
    }

    /** Failing a phase settles it as failed from any state, with the given error. */
    method FailPhase(key: Key, at: Option<int>, error: string, evidence: map<string, string>, now: int) returns (row: Option<Row>)
      modifies this
      ensures row.None? <==> key !in old(rows)
      ensures row.None? ==> rows == old(rows)
      ensures row.Some? ==> rows == old(rows)[key := row.value]
      ensures row.Some? ==> row.value.state == Failed && row.value.error == Some(error)
      ensures row.Some? ==> row.value.evidence == old(rows)[key].evidence + evidence && row.value.origin == old(rows)[key].origin
      ensures row.Some? ==> row.value.lastProgress >= old(rows)[key].lastProgress && row.value.lastProgress >= at.GetOr(now)
      ensures row.Some? ==> InSeconds(row.value.started, row.value.ended, row.value.duration)
      ensures row.Some? ==> row.value.started == old(rows)[key].started && row.value.ended == Some(at.GetOr(now))
    {
      row := None;
      if key in rows {
        var c := rows[key];
        var r := RecordPhase(key, Arrival(Report(Failed, Some(c.started), Some(at.GetOr(now)), None, evidence, Some(error), c.origin), now));
        row := Some(r);
      }
    }
  }
}
