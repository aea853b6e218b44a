/** When a repeated sync leaves the last progress of a row alone, too. */
module PhaseProgress {
  import opened Prelude
  import opened PhaseStore

  /** The report carries a time of its own. */
  predicate Timed(a: Arrival) { a.report.progress.Some? || a.report.ended.Some? || a.report.started.Some? }

  predicate EndsBy(a: Arrival, p: int) { a.report.ended.Some? ==> a.report.ended.value <= p }

  /** Neither the start nor the end of the row is after its last progress. */
  predicate Settled(r: Row) { r.started <= r.lastProgress && (r.ended.Some? ==> r.ended.value <= r.lastProgress) }

  /** What a fold's last progress covers; the first report of a new row is the exception. */
  lemma {:induction false} Covered(row: Option<Row>, batch: seq<Arrival>)
    requires batch != []
    ensures var r := FoldRow(row, batch).value;
      && (forall i :: 0 <= i < |batch| ==> ProgressOf(batch[i]) <= r.lastProgress)
      && (forall i :: 0 <= i < |batch| && (i > 0 || row.Some?) ==> EndsBy(batch[i], r.lastProgress))
      && (|batch| > 1 || row.Some? ==> Settled(r))
  {
    var n := |batch| - 1;
    var rest, r := batch[..n], FoldRow(row, batch).value;
    if n > 0 {
      Covered(row, rest);
      assert FoldRow(row, rest).value.lastProgress <= r.lastProgress;
      forall i | 0 <= i < |batch|
        ensures ProgressOf(batch[i]) <= r.lastProgress && (i > 0 || row.Some? ==> EndsBy(batch[i], r.lastProgress))
      {
        if i < n { assert rest[i] == batch[i]; }
      }
    } else {
      assert rest == [];
    }
  }

  /** Reports that reach no further than a settled row leave its last progress. */
  lemma {:induction false} Stays(r: Row, batch: seq<Arrival>)
    requires Settled(r)
    requires forall i :: 0 <= i < |batch| ==> ProgressOf(batch[i]) <= r.lastProgress && EndsBy(batch[i], r.lastProgress)
    ensures var after := FoldRow(Some(r), batch).value; after.lastProgress == r.lastProgress && Settled(after)
  {
    if batch != [] {
      var n := |batch| - 1;
      assert forall i :: 0 <= i < n ==> batch[..n][i] == batch[i];
      Stays(r, batch[..n]);
    }
  }

  /** Reporting a batch of timed reports again leaves the last progress exactly when there was a row before, or neither
      the row's start nor the end of the first report is after it. */
  lemma ProgressTwice(row: Option<Row>, batch: seq<Arrival>, later: seq<Arrival>)
    requires batch != [] && Again(batch, later) && forall i :: 0 <= i < |batch| ==> Timed(batch[i])
    ensures var once := FoldRow(row, batch).value;
      FoldRow(FoldRow(row, batch), later).value.lastProgress == once.lastProgress <==>
        row.Some? || (once.started <= once.lastProgress && EndsBy(batch[0], once.lastProgress))
  {
    var once := FoldRow(row, batch).value;
    Covered(row, batch);
    Covered(Some(once), later);
    StartTwice(row, batch, later);
    assert later[0].report == batch[0].report;
    if row.Some? || (once.started <= once.lastProgress && EndsBy(batch[0], once.lastProgress)) {
      if |batch| == 1 { assert batch[..0] == []; }
      forall i | 0 <= i < |later| ensures ProgressOf(later[i]) <= once.lastProgress && EndsBy(later[i], once.lastProgress) {
        assert Timed(batch[i]) && later[i].report == batch[i].report && ProgressOf(later[i]) == ProgressOf(batch[i]);
      }
      Stays(once, later);
    }
  }

  /** So re-running the sync over unchanged, timed sources leaves the last progress of every row that was there before
      the first run, and of each other one under that condition. */
  lemma SyncProgressTwice(t: Table, items: seq<Item>, later: seq<Item>, key: Key)
    requires SyncedAgain(items, later) && Only(items, key) != []
    requires forall i :: 0 <= i < |Only(items, key)| ==> Timed(Only(items, key)[i])
    ensures var once := Sync(t, items); var twice := Sync(once, later);
      && key in once && key in twice
      && (twice[key].lastProgress == once[key].lastProgress <==>
           key in t || (once[key].started <= once[key].lastProgress && EndsBy(Only(items, key)[0], once[key].lastProgress)))
  {
    SyncRowwise(t, items, key);
    SyncRowwise(Sync(t, items), later, key);
    OnlyAgain(items, later, key);
    ProgressTwice(Get(t, key), Only(items, key), Only(later, key));
  }

  /** A new row that ended after the progress reported for it moves on when it is reported again. */
  lemma ProgressCanMove(r: Report, now: int)
    requires r.progress.Some? && r.ended.Some? && r.progress.value < r.ended.value
    ensures var once := Record(None, Arrival(r, now)); Record(Some(once), Arrival(r, now)).lastProgress > once.lastProgress
  {
  }
}
