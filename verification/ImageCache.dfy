/** The cache of operating-system images: a row per image, and the files they are stored in. */
module ImageCache {
  import opened Prelude
  import opened Text

  type Id = nat
  type Path = string
  type Bytes = seq<bv8>

  datatype Key = Key(
    entryType: string, version: string, architecture: string, language: string,
    activation: string, edition: string, fileName: string)

  datatype Status = Missing | Warming | Ready | Failed

  /** What the catalogue says to expect: 0 and "" mean it does not say. */
  datatype Expected = Expected(size: nat, sha1: string, sha256: string)

  datatype Entry = Entry(
    key: Key, status: Status, expected: Expected,
    path: Option<Path>, size: Option<nat>, sha1: Option<string>, sha256: Option<string>)

  type Rows = map<Id, Entry>
  type Files = map<Path, Bytes>

  datatype Cache = Cache(rows: Rows, files: Files)

  /** Digests in lower-case hexadecimal, and where a file of a type, version and name is kept. */
  datatype Env = Env(sha1: Bytes -> string, sha256: Bytes -> string, place: (string, string, string) -> Path)

  /** Architecture, language, activation and edition play no part. */
  function PathOf(env: Env, key: Key): (p: Path) { env.place(key.entryType, key.version, key.fileName) }

  // ---------------------------------------------------------------- what a download delivers

  /** Everything read before the first empty chunk. */
  function Received(chunks: seq<Bytes>): (b: Bytes) {
    if chunks == [] || chunks[0] == [] then [] else chunks[0] + Received(chunks[1..])
  }

  lemma {:induction false} ReceivedSplit(chunks: seq<Bytes>, i: nat)
    requires i <= |chunks| && forall k :: 0 <= k < i ==> chunks[k] != []
    ensures Received(chunks) == Received(chunks[..i]) + Received(chunks[i..])
  {
    if i > 0 {
      ReceivedSplit(chunks[1..], i - 1);
      assert chunks[1..][..i - 1] == chunks[..i][1..] && chunks[1..][i - 1..] == chunks[i..];
    }
  }

  predicate Meets(env: Env, e: Expected, b: Bytes) {
    && (e.sha1 == "" || env.sha1(b) == Lower(e.sha1))
    && (e.sha256 == "" || env.sha256(b) == Lower(e.sha256))
    && (e.size == 0 || |b| == e.size)
  }

  // ---------------------------------------------------------------- operations

  /** Once the file is in place: the row is made ready, or the process dies, or making it ready fails. */
  datatype Recording = Made | Dies | Fails

  /** How a warm goes: refused for lack of space, broken off, ended by the process dying, or delivered in full. */
  datatype Delivery = NoSpace | Broken | DiesEarly | Full(chunks: seq<Bytes>, recording: Recording)

  datatype Op =
    | Refresh(id: Id, key: Key, refused: bool, expected: Expected)
    | Warm(id: Id, delivery: Delivery)
    | Verify(id: Id)
    | Delete(id: Id)
    | NoticeMissing(id: Id)

  predicate HasKey(rows: Rows, key: Key, id: Id) { id in rows && rows[id].key == key }

  /** The catalogue row is inserted under `id`, or updates the row of the same key, whose status it leaves
      alone when ready. */
  function RefreshRow(rows: Rows, id: Id, key: Key, refused: bool, expected: Expected): (r: Rows)
    requires forall a, b :: a in rows && b in rows && HasKey(rows, key, a) && HasKey(rows, key, b) ==> a == b
  {
    var status := if refused then Failed else Missing;
    if exists a :: a in rows && HasKey(rows, key, a) then
      var a :| a in rows && HasKey(rows, key, a);
      rows[a := rows[a].(status := if rows[a].status == Ready then Ready else status, expected := expected)]
    else rows[id := Entry(key, status, expected, None, None, None, None)]
  }

  function Recorded(env: Env, e: Entry, status: Status, path: Path, b: Bytes): (r: Entry) {
    e.(status := status, path := Some(path), size := Some(|b|), sha1 := Some(env.sha1(b)), sha256 := Some(env.sha256(b)))
  }

  function Warmed(env: Env, s: Cache, id: Id, d: Delivery): (r: Cache)
    requires id in s.rows
  {
    var e := s.rows[id];
    match d
    case NoSpace => s
    case Broken => s.(rows := s.rows[id := e.(status := Failed)])
    case DiesEarly => s.(rows := s.rows[id := e.(status := Warming)])
    case Full(chunks, recording) =>
      var b, p := Received(chunks), PathOf(env, e.key);
      if !Meets(env, e.expected, b) then s.(rows := s.rows[id := e.(status := Failed)])
      else
        var row := match recording {
          case Made => Recorded(env, e, Ready, p, b)
          case Dies => e.(status := Warming)
          case Fails => e.(status := Failed)
        };
        Cache(s.rows[id := row], s.files[p := b])
  }

  function Verified(env: Env, s: Cache, id: Id): (r: Cache)
    requires id in s.rows
  {
    var e := s.rows[id];
    if e.path.None? || e.path.value !in s.files then s.(rows := s.rows[id := e.(status := Missing)])
    else
      var b := s.files[e.path.value];
      s.(rows := s.rows[id := Recorded(env, e, if Meets(env, e.expected, b) then Ready else Failed, e.path.value, b)])
  }

  function Deleted(s: Cache, id: Id): (r: Cache)
    requires id in s.rows
  {
    var e := s.rows[id];
    Cache(s.rows[id := e.(status := Missing, path := None, size := None, sha256 := None)],
          if e.path.Some? then s.files - {e.path.value} else s.files)
  }

  function Noticed(s: Cache, id: Id): (r: Cache)
    requires id in s.rows
  {
    var e := s.rows[id];
    if e.status == Ready && (e.path.None? || e.path.value !in s.files)
    then s.(rows := s.rows[id := e.(status := Missing)]) else s
  }

  /** Operations on an unknown row do nothing. */
  function Apply(env: Env, s: Cache, op: Op): (r: Cache)
    requires UniqueKeys(s.rows)
  {
    if op.Refresh? then s.(rows := RefreshRow(s.rows, op.id, op.key, op.refused, op.expected))
    else if op.id in s.rows then Act(env, s, op)
    else s
  }

  function Act(env: Env, s: Cache, op: Op): (r: Cache)
    requires !op.Refresh? && op.id in s.rows
  {
    match op
    case Warm(id, d) => Warmed(env, s, id, d)
    case Verify(id) => Verified(env, s, id)
    case Delete(id) => Deleted(s, id)
    case NoticeMissing(id) => Noticed(s, id)
  }

  // ---------------------------------------------------------------- the invariant

  ghost predicate UniqueKeys(rows: Rows) {
    forall a, b :: a in rows && b in rows && rows[a].key == rows[b].key ==> a == b
  }

  /** A ready row's file holds exactly what the row records. */
  ghost predicate Sound(env: Env, e: Entry, files: Files) {
    && (e.path.Some? ==> e.path.value == PathOf(env, e.key))
    && (e.status == Ready ==>
          && e.path.Some? && e.path.value in files
          && e.size == Some(|files[e.path.value]|)
          && e.sha1 == Some(env.sha1(files[e.path.value]))
          && e.sha256 == Some(env.sha256(files[e.path.value])))
  }

  ghost predicate Inv(env: Env, keys: set<Key>, s: Cache) {
    && UniqueKeys(s.rows)
    && forall id :: id in s.rows ==> s.rows[id].key in keys && Sound(env, s.rows[id], s.files)
  }

  /** No two of the images are kept in one place. */
  ghost predicate DistinctPaths(env: Env, keys: set<Key>) {
    forall a, b :: a in keys && b in keys && PathOf(env, a) == PathOf(env, b) ==> a == b
  }

  /** A new row gets a new id and one of the known keys. */
  ghost predicate Proper(keys: set<Key>, s: Cache, op: Op) {
    op.Refresh? ==> op.key in keys && (op.id !in s.rows || s.rows[op.id].key == op.key)
  }

  /** Only one row and one file are ever touched, and the file is that row's. */
  ghost predicate TouchesOnly(s: Cache, r: Cache, id: Id, p: Path) {
    && (forall a :: a in s.rows && a != id ==> a in r.rows && r.rows[a] == s.rows[a])
    && (forall a :: a in r.rows && a != id ==> a in s.rows)
    && (forall q :: q in s.files && q != p ==> q in r.files && r.files[q] == s.files[q])
  }

  lemma RowStepKeepsInv(env: Env, keys: set<Key>, s: Cache, r: Cache, id: Id)
    requires DistinctPaths(env, keys) && Inv(env, keys, s)
    requires id in r.rows && r.rows[id].key in keys && Sound(env, r.rows[id], r.files)
    requires forall a :: a in s.rows && s.rows[a].key == r.rows[id].key ==> a == id
    requires TouchesOnly(s, r, id, PathOf(env, r.rows[id].key))
    ensures Inv(env, keys, r)
  {
    forall a | a in r.rows ensures r.rows[a].key in keys && Sound(env, r.rows[a], r.files) {
      if a != id {
        assert Sound(env, s.rows[a], s.files);
        assert PathOf(env, s.rows[a].key) != PathOf(env, r.rows[id].key);
      }
    }
  }

  lemma RefreshKeepsInv(env: Env, keys: set<Key>, s: Cache, op: Op)
    requires DistinctPaths(env, keys) && Inv(env, keys, s) && Proper(keys, s, op) && op.Refresh?
    ensures Inv(env, keys, Apply(env, s, op))
  {
    var r := Apply(env, s, op);
    if exists a :: HasKey(s.rows, op.key, a) {
      var a :| HasKey(s.rows, op.key, a);
      assert Sound(env, s.rows[a], s.files);
      RowStepKeepsInv(env, keys, s, r, a);
    } else {
      assert op.id !in s.rows;
      RowStepKeepsInv(env, keys, s, r, op.id);
    }
  }

  lemma StepKeepsInv(env: Env, keys: set<Key>, s: Cache, op: Op)
    requires DistinctPaths(env, keys) && Inv(env, keys, s) && Proper(keys, s, op)
    ensures Inv(env, keys, Apply(env, s, op))
  {
    if op.Refresh? {
      RefreshKeepsInv(env, keys, s, op);
    } else if op.id in s.rows {
      ActKeepsSound(env, s, op);
      RowStepKeepsInv(env, keys, s, Act(env, s, op), op.id);
    }
  }

  lemma ActKeepsSound(env: Env, s: Cache, op: Op)
    requires !op.Refresh? && op.id in s.rows && Sound(env, s.rows[op.id], s.files)
    ensures var r := Act(env, s, op);
      && TouchesOnly(s, r, op.id, PathOf(env, s.rows[op.id].key))
      && op.id in r.rows && r.rows[op.id].key == s.rows[op.id].key
      && Sound(env, r.rows[op.id], r.files)
  {
  }

  // ---------------------------------------------------------------- whole runs

  ghost predicate IsRun(env: Env, keys: set<Key>, run: seq<Cache>, ops: seq<Op>) {
    && |run| == |ops| + 1
    && run[0].rows == map[]
    && forall k :: 0 <= k < |ops| ==> IsStep(env, keys, run[k], ops[k], run[k + 1])
  }

  ghost predicate IsStep(env: Env, keys: set<Key>, s: Cache, op: Op, r: Cache) {
    Proper(keys, s, op) && UniqueKeys(s.rows) && r == Apply(env, s, op)
  }

  /** Whatever is refreshed, warmed, verified and deleted, in whatever order, and wherever a warm dies: while
      images are kept apart, a ready row's file holds the bytes whose size and digests the row records. */
  lemma {:induction false} ReadyFilesMatch(env: Env, keys: set<Key>, run: seq<Cache>, ops: seq<Op>, k: nat)
    requires DistinctPaths(env, keys) && IsRun(env, keys, run, ops) && k < |run|
    ensures Inv(env, keys, run[k])
  {
    if k > 0 {
      ReadyFilesMatch(env, keys, run, ops, k - 1);
      assert IsStep(env, keys, run[k - 1], ops[k - 1], run[k - 1 + 1]);
      StepKeepsInv(env, keys, run[k - 1], ops[k - 1]);
    }
  }

  // ---------------------------------------------------------------- single operations

  /** Whatever the catalogue says of an image holds of the bytes: digests in either case, and the size. */
  predicate Agrees(env: Env, e: Expected, b: Bytes) {
    && (e.sha1 != "" ==> Lower(e.sha1) == env.sha1(b))
    && (e.sha256 != "" ==> Lower(e.sha256) == env.sha256(b))
    && (e.size > 0 ==> e.size == |b|)
  }

  /** What was received in full and meets what is expected. */
  predicate Delivered(env: Env, e: Entry, d: Delivery) { d.Full? && Agrees(env, e.expected, Received(d.chunks)) }

  /** Received is everything up to the first empty chunk. */
  lemma {:induction false} ReceivedUpTo(chunks: seq<Bytes>, rest: seq<Bytes>)
    requires (forall k :: 0 <= k < |chunks| ==> chunks[k] != []) && (rest == [] || rest[0] == [])
    ensures Received(chunks + rest) == Joined(chunks)
  {
    if chunks == [] {
      assert chunks + rest == rest;
    } else {
      assert (chunks + rest)[1..] == chunks[1..] + rest;
      ReceivedUpTo(chunks[1..], rest);
    }
  }

  function Joined(chunks: seq<Bytes>): (b: Bytes) { if chunks == [] then [] else chunks[0] + Joined(chunks[1..]) }

  /** A warm leaves every cached byte alone unless it delivered what is expected. Then the file holds just that, and
      the row is ready exactly when recording it succeeded too; of a warm that fails before, the row is failed. */
  lemma WarmIsAllOrNothing(env: Env, s: Cache, id: Id, d: Delivery)
    requires id in s.rows && UniqueKeys(s.rows) && !d.NoSpace?
    ensures var r := Apply(env, s, Warm(id, d)); var e := s.rows[id];
      && (!Delivered(env, e, d) ==> r.files == s.files && r.rows[id].status == if d.DiesEarly? then Warming else Failed)
      && (Delivered(env, e, d) ==> r.files == s.files[env.place(e.key.entryType, e.key.version, e.key.fileName) := Received(d.chunks)])
      && (r.rows[id].status == Ready <==> Delivered(env, e, d) && d.recording == Made)
  {
  }

  /** After a broken warm, verifying the old file makes the row ready again exactly when the bytes kept meet
      what is expected. */
  lemma VerifyRecovers(env: Env, keys: set<Key>, s: Cache, id: Id)
    requires Inv(env, keys, s) && id in s.rows && s.rows[id].status == Ready
    ensures var t := Apply(env, s, Warm(id, Broken));
      && UniqueKeys(t.rows) && t.files == s.files && t.rows[id].status == Failed
      && (Apply(env, t, Verify(id)) == s <==> Agrees(env, s.rows[id].expected, s.files[s.rows[id].path.value]))
  {
    var t := Apply(env, s, Warm(id, Broken));
    assert Sound(env, s.rows[id], s.files);
    var r := Apply(env, t, Verify(id));
    if Meets(env, s.rows[id].expected, s.files[s.rows[id].path.value]) {
      assert r.rows == s.rows;
    } else {
      assert r.rows[id].status == Failed;
    }
  }

  /** A refresh changes no file and never drops a ready row, nor what is recorded of it. */
  lemma RefreshKeepsReady(env: Env, s: Cache, op: Op, id: Id)
    requires UniqueKeys(s.rows) && op.Refresh? && id in s.rows && s.rows[id].status == Ready
    requires op.id !in s.rows || s.rows[op.id].key == op.key
    ensures var r := Apply(env, s, op);
      && r.files == s.files && id in r.rows
      && r.rows[id] == s.rows[id].(expected := if op.key == s.rows[id].key then op.expected else s.rows[id].expected)
  {
    if op.key == s.rows[id].key { assert HasKey(s.rows, op.key, id); }
  }

  /** A refresh of an unknown image adds a row for it, failed when it was refused and missing otherwise; of a known one it
      replaces the expectations and, unless the row is ready, the status. */
  lemma RefreshMeans(env: Env, s: Cache, id: Id, key: Key, refused: bool, expected: Expected, a: Id)
    requires UniqueKeys(s.rows) && (a in s.rows ==> id !in s.rows || id == a || s.rows[a].key != key)
    requires a !in s.rows ==> a == id && forall x :: x in s.rows ==> s.rows[x].key != key
    ensures var r := Apply(env, s, Refresh(id, key, refused, expected));
      var status := if refused then Failed else Missing;
      && r.files == s.files
      && (a !in s.rows ==> r.rows == s.rows[a := Entry(key, status, expected, None, None, None, None)])
      && (a in s.rows && s.rows[a].key == key ==>
            r.rows == s.rows[a := s.rows[a].(status := if s.rows[a].status == Ready then Ready else status, expected := expected)])
  {
    if a in s.rows && s.rows[a].key == key { assert HasKey(s.rows, key, a); }
  }

  /** The expectations of the catalogue hold of every ready file. */
  ghost predicate AsExpected(env: Env, s: Cache) {
    forall id :: id in s.rows && s.rows[id].status == Ready ==> FileMeets(env, s, id)
  }

  ghost predicate FileMeets(env: Env, s: Cache, id: Id)
    requires id in s.rows
  {
    var e := s.rows[id];
    e.path.Some? && e.path.value in s.files && Agrees(env, e.expected, s.files[e.path.value])
  }

  /** A step keeps ready files as expected exactly when it is not a refresh that gives a ready row an
      expectation its file does not meet: such a row stays ready until it is verified again. */
  lemma StaysAsExpected(env: Env, keys: set<Key>, s: Cache, op: Op)
    requires DistinctPaths(env, keys) && Inv(env, keys, s) && Proper(keys, s, op) && AsExpected(env, s)
    ensures AsExpected(env, Apply(env, s, op)) <==> !Outdates(env, s, op)
  {
    var r := Apply(env, s, op);
    if op.Refresh? {
      RefreshExpectations(env, s, op);
    } else if op.id in s.rows {
      ActKeepsSound(env, s, op);
      forall id | id in r.rows && r.rows[id].status == Ready ensures FileMeets(env, r, id) {
        if id != op.id { OtherFileMeets(env, keys, s, r, id, op.id); }
      }
    }
  }

  ghost predicate Outdates(env: Env, s: Cache, op: Op) {
    op.Refresh? && exists id :: HasKey(s.rows, op.key, id) && Unmet(env, s.rows[id], s.files, op.expected)
  }

  predicate Unmet(env: Env, e: Entry, files: Files, expected: Expected) {
    e.status == Ready && e.path.Some? && e.path.value in files && !Agrees(env, expected, files[e.path.value])
  }

  lemma RefreshExpectations(env: Env, s: Cache, op: Op)
    requires UniqueKeys(s.rows) && op.Refresh? && AsExpected(env, s)
    requires op.id !in s.rows || s.rows[op.id].key == op.key
    ensures AsExpected(env, Apply(env, s, op)) <==> !Outdates(env, s, op)
  {
    var r := Apply(env, s, op);
    if exists a :: HasKey(s.rows, op.key, a) {
      var a :| HasKey(s.rows, op.key, a);
      assert s.rows[a].status == Ready ==> FileMeets(env, s, a);
      assert AsExpected(env, r) <==> (s.rows[a].status == Ready ==> FileMeets(env, r, a)) by {
        forall id | id in r.rows && id != a && r.rows[id].status == Ready ensures FileMeets(env, r, id) {
          assert FileMeets(env, s, id);
        }
      }
    } else {
      forall id | id in r.rows && r.rows[id].status == Ready ensures FileMeets(env, r, id) {
        assert FileMeets(env, s, id);
      }
    }
  }

  lemma OtherFileMeets(env: Env, keys: set<Key>, s: Cache, r: Cache, id: Id, touched: Id)
    requires DistinctPaths(env, keys) && Inv(env, keys, s) && AsExpected(env, s)
    requires touched in s.rows && id != touched && id in s.rows && id in r.rows && s.rows[id].status == Ready
    requires r.rows[id] == s.rows[id] && TouchesOnly(s, r, touched, PathOf(env, s.rows[touched].key))
    ensures FileMeets(env, r, id)
  {
    assert Sound(env, s.rows[id], s.files) && FileMeets(env, s, id);
    assert s.rows[id].key != s.rows[touched].key;
  }

  /** Any ready row can be outdated so: a refresh expects another size, and the row stays ready. */
  lemma RefreshCanOutdate(env: Env, keys: set<Key>, s: Cache, id: Id) returns (op: Op)
    requires Inv(env, keys, s) && id in s.rows && s.rows[id].status == Ready
    ensures Proper(keys, s, op) && op.Refresh?
    ensures var r := Apply(env, s, op); id in r.rows && r.rows[id].status == Ready && !FileMeets(env, r, id)
  {
    var e := s.rows[id];
    assert Sound(env, e, s.files);
    op := Refresh(id, e.key, false, Expected(|s.files[e.path.value]| + 1, "", ""));
    RefreshKeepsReady(env, s, op, id);
  }

  // ---------------------------------------------------------------- images kept in one place

  /** Two rows that differ only in language, edition and the like share a file. Warm both, delete one, and the
      other is ready with no file. */
  lemma SharedPathBreaks(env: Env, s: Cache, a: Id, b: Id, chunksA: seq<Bytes>, chunksB: seq<Bytes>)
    requires UniqueKeys(s.rows) && a in s.rows && b in s.rows && a != b
    requires PathOf(env, s.rows[a].key) == PathOf(env, s.rows[b].key)
    requires Meets(env, s.rows[a].expected, Received(chunksA)) && Meets(env, s.rows[b].expected, Received(chunksB))
    ensures var s1 := Apply(env, s, Warm(a, Full(chunksA, Made)));
      UniqueKeys(s1.rows) &&
      var s2 := Apply(env, s1, Warm(b, Full(chunksB, Made)));
      UniqueKeys(s2.rows) &&
      var s3 := Apply(env, s2, Delete(b));
      && s3.rows[a].status == Ready && s3.rows[a].path == Some(PathOf(env, s.rows[a].key))
      && PathOf(env, s.rows[a].key) !in s3.files
      && (env.sha256(Received(chunksA)) != env.sha256(Received(chunksB)) ==> !Sound(env, s2.rows[a], s2.files))
  {
  }
}
