/** The cache repository itself: rows and files changed step by step. */
module ImageStore {
  import opened Prelude
  import opened Text
  import opened ImageCache

  /** What an open download yields: chunks until an empty one, or an error after some of them. */
  datatype Stream = Stream(chunks: seq<Bytes>, breaksAfter: Option<nat>)

  predicate Breaks(s: Stream) {
    s.breaksAfter.Some? && s.breaksAfter.value <= |s.chunks| && forall k :: 0 <= k < s.breaksAfter.value ==> s.chunks[k] != []
  }

  /** A download, and whether the row can be made ready after it. */
  function DeliveryOf(s: Stream, records: bool): (d: Delivery) {
    if Breaks(s) then Broken else Full(s.chunks, if records then Made else Fails)
  }

  class Store {
    const env: Env
    var rows: Rows
    var files: Files

    constructor (env: Env, files: Files)
      ensures this.env == env && State() == Cache(map[], files)
    {
      this.env := env;
      this.rows, this.files := map[], files;
    }

    function State(): (s: Cache)
      reads this
    {
      Cache(rows, files)
    }

    /** Missing values leave the row's own in place. */
    method MarkStatus(id: Id, status: Status, path: Option<Path>, size: Option<nat>, sha1: Option<string>, sha256: Option<string>)
      modifies this`rows
      ensures id !in old(rows) ==> rows == old(rows)
      ensures id in old(rows) ==> rows == old(rows)[id := old(rows)[id].(
        status := status, path := path.Else(old(rows)[id].path), size := size.Else(old(rows)[id].size),
        sha1 := sha1.Else(old(rows)[id].sha1), sha256 := sha256.Else(old(rows)[id].sha256))]
    {
      if id in rows {
        var e := rows[id];
        rows := rows[id := e.(status := status, path := path.Else(e.path), size := size.Else(e.size),
                              sha1 := sha1.Else(e.sha1), sha256 := sha256.Else(e.sha256))];
      }
    }

    method UpsertEntry(id: Id, key: Key, refused: bool, expected: Expected)
      requires UniqueKeys(rows)
      modifies this`rows
      ensures State() == Apply(env, old(State()), Refresh(id, key, refused, expected))
    {
      var status := if refused then Failed else Missing;
      if exists a :: a in rows && HasKey(rows, key, a) {
        var a :| a in rows && HasKey(rows, key, a);
        rows := rows[a := rows[a].(status := if rows[a].status == Ready then Ready else status, expected := expected)];
      } else {
        rows := rows[id := Entry(key, status, expected, None, None, None, None)];
      }
    }

    /** Reads to the end; the digests are of all that was read. */
    method Download(s: Stream) returns (bytes: Bytes, size: nat, ok: bool)
      ensures ok == !Breaks(s)
      ensures ok ==> bytes == Received(s.chunks) && size == |bytes|
    {
      bytes, size, ok := [], 0, true;
      var i := 0;
      while i < |s.chunks| && s.breaksAfter != Some(i) && s.chunks[i] != []
        invariant 0 <= i <= |s.chunks|
        invariant forall k :: 0 <= k < i ==> s.chunks[k] != [] && s.breaksAfter != Some(k)
        invariant bytes == Received(s.chunks[..i]) && size == |bytes|
      {
        ReceivedSplit(s.chunks[..i + 1], i);
        assert s.chunks[..i + 1][..i] == s.chunks[..i] && s.chunks[..i + 1][i..] == [s.chunks[i]];
        assert Received([s.chunks[i]]) == s.chunks[i] + Received([s.chunks[i]][1..]);
        bytes := bytes + s.chunks[i];
        size := size + |s.chunks[i]|;
        i := i + 1;
      }
      if s.breaksAfter == Some(i) { ok := false; return; }
      ReceivedSplit(s.chunks, i);
      assert Received(s.chunks[i..]) == [];
    }

    /** Downloads beside the cached file and puts the new one in place only once it is checked. */
    method WarmEntry(id: Id, hasSpace: bool, s: Stream, records: bool) returns (ok: bool)
      modifies this
      requires UniqueKeys(rows)
      ensures State() == Apply(env, old(State()), Warm(id, if hasSpace then DeliveryOf(s, records) else NoSpace))
      ensures ok <==> id in old(rows) && hasSpace && rows[id].status == Ready
      ensures ok ==>
        var e, b := old(rows)[id], Received(s.chunks);
        var path := env.place(e.key.entryType, e.key.version, e.key.fileName);
        && Agrees(env, e.expected, b) && files == old(files)[path := b]
        && rows == old(rows)[id := e.(status := Ready, path := Some(path), size := Some(|b|),
                                      sha1 := Some(env.sha1(b)), sha256 := Some(env.sha256(b)))]
    {
      if id !in rows { return false; }
      var entry := rows[id];
      if !hasSpace { return false; }
      ghost var was := rows;
      MarkStatus(id, Warming, None, None, None, None);
      var destination := PathOf(env, entry.key);
      var tmp, size, complete := Download(s);
      var sha1, sha256 := env.sha1(tmp), env.sha256(tmp);
      var e := entry.expected;
      if !complete || (e.sha1 != "" && sha1 != Lower(e.sha1)) || (e.sha256 != "" && sha256 != Lower(e.sha256))
         || (e.size != 0 && size != e.size) {
        MarkStatus(id, Failed, None, None, None, None);
        assert rows == was[id := entry.(status := Failed)];
        return false;
      }
      files := files[destination := tmp];
      if !records {
        MarkStatus(id, Failed, None, None, None, None);
        assert rows == was[id := entry.(status := Failed)];
        return false;
      }
      MarkStatus(id, Ready, Some(destination), Some(size), Some(sha1), Some(sha256));
      assert rows == was[id := Recorded(env, entry, Ready, destination, tmp)];
      return true;
    }

    method VerifyEntry(id: Id)
      requires UniqueKeys(rows)
      modifies this`rows
      ensures State() == Apply(env, old(State()), Verify(id))
      ensures id !in old(rows) ==> rows == old(rows)
      ensures id in old(rows) ==>
        var e := old(rows)[id];
        if e.path.None? || e.path.value !in files then rows == old(rows)[id := e.(status := Missing)]
        else
          var b := files[e.path.value];
          rows == old(rows)[id := e.(status := if Agrees(env, e.expected, b) then Ready else Failed, size := Some(|b|),
                                     sha1 := Some(env.sha1(b)), sha256 := Some(env.sha256(b)))]
    {
      if id !in rows { return; }
      var entry := rows[id];
      if entry.path.None? || entry.path.value !in files {
        MarkStatus(id, Missing, None, None, None, None);
        return;
      }
      var bytes := files[entry.path.value];
      var size, sha1, sha256 := |bytes|, env.sha1(bytes), env.sha256(bytes);
      var e := entry.expected;
      if (e.size != 0 && size != e.size) || (e.sha1 != "" && sha1 != Lower(e.sha1))
         || (e.sha256 != "" && sha256 != Lower(e.sha256)) {
        MarkStatus(id, Failed, None, Some(size), Some(sha1), Some(sha256));
        return;
      }
      MarkStatus(id, Ready, entry.path, Some(size), Some(sha1), Some(sha256));
    }

    method DeleteEntryFile(id: Id)
      requires UniqueKeys(rows)
      modifies this
      ensures State() == Apply(env, old(State()), Delete(id))
      ensures id !in old(rows) ==> rows == old(rows) && files == old(files)
      ensures id in old(rows) ==>
        && rows == old(rows)[id := old(rows)[id].(status := Missing, path := None, size := None, sha256 := None)]
        && files == if old(rows)[id].path.Some? then old(files) - {old(rows)[id].path.value} else old(files)
    {
      if id !in rows { return; }
      var entry := rows[id];
      if entry.path.Some? { files := files - {entry.path.value}; }
      rows := rows[id := entry.(status := Missing, path := None, size := None, sha256 := None)];
    }

    /** Before a row is handed out as ready, its file is looked for. */
    method CheckReadyFile(id: Id)
      requires UniqueKeys(rows)
      modifies this`rows
      ensures State() == Apply(env, old(State()), NoticeMissing(id))
      ensures rows ==
        if id in old(rows) && old(rows)[id].status == Ready && (old(rows)[id].path.None? || old(rows)[id].path.value !in files)
        then old(rows)[id := old(rows)[id].(status := Missing)] else old(rows)
    {
      if id in rows && rows[id].status == Ready && (rows[id].path.None? || rows[id].path.value !in files) {
        MarkStatus(id, Missing, None, None, None, None);
      }
    }
  }
}
