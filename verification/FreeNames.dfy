/** Finding the next free `base-NN` computer name, and naming a whole batch. */
module FreeNames {
  import opened Prelude
  import opened Text
  import opened Decimal

  // ---------------------------------------------------------------- how names are compared

  function Keys(taken: set<string>): (keys: set<string>) {
    set t | t in taken && Strip(t) != "" :: Lower(Strip(t))
  }

  // ---------------------------------------------------------------- base and index

  function TrailingDigits(s: string): (n: nat)
    ensures n <= |s| && (forall i :: |s| - n <= i < |s| ==> IsDigit(s[i]))
    ensures n < |s| ==> !IsDigit(s[|s| - 1 - n])
  {
    if s != "" && IsDigit(s[|s| - 1]) then 1 + TrailingDigits(s[..|s| - 1]) else 0
  }

  predicate Splits(req: string, base: string, idx: string) {
    req == base + "-" + idx && base != "" && '\n' !in base && IsNumber(idx)
  }

  /** The match of a name against base-digits: there is at most one. */
  function IndexMatch(req: string): (m: Option<(string, string)>)
    ensures m.Some? ==> Splits(req, m.value.0, m.value.1)
  {
    var n := TrailingDigits(req);
    var p := |req| - n - 1;
    if n > 0 && p > 0 && req[p] == '-' && '\n' !in req[..p] then
      assert req == req[..p] + "-" + req[p + 1..];
      Some((req[..p], req[p + 1..]))
    else None
  }

  lemma IndexMatchIsComplete(req: string, base: string, idx: string)
    requires Splits(req, base, idx)
    ensures IndexMatch(req) == Some((base, idx))
  {
    var n := TrailingDigits(req);
    assert req[|base|] == '-';
    assert forall i :: 0 <= i < |idx| ==> req[|base| + 1 + i] == idx[i];
    assert n == |idx|;
    assert req[..|base|] == base && req[|base| + 1..] == idx;
  }

  function BaseOf(req: string): (b: string) {
    match IndexMatch(req) case Some(m) => m.0 case None => req
  }

  function WidthOf(req: string): (w: nat) {
    match IndexMatch(req) case Some(m) => (if |m.1| < 2 then 2 else |m.1|) case None => 2
  }

  function Candidate(req: string, i: nat): (c: string) {
    BaseOf(req) + "-" + Padded(i, WidthOf(req))
  }

  lemma MatchMeansSplit(req: string)
    ensures IndexMatch(req).Some? ==> exists b, x :: Splits(req, b, x)
  {
    if IndexMatch(req).Some? { assert Splits(req, IndexMatch(req).value.0, IndexMatch(req).value.1); }
  }

  /** The names tried for a request: its base, a dash, and the index in at least as many digits as the request had, and
      at least two. */
  lemma CandidateMeans(req: string, base: string, idx: string, i: nat)
    requires Splits(req, base, idx) || ((forall b, x :: !Splits(req, b, x)) && base == req && idx == "")
    ensures var c, width := Candidate(req, i), if |idx| < 2 then 2 else |idx|;
      && |c| > |base| && c[..|base|] == base && c[|base|] == '-'
      && var p := c[|base| + 1..];
         IsNumber(p) && ValueOf(p) == i && |p| >= width && (|p| > width ==> p[0] != '0')
  {
    if Splits(req, base, idx) {
      IndexMatchIsComplete(req, base, idx);
    } else {
      MatchMeansSplit(req);
    }
    var width := if |idx| < 2 then 2 else |idx|;
    PaddedReads(i, width);
    assert Candidate(req, i) == base + "-" + Padded(i, width);
    assert Candidate(req, i)[|base| + 1..] == Padded(i, width);
  }

  lemma LowerConcat(a: string, b: string)
    ensures Lower(a + b) == Lower(a) + Lower(b)
  {
  }

  lemma LowerNumber(d: string)
    requires IsNumber(d)
    ensures Lower(d) == d
  {
  }

  /** Distinct indices give names distinct even when case is ignored. */
  lemma CandidatesDiffer(req: string, i: nat, j: nat)
    ensures Lower(Candidate(req, i)) == Lower(Candidate(req, j)) <==> i == j
  {
    var prefix, pi, pj := BaseOf(req) + "-", Padded(i, WidthOf(req)), Padded(j, WidthOf(req));
    LowerConcat(prefix, pi);
    LowerConcat(prefix, pj);
    LowerNumber(pi);
    LowerNumber(pj);
    assert (Lower(prefix) + pi)[|prefix|..] == pi && (Lower(prefix) + pj)[|prefix|..] == pj;
    PaddedIsInjective(i, j, WidthOf(req));
  }

  // ---------------------------------------------------------------- the search

  predicate IsTaken(req: string, i: nat, keys: set<string>) { Lower(Candidate(req, i)) in keys }

  /** The lowest free index from `i` up. */
  function FreeIndex(req: string, keys: set<string>, i: nat, max: nat): (f: Option<nat>)
    decreases max + 1 - i
  {
    if i > max then None
    else if !IsTaken(req, i, keys) then Some(i)
    else FreeIndex(req, keys, i + 1, max)
  }

  lemma {:induction false} FreeIndexIsLowest(req: string, keys: set<string>, i: nat, max: nat)
    ensures match FreeIndex(req, keys, i, max) {
      case Some(f) => i <= f <= max && !IsTaken(req, f, keys) && forall j :: i <= j < f ==> IsTaken(req, j, keys)
      case None => forall j :: i <= j <= max ==> IsTaken(req, j, keys)
    }
    decreases max + 1 - i
  {
    if i <= max && IsTaken(req, i, keys) { FreeIndexIsLowest(req, keys, i + 1, max); }
  }

  function NextFree(requested: string, keys: set<string>, max: nat): (name: string) {
    var req := Strip(requested);
    if req == "" || Lower(req) !in keys then req
    else match FreeIndex(req, keys, 1, max)
      case Some(i) => Candidate(req, i)
      case None => req
  }

  method NextFreeIndexedName(requested: string, taken: set<string>, max: nat) returns (name: string)
    ensures name == NextFree(requested, Keys(taken), max)
  {
    var keys := Keys(taken);
    var req := Strip(requested);
    if req == "" || Lower(req) !in keys { return req; }
    var base, width := req, 2;
    var found := IndexMatch(req);
    if found.Some? {
      base := found.value.0;
      width := if |found.value.1| < 2 then 2 else |found.value.1|;
    }
    var i := 1;
    while i <= max
      invariant 1 <= i <= max + 1
      invariant FreeIndex(req, keys, i, max) == FreeIndex(req, keys, 1, max)
    {
      var candidate := base + "-" + Padded(i, width);
      if Lower(candidate) !in keys { return candidate; }
      i := i + 1;
    }
    return req;
  }

  predicate AllTaken(req: string, keys: set<string>, max: nat) {
    forall i :: 1 <= i <= max ==> IsTaken(req, i, keys)
  }

  /** The lower-cased names of the indices 1..n. */
  function Slots(req: string, n: nat): (s: set<string>) {
    if n == 0 then {} else Slots(req, n - 1) + {Lower(Candidate(req, n))}
  }

  lemma {:induction false} LaterSlotIsNew(req: string, n: nat, m: nat)
    requires n < m
    ensures Lower(Candidate(req, m)) !in Slots(req, n)
  {
    if n > 0 {
      LaterSlotIsNew(req, n - 1, m);
      CandidatesDiffer(req, n, m);
    }
  }

  lemma {:induction false} SlotsCount(req: string, n: nat)
    ensures |Slots(req, n)| == n
  {
    if n > 0 {
      SlotsCount(req, n - 1);
      LaterSlotIsNew(req, n - 1, n);
    }
  }

  lemma {:induction false} SlotsAreTaken(req: string, n: nat, keys: set<string>)
    requires AllTaken(req, keys, n)
    ensures Slots(req, n) <= keys
  {
    if n > 0 {
      SlotsAreTaken(req, n - 1, keys);
      assert IsTaken(req, n, keys);
    }
  }

  /** Running out of indices takes at least as many names. */
  lemma Pigeonhole(req: string, keys: set<string>, max: nat)
    requires AllTaken(req, keys, max)
    ensures |keys| >= max
  {
    SlotsCount(req, max);
    SlotsAreTaken(req, max, keys);
    SubsetCard(Slots(req, max), keys);
  }

  /** What comes back: the request when it is free, else the lowest free index, else the request again, and
      that only when every index is taken, which takes at least `max` names. */
  lemma SearchIsComplete(requested: string, keys: set<string>, max: nat)
    ensures var req, name := Strip(requested), NextFree(requested, keys, max);
      && (req == "" || Lower(req) !in keys ==> name == req)
      && (req != "" && Lower(req) in keys && !AllTaken(req, keys, max) ==>
            exists i :: 1 <= i <= max && name == Candidate(req, i) && !IsTaken(req, i, keys)
                     && forall j :: 1 <= j < i ==> IsTaken(req, j, keys))
      && (req != "" ==> (Lower(name) in keys <==> Lower(req) in keys && AllTaken(req, keys, max)))
      && (AllTaken(req, keys, max) ==> |keys| >= max)
  {
    var req := Strip(requested);
    FreeIndexIsLowest(req, keys, 1, max);
    if AllTaken(req, keys, max) { Pigeonhole(req, keys, max); }
    match FreeIndex(req, keys, 1, max)
    case Some(i) => assert !IsTaken(req, i, keys);
    case None =>
  }

  /** With fewer than `max` names taken, the answer is always free. */
  lemma FreeWhileSlotsRemain(requested: string, keys: set<string>, max: nat)
    requires Strip(requested) != "" && |keys| < max
    ensures Lower(NextFree(requested, keys, max)) !in keys
  {
    SearchIsComplete(requested, keys, max);
  }

  // ---------------------------------------------------------------- naming a batch

  /** The names given to a batch, each result counting as taken for the next. */
  function Batch(requests: seq<string>, keys: set<string>, max: nat): (names: seq<string>)
    ensures |names| == |requests|
  {
    if requests == [] then []
    else
      var name := NextFree(requests[0], keys, max);
      [name] + Batch(requests[1..], keys + {Lower(name)}, max)
  }

  ghost predicate AllFresh(names: seq<string>, keys: set<string>) {
    && (forall i :: 0 <= i < |names| ==> Lower(names[i]) !in keys)
    && (forall i, j :: 0 <= i < j < |names| ==> Lower(names[i]) != Lower(names[j]))
  }

  /** While slots remain, a batch gets names that are new and pairwise distinct, ignoring case. */
  lemma {:induction false} BatchIsDistinct(requests: seq<string>, keys: set<string>, max: nat)
    requires forall i :: 0 <= i < |requests| ==> Strip(requests[i]) != ""
    requires |keys| + |requests| <= max
    ensures AllFresh(Batch(requests, keys, max), keys)
  {
    if requests != [] {
      var name := NextFree(requests[0], keys, max);
      FreeWhileSlotsRemain(requests[0], keys, max);
      var more := keys + {Lower(name)};
      BatchIsDistinct(requests[1..], more, max);
      var rest := Batch(requests[1..], more, max);
      assert Batch(requests, keys, max) == [name] + rest;
      forall i | 0 <= i < |rest| ensures Lower(rest[i]) !in keys && Lower(rest[i]) != Lower(name) {
        assert Lower(rest[i]) !in more;
      }
    }
  }

  /** Whatever the number of names, a batch clashes exactly when some request found every index taken. */
  lemma {:induction false} BatchClashesIffExhausted(requests: seq<string>, keys: set<string>, max: nat)
    requires forall i :: 0 <= i < |requests| ==> Strip(requests[i]) != ""
    ensures AllFresh(Batch(requests, keys, max), keys) <==> !Exhausts(requests, keys, max)
  {
    if requests != [] {
      var name := NextFree(requests[0], keys, max);
      SearchIsComplete(requests[0], keys, max);
      var more := keys + {Lower(name)};
      BatchClashesIffExhausted(requests[1..], more, max);
      FreshSplit(name, Batch(requests[1..], more, max), keys);
    }
  }

  lemma FreshSplit(name: string, rest: seq<string>, keys: set<string>)
    ensures AllFresh([name] + rest, keys) <==> Lower(name) !in keys && AllFresh(rest, keys + {Lower(name)})
  {
    var names := [name] + rest;
    if AllFresh(names, keys) {
      assert names[0] == name;
      forall i | 0 <= i < |rest| ensures Lower(rest[i]) !in keys + {Lower(name)} { assert names[i + 1] == rest[i]; }
      forall i, j | 0 <= i < j < |rest| ensures Lower(rest[i]) != Lower(rest[j]) {
        assert names[i + 1] == rest[i] && names[j + 1] == rest[j];
      }
    }
  }

  /** Some request of the batch comes when it and all its indices are taken. */
  predicate Exhausts(requests: seq<string>, keys: set<string>, max: nat) {
    requests != [] &&
    var req := Strip(requests[0]);
    || (Lower(req) in keys && AllTaken(req, keys, max))
    || Exhausts(requests[1..], keys + {Lower(NextFree(requests[0], keys, max))}, max)
  }

  // ---------------------------------------------------------------- results survive being read back

  /** The lower-cased result, handed back as a taken name, is compared as that same text. */
  lemma ResultIsItsOwnKey(requested: string, keys: set<string>, max: nat)
    requires Strip(requested) != ""
    ensures var key := Lower(NextFree(requested, keys, max)); key != "" && Lower(Strip(key)) == key
  {
    var req, name := Strip(requested), NextFree(requested, keys, max);
    StripTrims(requested);
    assert BaseOf(req)[0] == req[0];
    NothingToStrip(Lower(name));
  }

  /** So adding results to the taken set is adding them to the keys. */
  lemma KeysOfMore(taken: set<string>, key: string)
    requires key != "" && Lower(Strip(key)) == key
    ensures Keys(taken + {key}) == Keys(taken) + {key}
  {
    var more := taken + {key};
    forall k ensures k in Keys(more) <==> k in Keys(taken) + {key} {
      if k in Keys(more) {
        var t :| t in more && Strip(t) != "" && Lower(Strip(t)) == k;
        if t in taken { assert k in Keys(taken); }
      }
      if k in Keys(taken) {
        var t :| t in taken && Strip(t) != "" && Lower(Strip(t)) == k;
        assert t in more;
      }
      if k == key {
        assert |Strip(key)| == |Lower(Strip(key))|;
        assert key in more && Strip(key) != "";
      }
    }
  }
}
