/** Deciding whether a published agent build is an upgrade for what an agent has installed.
    An absent version and an empty one are treated alike, so both are "". */
module Versions {
  import opened Decimal

  type Parts = seq<nat>

  datatype Scheme = Unknown | SemVer | CalVer
  datatype Status = UpgradeAvailable | Current | Indeterminate
  datatype Reason =
    | NoPublishedVersion
    | InstalledVersionUnknown
    | Unparseable
    | SchemeMismatch(published: Scheme, installed: Scheme)
    | Newer
    | Matches
    | Older

  const CALVER_MIN_YEAR := 2000

  // ---------------------------------------------------------------- parsing

  /** str.split(sep) */
  function Split(s: string, sep: char): (pieces: seq<string>)
    ensures |pieces| > 0
  {
    if s == "" then [""]
    else
      var rest := Split(s[1..], sep);
      if s[0] == sep then [""] + rest else [[s[0]] + rest[0]] + rest[1..]
  }

  function Undashed(s: string): (r: string) {
    seq(|s|, i requires 0 <= i < |s| => if s[i] == '-' then '.' else s[i])
  }

  /** The numbers before the first piece that is not one. */
  function LeadingNumbers(pieces: seq<string>): (parts: Parts) {
    if pieces == [] || !IsNumber(pieces[0]) then []
    else [ValueOf(pieces[0])] + LeadingNumbers(pieces[1..])
  }

  function PartsOf(v: string): (parts: Parts) { LeadingNumbers(Split(Undashed(v), '.')) }

  lemma {:induction false} LeadingNumbersAppend(done: seq<string>, piece: string, rest: seq<string>)
    requires forall i :: 0 <= i < |done| ==> IsNumber(done[i])
    ensures LeadingNumbers(done + [piece] + rest) ==
            LeadingNumbers(done) + (if IsNumber(piece) then [ValueOf(piece)] + LeadingNumbers(rest) else [])
  {
    if done == [] {
      assert done + [piece] + rest == [piece] + rest;
      assert ([piece] + rest)[1..] == rest;
    } else {
      assert (done + [piece] + rest)[1..] == done[1..] + [piece] + rest;
      LeadingNumbersAppend(done[1..], piece, rest);
    }
  }

  method VersionParts(value: string) returns (parts: Parts)
    ensures parts == PartsOf(value)
  {
    var pieces := Split(Undashed(value), '.');
    parts := [];
    var i := 0;
    while i < |pieces|
      invariant 0 <= i <= |pieces|
      invariant forall k :: 0 <= k < i ==> IsNumber(pieces[k])
      invariant parts == LeadingNumbers(pieces[..i])
    {
      LeadingNumbersAppend(pieces[..i], pieces[i], pieces[i + 1..]);
      assert pieces == pieces[..i] + [pieces[i]] + pieces[i + 1..];
      if !IsNumber(pieces[i]) { return; }
      LeadingNumbersAppend(pieces[..i], pieces[i], []);
      assert pieces[..i + 1] == pieces[..i] + [pieces[i]] + [];
      parts := parts + [ValueOf(pieces[i])];
      i := i + 1;
    }
    assert pieces[..i] == pieces;
  }

  // ---------------------------------------------------------------- comparing

  function SchemeOf(v: string): (s: Scheme) {
    var parts := PartsOf(v);
    if parts == [] then Unknown else if parts[0] >= CALVER_MIN_YEAR then CalVer else SemVer
  }

  function PadTo(p: Parts, width: nat): (r: Parts)
    ensures |r| == if |p| < width then width else |p|
    ensures forall k :: 0 <= k < |r| ==> r[k] == PartAt(p, k)
  {
    p + seq(if |p| < width then width - |p| else 0, i => 0)
  }

  /** Tuple comparison: the first difference decides, and a proper prefix is smaller. */
  predicate TupleGreater(a: Parts, b: Parts) {
    if a == [] then false
    else if b == [] then true
    else a[0] > b[0] || (a[0] == b[0] && TupleGreater(a[1..], b[1..]))
  }

  function Compare(published: string, installed: string): (r: (Status, Reason)) {
    var p, i := PartsOf(published), PartsOf(installed);
    if published == "" then (Indeterminate, NoPublishedVersion)
    else if installed == "" then (UpgradeAvailable, InstalledVersionUnknown)
    else if p == [] || i == [] then (Indeterminate, Unparseable)
    else if SchemeOf(published) != SchemeOf(installed) then
      (Indeterminate, SchemeMismatch(SchemeOf(published), SchemeOf(installed)))
    else
      var width := if |p| < |i| then |i| else |p|;
      if TupleGreater(PadTo(p, width), PadTo(i, width)) then (UpgradeAvailable, Newer)
      else if PadTo(p, width) == PadTo(i, width) then (Current, Matches)
      else (Current, Older)
  }

  // ---------------------------------------------------------------- the order it decides

  /** A version has infinitely many parts, all but the first few 0. */
  function PartAt(p: Parts, k: nat): (n: nat) { if k < |p| then p[k] else 0 }

  ghost predicate Same(a: Parts, b: Parts) { forall k: nat :: PartAt(a, k) == PartAt(b, k) }

  ghost predicate DiffersFirstAt(a: Parts, b: Parts, k: nat) {
    (forall j: nat :: j < k ==> PartAt(a, j) == PartAt(b, j)) && PartAt(a, k) != PartAt(b, k)
  }

  ghost predicate After(a: Parts, b: Parts) {
    exists k: nat :: DiffersFirstAt(a, b, k) && PartAt(a, k) > PartAt(b, k)
  }

  lemma {:induction false} FirstDifference(a: Parts, b: Parts, j: nat) returns (k: nat)
    requires PartAt(a, j) != PartAt(b, j)
    ensures DiffersFirstAt(a, b, k)
  {
    if i: nat :| i < j && PartAt(a, i) != PartAt(b, i) {
      k := FirstDifference(a, b, i);
    } else {
      k := j;
    }
  }

  lemma DiffersFirstOnce(a: Parts, b: Parts, k: nat)
    requires DiffersFirstAt(a, b, k)
    ensures After(a, b) <==> PartAt(a, k) > PartAt(b, k)
  {
    if After(a, b) {
      var x: nat :| DiffersFirstAt(a, b, x) && PartAt(a, x) > PartAt(b, x);
      assert x == k;
    }
  }

  /** Exactly one of before, same and after. */
  lemma Trichotomy(a: Parts, b: Parts)
    ensures After(a, b) || Same(a, b) || After(b, a)
    ensures !(After(a, b) && Same(a, b)) && !(After(a, b) && After(b, a))
  {
    if j: nat :| PartAt(a, j) != PartAt(b, j) {
      var k := FirstDifference(a, b, j);
      assert DiffersFirstAt(b, a, k);
      DiffersFirstOnce(a, b, k);
      DiffersFirstOnce(b, a, k);
    }
  }

  lemma AfterIsTransitive(a: Parts, b: Parts, c: Parts)
    requires After(a, b) && After(b, c)
    ensures After(a, c)
  {
    var x: nat :| DiffersFirstAt(a, b, x) && PartAt(a, x) > PartAt(b, x);
    var y: nat :| DiffersFirstAt(b, c, y) && PartAt(b, y) > PartAt(c, y);
    var k := if x < y then x else y;
    assert DiffersFirstAt(a, c, k);
  }

  lemma AfterRespectsSame(a: Parts, a': Parts, b: Parts, b': Parts)
    requires Same(a, a') && Same(b, b')
    ensures After(a, b) <==> After(a', b')
  {
    if After(a, b) {
      var x: nat :| DiffersFirstAt(a, b, x) && PartAt(a, x) > PartAt(b, x);
      assert DiffersFirstAt(a', b', x);
    }
    if After(a', b') {
      var x: nat :| DiffersFirstAt(a', b', x) && PartAt(a', x) > PartAt(b', x);
      assert DiffersFirstAt(a, b, x);
    }
  }

  lemma {:induction false} TupleGreaterAt(a: Parts, b: Parts)
    requires |a| == |b|
    ensures TupleGreater(a, b) <==> exists k :: 0 <= k < |a| && a[k] > b[k] && a[..k] == b[..k]
  {
    if a != [] {
      TupleGreaterAt(a[1..], b[1..]);
      if a[0] == b[0] {
        if k :| 0 <= k < |a[1..]| && a[1..][k] > b[1..][k] && a[1..][..k] == b[1..][..k] {
          assert a[..k + 1] == [a[0]] + a[1..][..k] && b[..k + 1] == [b[0]] + b[1..][..k];
          assert a[k + 1] > b[k + 1];
        }
        if k :| 0 <= k < |a| && a[k] > b[k] && a[..k] == b[..k] {
          assert a[1..][..k - 1] == a[..k][1..] && b[1..][..k - 1] == b[..k][1..];
          assert a[1..][k - 1] > b[1..][k - 1];
        }
      } else if a[0] > b[0] {
        assert a[..0] == b[..0];
      } else {
        forall k | 0 < k < |a| ensures a[..k] != b[..k] {
          assert a[..k][0] == a[0] && b[..k][0] == b[0];
        }
      }
    }
  }

  /** Padding to any sufficient width decides the order. */
  lemma PaddingWidthIsIrrelevant(a: Parts, b: Parts, width: nat)
    requires |a| <= width && |b| <= width
    ensures TupleGreater(PadTo(a, width), PadTo(b, width)) <==> After(a, b)
    ensures PadTo(a, width) == PadTo(b, width) <==> Same(a, b)
  {
    var pa, pb := PadTo(a, width), PadTo(b, width);
    TupleGreaterAt(pa, pb);
    if k :| 0 <= k < |pa| && pa[k] > pb[k] && pa[..k] == pb[..k] {
      forall j: nat | j < k ensures PartAt(a, j) == PartAt(b, j) {
        assert pa[..k][j] == pa[j] && pb[..k][j] == pb[j];
      }
      assert DiffersFirstAt(a, b, k);
    }
    if After(a, b) {
      var k: nat :| DiffersFirstAt(a, b, k) && PartAt(a, k) > PartAt(b, k);
      assert pa[..k] == pb[..k];
    }
    if pa == pb {
      forall k: nat ensures PartAt(a, k) == PartAt(b, k) {
        if k < width { assert pa[k] == pb[k]; }
      }
    }
  }

  predicate Comparable(published: string, installed: string) {
    PartsOf(published) != [] && PartsOf(installed) != [] && SchemeOf(published) == SchemeOf(installed)
  }

  lemma ParseableIsNonEmpty(v: string)
    ensures v == "" ==> PartsOf(v) == []
  {
    if v == "" { assert Undashed(v) == ""; }
  }

  /** What the verdict means, for every pair of strings. */
  lemma VerdictMeaning(published: string, installed: string)
    ensures var (status, reason) := Compare(published, installed);
      && (status == UpgradeAvailable <==>
            || (published != "" && installed == "")
            || (Comparable(published, installed) && After(PartsOf(published), PartsOf(installed))))
      && (reason == Matches <==> Comparable(published, installed) && Same(PartsOf(published), PartsOf(installed)))
      && (reason == Older <==> Comparable(published, installed) && After(PartsOf(installed), PartsOf(published)))
      && (status == Current <==> reason == Matches || reason == Older)
  {
    var p, i := PartsOf(published), PartsOf(installed);
    ParseableIsNonEmpty(published);
    ParseableIsNonEmpty(installed);
    PaddingWidthIsIrrelevant(p, i, if |p| < |i| then |i| else |p|);
    Trichotomy(p, i);
  }

  /** Why no verdict on newer or older is given: nothing is published, a side has no leading number, or exactly one side
      starts with a year from 2000 on. */
  lemma UndecidedMeaning(published: string, installed: string)
    ensures var (status, reason) := Compare(published, installed);
      var p, i := PartsOf(published), PartsOf(installed);
      && (reason == NoPublishedVersion <==> published == "")
      && (reason == InstalledVersionUnknown <==> published != "" && installed == "")
      && (reason == Unparseable <==> published != "" && installed != "" && (p == [] || i == []))
      && (reason == SchemeMismatch(CalVer, SemVer) <==> p != [] && i != [] && p[0] >= 2000 && i[0] < 2000)
      && (reason == SchemeMismatch(SemVer, CalVer) <==> p != [] && i != [] && p[0] < 2000 && i[0] >= 2000)
      && (status == Indeterminate <==> reason == NoPublishedVersion || reason == Unparseable || reason.SchemeMismatch?)
      && (reason.SchemeMismatch? ==> reason.published != reason.installed && reason.published != Unknown && reason.installed != Unknown)
  {
    ParseableIsNonEmpty(published);
    ParseableIsNonEmpty(installed);
  }

  // ---------------------------------------------------------------- how versions are written

  lemma {:induction false} SplitAtSeparator(a: string, sep: char, b: string)
    ensures Split(a + [sep] + b, sep) == Split(a, sep) + Split(b, sep)
  {
    if a == "" {
      assert a + [sep] + b == [sep] + b;
    } else {
      assert (a + [sep] + b)[1..] == a[1..] + [sep] + b;
      SplitAtSeparator(a[1..], sep, b);
    }
  }

  lemma {:induction false} SplitWithout(s: string, sep: char)
    requires sep !in s
    ensures Split(s, sep) == [s]
  {
    if s != "" {
      SplitWithout(s[1..], sep);
      assert [s[0]] + s[1..] == s;
    }
  }

  lemma {:induction false} AppendedPieces(pieces: seq<string>, more: seq<string>)
    ensures LeadingNumbers(pieces + more) ==
            LeadingNumbers(pieces) + (if |LeadingNumbers(pieces)| == |pieces| then LeadingNumbers(more) else [])
  {
    if pieces == [] {
      assert pieces + more == more;
    } else {
      assert (pieces + more)[1..] == pieces[1..] + more;
      AppendedPieces(pieces[1..], more);
    }
  }

  /** The parts of two versions joined by a dot. */
  lemma PartsOfJoined(a: string, b: string)
    ensures PartsOf(a + "." + b) == PartsOf(a) + PartsOf(b) || PartsOf(a + "." + b) == PartsOf(a)
  {
    assert Undashed(a + "." + b) == Undashed(a) + ['.'] + Undashed(b);
    SplitAtSeparator(Undashed(a), '.', Undashed(b));
    AppendedPieces(Split(Undashed(a), '.'), Split(Undashed(b), '.'));
  }

  lemma PartsOfNumber(d: string)
    requires IsNumber(d)
    ensures PartsOf(d) == [ValueOf(d)] && Split(Undashed(d), '.') == [d]
  {
    assert Undashed(d) == d;
    SplitWithout(d, '.');
    assert LeadingNumbers([d][1..]) == [];
  }

  function Dotted(parts: Parts): (v: string)
    requires parts != []
  {
    if |parts| == 1 then Digits(parts[0]) else Digits(parts[0]) + "." + Dotted(parts[1..])
  }

  /** Reading a printed version gives its parts back. */
  lemma {:induction false} ParsingInvertsPrinting(parts: Parts)
    requires parts != []
    ensures PartsOf(Dotted(parts)) == parts
  {
    var d := Digits(parts[0]);
    ReadingInvertsPrinting(parts[0]);
    PartsOfNumber(d);
    if |parts| > 1 {
      ParsingInvertsPrinting(parts[1..]);
      var rest := Undashed(Dotted(parts[1..]));
      assert Undashed(Dotted(parts)) == Undashed(d) + ['.'] + rest;
      SplitAtSeparator(Undashed(d), '.', rest);
      AppendedPieces([d], Split(rest, '.'));
    }
  }

  /** A dash separates like a dot. */
  lemma DashIsDot(a: string, b: string)
    ensures PartsOf(a + "-" + b) == PartsOf(a + "." + b)
  {
    assert Undashed(a + "-" + b) == Undashed(a + "." + b);
  }

  /** Reading stops at the first piece that is not a number, whatever follows. */
  lemma StopsAtTheFirstOther(parts: Parts, piece: string, rest: string)
    requires parts != [] && !IsNumber(piece) && '.' !in piece && '-' !in piece
    ensures PartsOf(Dotted(parts) + "." + piece + "." + rest) == parts
  {
    var d := Dotted(parts);
    ParsingInvertsPrinting(parts);
    assert Undashed(piece) == piece;
    SplitWithout(piece, '.');
    var tail := piece + "." + rest;
    assert d + "." + piece + "." + rest == d + "." + tail;
    assert Undashed(d + "." + tail) == Undashed(d) + ['.'] + Undashed(tail);
    SplitAtSeparator(Undashed(d), '.', Undashed(tail));
    assert Undashed(tail) == piece + ['.'] + Undashed(rest);
    SplitAtSeparator(piece, '.', Undashed(rest));
    AppendedPieces(Split(Undashed(d), '.'), Split(Undashed(tail), '.'));
    assert Split(Undashed(tail), '.')[0] == piece;
  }

  /** An added ".0" changes no verdict, on either side, whatever the strings. */
  lemma TrailingZeroIsIrrelevant(a: string, b: string)
    requires PartsOf(a) != [] && PartsOf(b) != []
    ensures Same(PartsOf(a + ".0"), PartsOf(a))
    ensures Compare(a + ".0", b) == Compare(a, b) && Compare(b, a + ".0") == Compare(b, a)
  {
    PartsOfNumber("0");
    PartsOfJoined(a, "0");
    assert a + ".0" == a + "." + "0";
    SameVerdict(a + ".0", a, b);
  }

  lemma SameVerdict(a': string, a: string, b: string)
    requires PartsOf(a') != [] && PartsOf(a) != [] && PartsOf(b) != [] && Same(PartsOf(a'), PartsOf(a))
    ensures Compare(a', b) == Compare(a, b) && Compare(b, a') == Compare(b, a)
  {
    assert PartAt(PartsOf(a'), 0) == PartAt(PartsOf(a), 0);
    ParseableIsNonEmpty(a');
    ParseableIsNonEmpty(a);
    ParseableIsNonEmpty(b);
    VerdictMeaning(a', b);
    VerdictMeaning(a, b);
    VerdictMeaning(b, a');
    VerdictMeaning(b, a);
    AfterRespectsSame(PartsOf(a'), PartsOf(a), PartsOf(b), PartsOf(b));
    AfterRespectsSame(PartsOf(b), PartsOf(b), PartsOf(a'), PartsOf(a));
  }

  // ---------------------------------------------------------------- an agent over time

  /** One update check: what is published, the installed version as the agent spells it, and whether the
      agent installs what is published. */
  datatype Check = Check(published: string, reported: string, installs: bool)

  function InstalledAfter(start: string, checks: seq<Check>, n: nat): (v: string)
    requires n <= |checks|
  {
    if n == 0 then start
    else if checks[n - 1].installs then checks[n - 1].published
    else InstalledAfter(start, checks, n - 1)
  }

  /** The agent names what it runs, perhaps padded ("0.1.4.0" for "0.1.4"), and installs only upgrades. */
  ghost predicate IsHistory(start: string, checks: seq<Check>) {
    forall n :: 0 <= n < |checks| ==> CheckAt(start, checks, n)
  }

  ghost predicate CheckAt(start: string, checks: seq<Check>, n: nat)
    requires n < |checks|
  {
    IsCheck(checks[n], InstalledAfter(start, checks, n))
  }

  ghost predicate IsCheck(c: Check, current: string) {
    && c.reported != "" && Same(PartsOf(c.reported), PartsOf(current))
    && (c.installs ==> Compare(c.published, c.reported).0 == UpgradeAvailable)
  }

  lemma InstallGoesUp(c: Check, current: string)
    requires IsCheck(c, current) && c.installs
    ensures After(PartsOf(c.published), PartsOf(current))
  {
    VerdictMeaning(c.published, c.reported);
    AfterRespectsSame(PartsOf(c.published), PartsOf(c.published), PartsOf(c.reported), PartsOf(current));
  }

  lemma StepClimbs(start: string, checks: seq<Check>, k: nat)
    requires IsHistory(start, checks) && k < |checks|
    ensures Moves(PartsOf(InstalledAfter(start, checks, k)), PartsOf(InstalledAfter(start, checks, k + 1)), checks[k].installs)
  {
    assert CheckAt(start, checks, k);
    if checks[k].installs { InstallGoesUp(checks[k], InstalledAfter(start, checks, k)); }
  }

  predicate InstallsWithin(checks: seq<Check>, i: nat, j: nat)
    requires i <= j <= |checks|
    decreases j
  {
    i < j && (checks[j - 1].installs || InstallsWithin(checks, i, j - 1))
  }

  /** From `a` to `b`, raised or kept. */
  ghost predicate Moves(a: Parts, b: Parts, up: bool) { if up then After(b, a) else b == a }

  lemma MovesCompose(a: Parts, b: Parts, c: Parts, up1: bool, up2: bool)
    requires Moves(a, b, up1) && Moves(b, c, up2)
    ensures Moves(a, c, up1 || up2)
  {
    if up1 && up2 { AfterIsTransitive(c, b, a); }
  }

  /** Versions never go back: over any stretch of checks the agent moves strictly up, or installs nothing. */
  lemma {:induction false} VersionsOnlyGoUp(start: string, checks: seq<Check>, i: nat, j: nat)
    requires IsHistory(start, checks) && i <= j <= |checks|
    ensures Moves(PartsOf(InstalledAfter(start, checks, i)), PartsOf(InstalledAfter(start, checks, j)),
                  InstallsWithin(checks, i, j))
    decreases j
  {
    if i < j {
      VersionsOnlyGoUp(start, checks, i, j - 1);
      StepClimbs(start, checks, j - 1);
      MovesCompose(PartsOf(InstalledAfter(start, checks, i)), PartsOf(InstalledAfter(start, checks, j - 1)),
                   PartsOf(InstalledAfter(start, checks, j)), InstallsWithin(checks, i, j - 1), checks[j - 1].installs);
    }
  }

  lemma InstallRaises(start: string, checks: seq<Check>, i: nat, j: nat)
    requires IsHistory(start, checks) && i <= j < |checks| && checks[j].installs
    ensures After(PartsOf(checks[j].published), PartsOf(InstalledAfter(start, checks, i)))
  {
    VersionsOnlyGoUp(start, checks, i, j + 1);
  }

  /** No build is installed twice, however it is spelled. */
  lemma InstalledAtMostOnce(start: string, checks: seq<Check>, i: nat, j: nat)
    requires IsHistory(start, checks) && i < j < |checks| && checks[i].installs && checks[j].installs
    ensures !Same(PartsOf(checks[j].published), PartsOf(checks[i].published))
  {
    InstallRaises(start, checks, i + 1, j);
    Trichotomy(PartsOf(checks[j].published), PartsOf(checks[i].published));
  }

  /** Nor is the build the agent started from. */
  lemma StartIsNotReinstalled(start: string, checks: seq<Check>, j: nat)
    requires IsHistory(start, checks) && j < |checks| && checks[j].installs
    ensures !Same(PartsOf(checks[j].published), PartsOf(start))
  {
    InstallRaises(start, checks, 0, j);
    assert InstalledAfter(start, checks, 0) == start;
    Trichotomy(PartsOf(checks[j].published), PartsOf(start));
  }

  /** A build the agent already runs is offered again exactly when the agent reports nothing. */
  lemma ReofferedIffUnreported(published: string, reported: string)
    requires published != "" && (reported == "" || Same(PartsOf(reported), PartsOf(published)))
    ensures Compare(published, reported).0 == UpgradeAvailable <==> reported == ""
  {
    VerdictMeaning(published, reported);
    Trichotomy(PartsOf(published), PartsOf(reported));
  }
}
