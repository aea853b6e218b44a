/** The Active Directory part of a device's timeline: consecutive probes are compared by objectGUID and
    every difference becomes an event. The log replays to the directory it was derived from. */
module DirectoryTimeline {
  import opened Text
  import opened Prelude

  datatype Match = Match(guid: string, cn: Option<string>, sam: Option<string>, dn: string, uac: int)

  datatype Probe = Probe(at: int, matches: seq<Match>)

  datatype Event =
    | Appeared(at: int, matches: seq<Match>)                      // first observation
    | Created(at: int, guid: string, match_: Match)
    | Removed(at: int, guid: string, regression: bool)
    | Renamed(at: int, guid: string, cn: Option<string>, sam: Option<string>)
    | Moved(at: int, guid: string, dn: string)
    | Disabled(at: int, guid: string)
    | ReEnabled(at: int, guid: string)

  type View = map<string, Match>

  // ---------------------------------------------------------------- what a probe shows

  function FirstMatches(ms: seq<Match>): (v: View) {
    if ms == [] then map[]
    else
      var before := FirstMatches(ms[..|ms| - 1]);
      var last := ms[|ms| - 1];
      if last.guid != "" && last.guid !in before then before[last.guid := last] else before
  }

  predicate NoneBefore(ms: seq<Match>, n: nat, guid: string)
    requires n <= |ms|
  {
    forall j :: 0 <= j < n ==> ms[j].guid != guid
  }

  /** The index holds exactly the named objects, each as its first match, `i`. */
  lemma {:induction false} FirstMatchWins(ms: seq<Match>, guid: string) returns (i: nat)
    ensures guid in FirstMatches(ms) ==>
      guid != "" && i < |ms| && ms[i].guid == guid && NoneBefore(ms, i, guid) && FirstMatches(ms)[guid] == ms[i]
    ensures guid !in FirstMatches(ms) ==> guid == "" || NoneBefore(ms, |ms|, guid)
  {
    i := 0;
    if ms != [] {
      var n := |ms| - 1;
      var rest := ms[..n];
      assert forall j :: 0 <= j < n ==> rest[j] == ms[j];
      i := FirstMatchWins(rest, guid);
      if guid !in FirstMatches(rest) { i := n; }
    }
  }

  function FirstComma(dn: string): (i: nat)
    ensures i <= |dn| && (i < |dn| ==> dn[i] == ',')
  {
    if dn == "" || dn[0] == ',' then 0 else 1 + FirstComma(dn[1..])
  }

  /** Everything after the first comma; nothing when there is no comma. */
  function ParentOu(dn: string): (p: string) {
    var i := FirstComma(dn);
    if i < |dn| then dn[i + 1..] else ""
  }

  /** Bit 0x2 of userAccountControl. */
  predicate AccountDisabled(uac: int) { (uac / 2) % 2 == 1 }

  /** Counted in fours, the bit is set on the upper half. */
  lemma DisabledBit(q: int, r: int)
    requires 0 <= r < 4
    ensures AccountDisabled(4 * q + r) <==> r >= 2
  {
    if r < 2 {
      assert (4 * q + r) / 2 == 2 * q;
    } else {
      assert (4 * q + r) / 2 == 2 * q + 1;
    }
  }

  lemma DisabledByRemainder(uac: int)
    ensures AccountDisabled(uac) <==> uac % 4 >= 2
  {
    DisabledBit(uac / 4, uac % 4);
  }

  lemma ParentIsTheRest(name: string, parent: string)
    requires ',' !in name
    ensures ParentOu(name + "," + parent) == parent && ParentOu(name) == ""
  {
    FirstCommaAt(name + "," + parent, |name|);
    FirstCommaAt(name, |name|);
  }

  /** What the timeline tracks of one object. */
  datatype Entry = Entry(cn: Option<string>, sam: Option<string>, disabled: bool, ou: string)

  function EntryOf(m: Match): (e: Entry) {
    Entry(m.cn, m.sam, AccountDisabled(m.uac), Lower(ParentOu(m.dn)))
  }

  // ---------------------------------------------------------------- replay

  type Directory = map<string, Entry>

  function Shown(v: View): (d: Directory) { map g | g in v :: EntryOf(v[g]) }

  function ApplyEvent(d: Directory, e: Event): (r: Directory) {
    match e
    case Appeared(_, ms) => d + Shown(FirstMatches(ms))
    case Created(_, g, m) => d[g := EntryOf(m)]
    case Removed(_, g, _) => d - {g}
    case Renamed(_, g, cn, sam) => if g in d then d[g := d[g].(cn := cn, sam := sam)] else d
    case Moved(_, g, dn) => if g in d then d[g := d[g].(ou := Lower(ParentOu(dn)))] else d
    case Disabled(_, g) => if g in d then d[g := d[g].(disabled := true)] else d
    case ReEnabled(_, g) => if g in d then d[g := d[g].(disabled := false)] else d
  }

  function Replay(d: Directory, es: seq<Event>): (r: Directory) {
    if es == [] then d else ApplyEvent(Replay(d, es[..|es| - 1]), es[|es| - 1])
  }

  lemma {:induction false} ReplayAppend(d: Directory, a: seq<Event>, b: seq<Event>)
    ensures Replay(d, a + b) == Replay(Replay(d, a), b)
  {
    if b == [] {
      assert a + b == a;
    } else {
      var n := |b| - 1;
      ReplayAppend(d, a, b[..n]);
      assert (a + b)[..|a + b| - 1] == a + b[..n];
    }
  }

  /** Same names and enabled bit. */
  predicate SameNames(a: Entry, b: Entry) { a.cn == b.cn && a.sam == b.sam && a.disabled == b.disabled }

  /** The directory shows the objects of the view under their names, wherever it places them. */
  ghost predicate ShowsNames(d: Directory, v: View) {
    d.Keys == v.Keys && forall g :: g in v ==> SameNames(d[g], EntryOf(v[g]))
  }

  // ---------------------------------------------------------------- one object that stays

  predicate OuMoved(p: Match, c: Match) {
    var a, b := ParentOu(p.dn), ParentOu(c.dn);
    Lower(a) != Lower(b) && a != "" && b != ""
  }

  function RenameEvents(at: int, g: string, p: Match, c: Match): (es: seq<Event>) {
    if p.cn != c.cn || p.sam != c.sam then [Renamed(at, g, c.cn, c.sam)] else []
  }

  function MoveEvents(at: int, g: string, p: Match, c: Match): (es: seq<Event>) {
    if OuMoved(p, c) then [Moved(at, g, c.dn)] else []
  }

  function FlagEvents(at: int, g: string, p: Match, c: Match): (es: seq<Event>) {
    if !AccountDisabled(p.uac) && AccountDisabled(c.uac) then [Disabled(at, g)]
    else if AccountDisabled(p.uac) && !AccountDisabled(c.uac) then [ReEnabled(at, g)]
    else []
  }

  function ChangeEvents(at: int, g: string, p: Match, c: Match): (es: seq<Event>) {
    RenameEvents(at, g, p, c) + MoveEvents(at, g, p, c) + FlagEvents(at, g, p, c)
  }

  /** Nothing the timeline reports differs between two matches of one object. */
  predicate QuietMatch(p: Match, c: Match) {
    SameNames(EntryOf(p), EntryOf(c)) && !OuMoved(p, c)
  }

  lemma LowerOfEmpty(s: string)
    ensures Lower(s) == "" <==> s == ""
  {
    if s == "" { assert Lower(s) == []; } else { assert |Lower(s)| == |s|; }
  }

  lemma ReplayShort(d: Directory, es: seq<Event>)
    requires |es| <= 1
    ensures Replay(d, es) == if es == [] then d else ApplyEvent(d, es[0])
  {
    if es != [] { assert es[..0] == []; }
  }

  /** The container a replay shows after one object's events. */
  function OuAfter(ou: string, p: Match, c: Match): (r: string) {
    if OuMoved(p, c) then EntryOf(c).ou else ou
  }

  lemma RenamePart(d: Directory, at: int, g: string, p: Match, c: Match)
    requires g in d && d[g].cn == p.cn && d[g].sam == p.sam
    ensures Replay(d, RenameEvents(at, g, p, c)) == d[g := d[g].(cn := c.cn, sam := c.sam)]
  {
    ReplayShort(d, RenameEvents(at, g, p, c));
  }

  lemma MovePart(d: Directory, at: int, g: string, p: Match, c: Match)
    requires g in d
    ensures Replay(d, MoveEvents(at, g, p, c)) == d[g := d[g].(ou := OuAfter(d[g].ou, p, c))]
  {
    ReplayShort(d, MoveEvents(at, g, p, c));
  }

  lemma FlagPart(d: Directory, at: int, g: string, p: Match, c: Match)
    requires g in d && d[g].disabled == AccountDisabled(p.uac)
    ensures Replay(d, FlagEvents(at, g, p, c)) == d[g := d[g].(disabled := AccountDisabled(c.uac))]
  {
    ReplayShort(d, FlagEvents(at, g, p, c));
  }

  /** Replaying the events of one object turns what was shown of it into what is shown now; other objects
      are untouched. */
  lemma ChangeEventsReplay(d: Directory, at: int, g: string, p: Match, c: Match)
    requires g in d && SameNames(d[g], EntryOf(p))
    ensures Replay(d, ChangeEvents(at, g, p, c)) == d[g := EntryOf(c).(ou := OuAfter(d[g].ou, p, c))]
  {
    var a, b, f := RenameEvents(at, g, p, c), MoveEvents(at, g, p, c), FlagEvents(at, g, p, c);
    ReplayAppend(d, a + b, f);
    ReplayAppend(d, a, b);
    RenamePart(d, at, g, p, c);
    var d1 := Replay(d, a);
    MovePart(d1, at, g, p, c);
    var d2 := Replay(d1, b);
    FlagPart(d2, at, g, p, c);
  }

  /** After one step from the right container the replayed one is right exactly when it has not changed or both
      containers are known. */
  lemma ContainerFollows(p: Match, c: Match)
    ensures OuAfter(EntryOf(p).ou, p, c) == EntryOf(c).ou <==>
      EntryOf(p).ou == EntryOf(c).ou || (ParentOu(p.dn) != "" && ParentOu(c.dn) != "")
    ensures forall at, g :: ChangeEvents(at, g, p, c) == [] <==> QuietMatch(p, c)
  {
    forall at, g ensures ChangeEvents(at, g, p, c) == [] <==> QuietMatch(p, c) {
      var a, b, f := RenameEvents(at, g, p, c), MoveEvents(at, g, p, c), FlagEvents(at, g, p, c);
      assert |a + b + f| == |a| + |b| + |f|;
    }
  }

  lemma {:induction false} FirstCommaAt(dn: string, k: nat)
    requires k <= |dn| && (k < |dn| ==> dn[k] == ',') && forall i :: 0 <= i < k ==> dn[i] != ','
    ensures FirstComma(dn) == k
  {
    if k > 0 { FirstCommaAt(dn[1..], k - 1); }
  }

  /** An object whose container becomes unknown moves without an event, so the container is not replayed. */
  lemma ContainerCanBeLost() returns (p: Match, c: Match)
    ensures ChangeEvents(0, "g", p, c) == []
    ensures EntryOf(p).ou != EntryOf(c).ou
  {
    p := Match("g", None, None, "CN=X,OU=A", 0);
    c := p.(dn := "CN=X");
    FirstCommaAt(p.dn, 4);
    FirstCommaAt(c.dn, 4);
    assert ParentOu(p.dn) == "OU=A" && ParentOu(c.dn) == "";
    LowerOfEmpty("OU=A");
    LowerOfEmpty("");
    assert !OuMoved(p, c);
  }

  // ---------------------------------------------------------------- what is an event

  /** Whether an event is due at a probe, told from the two views themselves. */
  predicate Due(at: int, p: View, c: View, e: Event) {
    e.at == at &&
    match e
    case Appeared(_, _) => false
    case Created(_, g, m) => g !in p && g in c && m == c[g]
    case Removed(_, g, regression) => g in p && g !in c && (regression <==> c == map[])
    case Renamed(_, g, cn, sam) =>
      g in p && g in c && cn == c[g].cn && sam == c[g].sam && (p[g].cn != c[g].cn || p[g].sam != c[g].sam)
    case Moved(_, g, dn) =>
      && g in p && g in c && dn == c[g].dn
      && ParentOu(p[g].dn) != "" && ParentOu(c[g].dn) != "" && Lower(ParentOu(p[g].dn)) != Lower(ParentOu(c[g].dn))
    case Disabled(_, g) => g in p && g in c && p[g].uac % 4 < 2 && c[g].uac % 4 >= 2
    case ReEnabled(_, g) => g in p && g in c && p[g].uac % 4 >= 2 && c[g].uac % 4 < 2
  }

  function GuidOf(e: Event): (g: string) { if e.Appeared? then "" else e.guid }

  predicate Once(es: seq<Event>) { forall i, j :: 0 <= i < j < |es| ==> es[i] != es[j] }

  /** The events are those due for the objects of the set, each once. */
  ghost predicate AreDue(at: int, p: View, c: View, guids: set<string>, es: seq<Event>) {
    Once(es) && forall e {:trigger Due(at, p, c, e)} :: e in es <==> Due(at, p, c, e) && GuidOf(e) in guids
  }

  /** The events are exactly those due, each once. */
  ghost predicate IsAllDue(at: int, p: View, c: View, es: seq<Event>) {
    Once(es) && forall e {:trigger Due(at, p, c, e)} :: e in es <==> Due(at, p, c, e)
  }

  /** The order of kinds within a part: what became of the objects that stay, then the new ones, then the lost ones. */
  function KindRank(e: Event): (k: nat) {
    match e
    case Created(_, _, _) => 1
    case Removed(_, _, _) => 2
    case _ => 0
  }

  predicate InKindOrder(es: seq<Event>) { forall i, j :: 0 <= i < j < |es| ==> KindRank(es[i]) <= KindRank(es[j]) }

  predicate AllOfRank(es: seq<Event>, k: nat) { forall i :: 0 <= i < |es| ==> KindRank(es[i]) == k }

  lemma RankOfDue(at: int, p: View, c: View, guids: set<string>, es: seq<Event>, k: nat)
    requires AreDue(at, p, c, guids, es)
    requires forall g :: g in guids ==> k == if g in p && g in c then 0 else if g in c then 1 else 2
    ensures AllOfRank(es, k)
  {
    forall i | 0 <= i < |es| ensures KindRank(es[i]) == k {
      assert es[i] in es;
      assert Due(at, p, c, es[i]) && GuidOf(es[i]) in guids;
    }
  }

  lemma RanksInParts(a: seq<Event>, b: seq<Event>, f: seq<Event>)
    requires AllOfRank(a, 0) && AllOfRank(b, 1) && AllOfRank(f, 2)
    ensures InKindOrder(a + b + f)
  {
  }

  /** Of one object: a change of name first, then of container, then of the enabled bit. */
  lemma ChangesInOrder(at: int, g: string, p: Match, c: Match, i: nat, j: nat)
    requires i < j < |ChangeEvents(at, g, p, c)|
    ensures var es := ChangeEvents(at, g, p, c);
      es[i].Renamed? || (es[i].Moved? && (es[j].Disabled? || es[j].ReEnabled?))
  {
  }

  lemma DueInParts(at: int, p: View, c: View, gs: set<string>, es: seq<Event>, hs: set<string>, fs: seq<Event>)
    requires AreDue(at, p, c, gs, es) && AreDue(at, p, c, hs, fs) && gs !! hs
    ensures AreDue(at, p, c, gs + hs, es + fs)
  {
    forall e ensures e in es + fs <==> Due(at, p, c, e) && GuidOf(e) in gs + hs {
      assert e in es + fs <==> e in es || e in fs;
    }
    forall e | e in es ensures e !in fs { assert Due(at, p, c, e); }
    OnceInParts(es, fs);
  }

  lemma ChangeIsDue(at: int, p: View, c: View, g: string, e: Event)
    requires g in p && g in c
    ensures e in ChangeEvents(at, g, p[g], c[g]) <==> Due(at, p, c, e) && GuidOf(e) == g
  {
    DisabledByRemainder(p[g].uac);
    DisabledByRemainder(c[g].uac);
    var a, b, f := RenameEvents(at, g, p[g], c[g]), MoveEvents(at, g, p[g], c[g]), FlagEvents(at, g, p[g], c[g]);
    assert e in ChangeEvents(at, g, p[g], c[g]) <==> e in a || e in b || e in f;
  }

  lemma ChangesDiffer(at: int, g: string, p: Match, c: Match)
    ensures Once(ChangeEvents(at, g, p, c))
  {
    var a, b, f := RenameEvents(at, g, p, c), MoveEvents(at, g, p, c), FlagEvents(at, g, p, c);
    OnceInParts(a, b);
    OnceInParts(a + b, f);
  }

  lemma OnceInParts(es: seq<Event>, fs: seq<Event>)
    requires Once(es) && Once(fs) && forall e :: e in es ==> e !in fs
    ensures Once(es + fs)
  {
    forall i, j | 0 <= i < j < |es + fs| ensures (es + fs)[i] != (es + fs)[j] {
      if i < |es| <= j { assert es[i] in es && fs[j - |es|] in fs; }
    }
  }

  lemma ChangesAreDue(at: int, p: View, c: View, g: string)
    requires g in p && g in c
    ensures AreDue(at, p, c, {g}, ChangeEvents(at, g, p[g], c[g]))
  {
    ChangesDiffer(at, g, p[g], c[g]);
    forall e ensures e in ChangeEvents(at, g, p[g], c[g]) <==> Due(at, p, c, e) && GuidOf(e) in {g} {
      ChangeIsDue(at, p, c, g, e);
    }
  }

  lemma OneIsDue(at: int, p: View, c: View, g: string)
    ensures AreDue(at, p, c, {g}, EventsOf(at, p, c, g))
  {
    if g in p && g in c {
      ChangesAreDue(at, p, c, g);
    } else {
      forall e ensures e in EventsOf(at, p, c, g) <==> Due(at, p, c, e) && GuidOf(e) in {g} { }
    }
  }

  /** Nothing the timeline reports differs between two views. */
  predicate Quiet(p: View, c: View) {
    p.Keys == c.Keys && forall g :: g in p ==> QuietMatch(p[g], c[g])
  }

  // ---------------------------------------------------------------- walking the objects

  /** The events of one object. */
  function EventsOf(at: int, p: View, c: View, g: string): (es: seq<Event>) {
    if g in p && g in c then ChangeEvents(at, g, p[g], c[g])
    else if g in c then [Created(at, g, c[g])]
    else if g in p then [Removed(at, g, c == map[])]
    else []
  }

  /** The events of some objects, walked in some order. */
  function Walk(at: int, p: View, c: View, order: seq<string>): (es: seq<Event>) {
    if order == [] then []
    else Walk(at, p, c, order[..|order| - 1]) + EventsOf(at, p, c, order[|order| - 1])
  }

  /** Every object of the set, each once. */
  ghost predicate Lists(order: seq<string>, guids: set<string>) {
    (forall g :: g in order <==> g in guids) && forall i, j :: 0 <= i < j < |order| ==> order[i] != order[j]
  }

  lemma ListsMore(order: seq<string>, guids: set<string>, more: seq<string>, others: set<string>)
    requires Lists(order, guids) && Lists(more, others) && guids !! others
    ensures Lists(order + more, guids + others)
  {
    var both := order + more;
    forall g ensures g in both <==> g in order || g in more { }
    forall i, j | 0 <= i < j < |both| ensures both[i] != both[j] {
      if i < |order| <= j { assert both[i] in order && both[j] in more; }
    }
  }

  lemma ListsFewer(order: seq<string>, guids: set<string>)
    requires order != [] && Lists(order, guids)
    ensures var n := |order| - 1; order[n] in guids && Lists(order[..n], guids - {order[n]})
  {
    var n := |order| - 1;
    assert order[n] in order;
    forall g ensures g in order[..n] <==> g in guids && g != order[n] {
      assert g in order <==> g in order[..n] || g == order[n];
    }
  }

  lemma Regroup(a: seq<Event>, b: seq<Event>, f: seq<Event>)
    ensures a + b + f == a + (b + f)
  {
  }

  lemma WalkOne(at: int, p: View, c: View, order: seq<string>, g: string)
    ensures Walk(at, p, c, order + [g]) == Walk(at, p, c, order) + EventsOf(at, p, c, g)
  {
    assert (order + [g])[..|order|] == order;
  }

  lemma {:induction false} WalkAppend(at: int, p: View, c: View, a: seq<string>, b: seq<string>)
    ensures Walk(at, p, c, a + b) == Walk(at, p, c, a) + Walk(at, p, c, b)
  {
    if b == [] {
      assert a + b == a;
    } else {
      var n := |b| - 1;
      WalkAppend(at, p, c, a, b[..n]);
      WalkOne(at, p, c, b[..n], b[n]);
      WalkOne(at, p, c, a + b[..n], b[n]);
      assert b[..n] + [b[n]] == b && a + b[..n] + [b[n]] == a + b;
      Regroup(Walk(at, p, c, a), Walk(at, p, c, b[..n]), EventsOf(at, p, c, b[n]));
    }
  }

  lemma {:induction false} WalkIsDue(at: int, p: View, c: View, order: seq<string>, guids: set<string>)
    requires Lists(order, guids)
    ensures AreDue(at, p, c, guids, Walk(at, p, c, order))
  {
    if order != [] {
      var n := |order| - 1;
      var g := order[n];
      ListsFewer(order, guids);
      WalkIsDue(at, p, c, order[..n], guids - {g});
      OneIsDue(at, p, c, g);
      DueInParts(at, p, c, guids - {g}, Walk(at, p, c, order[..n]), {g}, EventsOf(at, p, c, g));
      assert guids - {g} + {g} == guids;
    }
  }

  lemma WalkIsQuiet(at: int, p: View, c: View, order: seq<string>)
    requires Lists(order, p.Keys + c.Keys)
    ensures Walk(at, p, c, order) == [] <==> Quiet(p, c)
  {
    EmptyWalk(at, p, c, order);
    if Quiet(p, c) {
      forall g | g in order ensures EventsOf(at, p, c, g) == [] { ContainerFollows(p[g], c[g]); }
    } else if Walk(at, p, c, order) == [] {
      forall g | g in p.Keys + c.Keys ensures g in p && g in c && QuietMatch(p[g], c[g]) {
        assert EventsOf(at, p, c, g) == [];
        ContainerFollows(p[g], c[g]);
      }
    }
  }

  lemma {:induction false} EmptyWalk(at: int, p: View, c: View, order: seq<string>)
    ensures Walk(at, p, c, order) == [] <==> forall g :: g in order ==> EventsOf(at, p, c, g) == []
  {
    if order != [] {
      EmptyWalk(at, p, c, order[..|order| - 1]);
      assert forall g :: g in order <==> g in order[..|order| - 1] || g == order[|order| - 1];
    }
  }

  /** What one object that stays is shown as after its events. */
  function Restated(e: Entry, p: Match, c: Match): (r: Entry) { EntryOf(c).(ou := OuAfter(e.ou, p, c)) }

  /** What a directory that showed `p` shows when the objects in `done` have been walked: those that stay are restated,
      new ones shown as they are, and those gone are gone. */
  function Partly(d: Directory, p: View, c: View, done: set<string>): (r: Directory)
    requires d.Keys == p.Keys
  {
    map g | g in p.Keys + c.Keys && (if g in done then g in c else g in p) ::
      if g !in done then d[g] else if g in p then Restated(d[g], p[g], c[g]) else EntryOf(c[g])
  }

  function Diffed(d: Directory, p: View, c: View): (r: Directory)
    requires d.Keys == p.Keys
  {
    map g | g in c :: if g in p then Restated(d[g], p[g], c[g]) else EntryOf(c[g])
  }

  lemma PartlyStep(d: Directory, at: int, p: View, c: View, done: set<string>, g: string)
    requires ShowsNames(d, p) && g !in done
    ensures Replay(Partly(d, p, c, done), EventsOf(at, p, c, g)) == Partly(d, p, c, done + {g})
  {
    var now, es := Partly(d, p, c, done), EventsOf(at, p, c, g);
    PartlyMore(d, p, c, done, g);
    if g in p && g in c {
      ChangeEventsReplay(now, at, g, p[g], c[g]);
    } else {
      ReplayShort(now, es);
      assert g !in p ==> now - {g} == now;
    }
  }

  lemma PartlyAt(d: Directory, p: View, c: View, done: set<string>, g: string)
    requires d.Keys == p.Keys
    ensures g in Partly(d, p, c, done) <==> if g in done then g in c else g in p
    ensures g in Partly(d, p, c, done) ==>
      Partly(d, p, c, done)[g] == if g !in done then d[g] else if g in p then Restated(d[g], p[g], c[g]) else EntryOf(c[g])
  {
  }

  lemma PartlyElsewhere(d: Directory, p: View, c: View, done: set<string>, g: string)
    requires d.Keys == p.Keys
    ensures Partly(d, p, c, done + {g}) - {g} == Partly(d, p, c, done) - {g}
  {
    var a, b := Partly(d, p, c, done + {g}) - {g}, Partly(d, p, c, done) - {g};
    forall h ensures (h in a <==> h in b) && (h in a ==> a[h] == b[h]) {
      PartlyAt(d, p, c, done, h);
      PartlyAt(d, p, c, done + {g}, h);
    }
  }

  lemma SameButOne(a: Directory, b: Directory, g: string)
    requires a - {g} == b - {g}
    ensures g in a ==> a == b[g := a[g]]
    ensures g !in a ==> a == b - {g}
  {
    if g in a {
      forall h ensures (h in a <==> h in b[g := a[g]]) && (h in a ==> a[h] == b[g := a[g]][h]) {
        if h != g { assert (h in a - {g} <==> h in b - {g}) && (h in a - {g} ==> (a - {g})[h] == (b - {g})[h]); }
      }
    }
  }

  lemma PartlyMore(d: Directory, p: View, c: View, done: set<string>, g: string)
    requires d.Keys == p.Keys && g !in done
    ensures var now, more := Partly(d, p, c, done), Partly(d, p, c, done + {g});
      && (g in p <==> g in now) && (g in p ==> now[g] == d[g])
      && more ==
        if g in p && g in c then now[g := Restated(d[g], p[g], c[g])]
        else if g in c then now[g := EntryOf(c[g])]
        else now - {g}
  {
    PartlyElsewhere(d, p, c, done, g);
    SameButOne(Partly(d, p, c, done + {g}), Partly(d, p, c, done), g);
    PartlyAt(d, p, c, done, g);
    PartlyAt(d, p, c, done + {g}, g);
  }

  lemma {:induction false} WalkReplays(d: Directory, at: int, p: View, c: View, order: seq<string>, guids: set<string>)
    requires ShowsNames(d, p) && Lists(order, guids)
    ensures Replay(d, Walk(at, p, c, order)) == Partly(d, p, c, guids)
  {
    if order == [] {
      assert guids == {} && Partly(d, p, c, {}) == d;
    } else {
      var n := |order| - 1;
      var g := order[n];
      ListsFewer(order, guids);
      WalkReplays(d, at, p, c, order[..n], guids - {g});
      ReplayAppend(d, Walk(at, p, c, order[..n]), EventsOf(at, p, c, g));
      PartlyStep(d, at, p, c, guids - {g}, g);
      assert guids - {g} + {g} == guids;
    }
  }

  // ---------------------------------------------------------------- the detector

  method IndexMatches(ms: seq<Match>) returns (v: View)
    ensures v == FirstMatches(ms)
  {
    v := map[];
    var i := 0;
    assert ms[..0] == [];
    while i < |ms|
      invariant 0 <= i <= |ms|
      invariant v == FirstMatches(ms[..i])
    {
      assert ms[..i + 1][..i] == ms[..i];
      if ms[i].guid != "" && ms[i].guid !in v {
        v := v[ms[i].guid := ms[i]];
      }
      i := i + 1;
    }
    assert ms[..i] == ms;
  }

  method Changes(at: int, g: string, p: Match, c: Match) returns (es: seq<Event>)
    ensures es == ChangeEvents(at, g, p, c)
    ensures es == [] <==> QuietMatch(p, c)
  {
    ContainerFollows(p, c);
    es := [];
    if p.cn != c.cn || p.sam != c.sam {
      es := es + [Renamed(at, g, c.cn, c.sam)];
    }
    if OuMoved(p, c) {
      es := es + [Moved(at, g, c.dn)];
    }
    if !AccountDisabled(p.uac) && AccountDisabled(c.uac) {
      es := es + [Disabled(at, g)];
    } else if AccountDisabled(p.uac) && !AccountDisabled(c.uac) {
      es := es + [ReEnabled(at, g)];
    }
  }

  method DiffStaying(at: int, p: View, c: View) returns (es: seq<Event>, ghost order: seq<string>)
    ensures Lists(order, p.Keys * c.Keys) && es == Walk(at, p, c, order)
  {
    es, order := [], [];
    var todo := p.Keys * c.Keys;
    while todo != {}
      invariant todo <= p.Keys * c.Keys && Lists(order, p.Keys * c.Keys - todo)
      invariant es == Walk(at, p, c, order)
      decreases todo
    {
      var g :| g in todo;
      var mine := Changes(at, g, p[g], c[g]);
      assert (order + [g])[..|order|] == order;
      ListsMore(order, p.Keys * c.Keys - todo, [g], {g});
      es, order, todo := es + mine, order + [g], todo - {g};
      assert p.Keys * c.Keys - todo == p.Keys * c.Keys - (todo + {g}) + {g};
    }
    assert p.Keys * c.Keys - todo == p.Keys * c.Keys;
  }

  method CreateEach(at: int, news: set<string>, ghost p: View, c: View) returns (es: seq<Event>, ghost order: seq<string>)
    requires news <= c.Keys - p.Keys
    ensures Lists(order, news) && es == Walk(at, p, c, order)
  {
    es, order := [], [];
    var todo := news;
    while todo != {}
      invariant todo <= news && Lists(order, news - todo)
      invariant es == Walk(at, p, c, order)
      decreases todo
    {
      var g :| g in todo;
      assert (order + [g])[..|order|] == order;
      ListsMore(order, news - todo, [g], {g});
      es, order, todo := es + [Created(at, g, c[g])], order + [g], todo - {g};
      assert news - todo == news - (todo + {g}) + {g};
    }
    assert news - todo == news;
  }

  method RemoveEach(at: int, gone: set<string>, regression: bool, ghost p: View, ghost c: View) returns (es: seq<Event>, ghost order: seq<string>)
    requires gone <= p.Keys - c.Keys && (regression <==> c == map[])
    ensures Lists(order, gone) && es == Walk(at, p, c, order)
  {
    es, order := [], [];
    var todo := gone;
    while todo != {}
      invariant todo <= gone && Lists(order, gone - todo)
      invariant es == Walk(at, p, c, order)
      decreases todo
    {
      var g :| g in todo;
      assert (order + [g])[..|order|] == order;
      ListsMore(order, gone - todo, [g], {g});
      es, order, todo := es + [Removed(at, g, regression)], order + [g], todo - {g};
      assert gone - todo == gone - (todo + {g}) + {g};
    }
    assert gone - todo == gone;
  }

  /** Between two probes. The three sets of objects are walked in any order. */
  method DiffProbes(at: int, p: View, c: View, ghost d: Directory) returns (es: seq<Event>)
    requires ShowsNames(d, p)
    ensures Replay(d, es) == Diffed(d, p, c)
    ensures es == [] <==> Quiet(p, c)
    ensures IsAllDue(at, p, c, es)
    ensures InKindOrder(es)
  {
    var staying, a := DiffStaying(at, p, c);
    var added, b := CreateEach(at, c.Keys - p.Keys, p, c);
    var gone, f := RemoveEach(at, p.Keys - c.Keys, c == map[], p, c);
    es := staying + added + gone;
    ListsMore(a, p.Keys * c.Keys, b, c.Keys - p.Keys);
    ListsMore(a + b, p.Keys * c.Keys + (c.Keys - p.Keys), f, p.Keys - c.Keys);
    WalkAppend(at, p, c, a, b);
    WalkAppend(at, p, c, a + b, f);
    WalkRank(at, p, c, a, p.Keys * c.Keys, 0);
    WalkRank(at, p, c, b, c.Keys - p.Keys, 1);
    WalkRank(at, p, c, f, p.Keys - c.Keys, 2);
    RanksInParts(staying, added, gone);
    WholeWalk(at, p, c, a + b + f, p.Keys * c.Keys + (c.Keys - p.Keys) + (p.Keys - c.Keys), d);
  }

  lemma WalkRank(at: int, p: View, c: View, order: seq<string>, guids: set<string>, k: nat)
    requires Lists(order, guids)
    requires forall g :: g in guids ==> k == if g in p && g in c then 0 else if g in c then 1 else 2
    ensures AllOfRank(Walk(at, p, c, order), k)
  {
    WalkIsDue(at, p, c, order, guids);
    RankOfDue(at, p, c, guids, Walk(at, p, c, order), k);
  }

  lemma WholeWalk(at: int, p: View, c: View, order: seq<string>, guids: set<string>, d: Directory)
    requires ShowsNames(d, p) && Lists(order, guids)
    requires forall g :: g in guids <==> g in p || g in c
    ensures var es := Walk(at, p, c, order);
      && Replay(d, es) == Diffed(d, p, c) && (es == [] <==> Quiet(p, c))
      && IsAllDue(at, p, c, es)
  {
    assert guids == p.Keys + c.Keys;
    WalkReplays(d, at, p, c, order, guids);
    assert Partly(d, p, c, guids) == Diffed(d, p, c);
    WalkIsQuiet(at, p, c, order);
    WalkIsDue(at, p, c, order, guids);
    AllAreDue(at, p, c, guids, Walk(at, p, c, order));
  }

  lemma AllAreDue(at: int, p: View, c: View, guids: set<string>, es: seq<Event>)
    requires AreDue(at, p, c, guids, es) && guids == p.Keys + c.Keys
    ensures IsAllDue(at, p, c, es)
  {
  }

  // ---------------------------------------------------------------- the whole log

  /** What the first `n` probes end in. */
  function LastView(rows: seq<Probe>, n: nat): (v: View)
    requires n <= |rows|
  {
    if n == 0 then map[] else FirstMatches(rows[n - 1].matches)
  }

  /** What the log of the first `n` probes shows. */
  function ShownAfter(rows: seq<Probe>, n: nat): (d: Directory)
    requires n <= |rows|
    ensures d.Keys == LastView(rows, n).Keys
  {
    if n == 0 then map[] else Diffed(ShownAfter(rows, n - 1), LastView(rows, n - 1), LastView(rows, n))
  }

  lemma NamesShown(rows: seq<Probe>, n: nat)
    requires n <= |rows|
    ensures ShowsNames(ShownAfter(rows, n), LastView(rows, n))
  {
  }

  /** The names and enabled bits of the last probe, always. */
  lemma NamesAreRight(rows: seq<Probe>, n: nat, g: string)
    requires n <= |rows|
    ensures g in ShownAfter(rows, n) <==> g in LastView(rows, n)
    ensures g in LastView(rows, n) ==>
      && ShownAfter(rows, n)[g].cn == LastView(rows, n)[g].cn
      && ShownAfter(rows, n)[g].sam == LastView(rows, n)[g].sam
      && (ShownAfter(rows, n)[g].disabled <==> LastView(rows, n)[g].uac % 4 >= 2)
  {
    NamesShown(rows, n);
    if g in LastView(rows, n) { DisabledByRemainder(LastView(rows, n)[g].uac); }
  }

  // ---------------------------------------------------------------- the log as a sequence of parts

  function Flat(parts: seq<seq<Event>>): (es: seq<Event>) {
    if parts == [] then [] else Flat(parts[..|parts| - 1]) + parts[|parts| - 1]
  }

  /** What the log says at one probe: of the first, what it showed, if anything; of each later one, every event due
      between it and the one before, once. */
  ghost predicate PartIsRight(rows: seq<Probe>, i: nat, part: seq<Event>)
    requires i < |rows|
  {
    if i == 0 then part == if LastView(rows, 1) == map[] then [] else [Appeared(rows[0].at, rows[0].matches)]
    else InKindOrder(part) && IsAllDue(rows[i].at, LastView(rows, i), LastView(rows, i + 1), part)
  }

  /** For an object both of two consecutive probes show, the bit alone decides. */
  lemma FlipsAreLogged(rows: seq<Probe>, i: nat, part: seq<Event>, g: string)
    requires 0 < i < |rows| && PartIsRight(rows, i, part)
    requires g in FirstMatches(rows[i - 1].matches) && g in FirstMatches(rows[i].matches)
    ensures var was, now := FirstMatches(rows[i - 1].matches)[g].uac, FirstMatches(rows[i].matches)[g].uac;
      && (Disabled(rows[i].at, g) in part <==> was % 4 < 2 && now % 4 >= 2)
      && (ReEnabled(rows[i].at, g) in part <==> was % 4 >= 2 && now % 4 < 2)
  {
    assert Due(rows[i].at, LastView(rows, i), LastView(rows, i + 1), Disabled(rows[i].at, g)) <==> Disabled(rows[i].at, g) in part;
    assert Due(rows[i].at, LastView(rows, i), LastView(rows, i + 1), ReEnabled(rows[i].at, g)) <==> ReEnabled(rows[i].at, g) in part;
  }

  /** The first probe is reported as one event, if it shows anything; later ones by what changed. */
  method ProbeEvents(rows: seq<Probe>, i: nat, p: View, c: View, ghost d: Directory) returns (es: seq<Event>)
    requires i < |rows| && p == LastView(rows, i) && c == LastView(rows, i + 1) && d == ShownAfter(rows, i)
    ensures Replay(d, es) == ShownAfter(rows, i + 1)
    ensures PartIsRight(rows, i, es)
  {
    es := [];
    NamesShown(rows, i);
    if i > 0 {
      es := DiffProbes(rows[i].at, p, c, d);
    } else if c != map[] {
      es := [Appeared(rows[i].at, rows[i].matches)];
      AppearedShows(rows[i].at, rows[i].matches);
    } else {
      assert Replay(d, es) == d;
    }
  }

  lemma AppearedShows(at: int, ms: seq<Match>)
    ensures Replay(map[], [Appeared(at, ms)]) == Diffed(map[], map[], FirstMatches(ms))
  {
    ReplayShort(map[], [Appeared(at, ms)]);
    assert map[] + Shown(FirstMatches(ms)) == Shown(FirstMatches(ms));
  }

  /** The log of the first `n` probes: its parts, and what it replays to. */
  ghost predicate IsLog(rows: seq<Probe>, n: nat, es: seq<Event>, parts: seq<seq<Event>>)
    requires n <= |rows|
  {
    && Replay(map[], es) == ShownAfter(rows, n)
    && es == Flat(parts) && |parts| == n && forall i :: 0 <= i < n ==> PartIsRight(rows, i, parts[i])
  }

  lemma LogGrows(rows: seq<Probe>, n: nat, es: seq<Event>, parts: seq<seq<Event>>, more: seq<Event>)
    requires n < |rows| && IsLog(rows, n, es, parts)
    requires Replay(ShownAfter(rows, n), more) == ShownAfter(rows, n + 1) && PartIsRight(rows, n, more)
    ensures IsLog(rows, n + 1, es + more, parts + [more])
  {
    ReplayAppend(map[], es, more);
    assert (parts + [more])[..n] == parts;
    forall i | 0 <= i < n + 1 ensures PartIsRight(rows, i, (parts + [more])[i]) {
      assert i < n ==> PartIsRight(rows, i, parts[i]);
    }
  }

  /** The log of any sequence of probes says at each of them exactly what is due, each event once, and, replayed from
      nothing, shows the last probe's objects under its names and enabled bits, each in the container it was last
      reported in. */
  method AdTransitions(rows: seq<Probe>) returns (es: seq<Event>, ghost parts: seq<seq<Event>>)
    ensures Replay(map[], es) == ShownAfter(rows, |rows|)
    ensures es == Flat(parts) && |parts| == |rows| && forall i :: 0 <= i < |rows| ==> PartIsRight(rows, i, parts[i])
  {
    es, parts := [], [];
    var prev: View := map[];
    var i := 0;
    while i < |rows|
      invariant 0 <= i <= |rows| && prev == LastView(rows, i) && IsLog(rows, i, es, parts)
    {
      var current := IndexMatches(rows[i].matches);
      assert current == LastView(rows, i + 1);
      var more := ProbeEvents(rows, i, prev, current, ShownAfter(rows, i));
      LogGrows(rows, i, es, parts, more);
      es, parts := es + more, parts + [more];
      prev := current;
      i := i + 1;
    }
  }

  // ---------------------------------------------------------------- containers over the log

  /** The last probe at which an object now shown was reported as appearing, new, or moved. */
  function LastReported(rows: seq<Probe>, n: nat, g: string): (m: nat)
    requires n <= |rows| && g in LastView(rows, n)
    ensures 1 <= m <= n && g in LastView(rows, m)
  {
    if g !in LastView(rows, n - 1) || OuMoved(LastView(rows, n - 1)[g], LastView(rows, n)[g]) then n
    else LastReported(rows, n - 1, g)
  }

  lemma {:induction false} ShownWhereReported(rows: seq<Probe>, n: nat, g: string)
    requires n <= |rows| && g in LastView(rows, n)
    ensures ShownAfter(rows, n)[g].ou == EntryOf(LastView(rows, LastReported(rows, n, g))[g]).ou
  {
    if g in LastView(rows, n - 1) && !OuMoved(LastView(rows, n - 1)[g], LastView(rows, n)[g]) {
      ShownWhereReported(rows, n - 1, g);
    }
  }

  /** Over any log: an object is shown in its true container exactly when the one it was last reported in is that
      one. */
  lemma ContainerRightIff(rows: seq<Probe>, g: string)
    requires g in LastView(rows, |rows|)
    ensures ShownAfter(rows, |rows|)[g].ou == Lower(ParentOu(LastView(rows, |rows|)[g].dn)) <==>
      var m := LastReported(rows, |rows|, g);
      Lower(ParentOu(LastView(rows, m)[g].dn)) == Lower(ParentOu(LastView(rows, |rows|)[g].dn))
  {
    ShownWhereReported(rows, |rows|, g);
  }

  predicate KnownAt(rows: seq<Probe>, k: nat, g: string)
    requires k <= |rows|
  {
    g in LastView(rows, k) && ParentOu(LastView(rows, k)[g].dn) != ""
  }

  predicate KnownThroughout(rows: seq<Probe>, m: nat, n: nat, g: string)
    requires m <= n <= |rows|
  {
    forall k :: m <= k <= n ==> KnownAt(rows, k, g)
  }

  /** In particular when its container was known at every probe since. */
  lemma {:induction false} KnownMeansRight(rows: seq<Probe>, n: nat, g: string)
    requires n <= |rows| && g in LastView(rows, n) && KnownThroughout(rows, LastReported(rows, n, g), n, g)
    ensures Lower(ParentOu(LastView(rows, LastReported(rows, n, g))[g].dn)) == Lower(ParentOu(LastView(rows, n)[g].dn))
  {
    var m := LastReported(rows, n, g);
    if m < n {
      assert KnownAt(rows, n - 1, g) && KnownAt(rows, n, g);
      assert KnownThroughout(rows, m, n - 1, g);
      KnownMeansRight(rows, n - 1, g);
    }
  }
}
