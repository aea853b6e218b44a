/** Whether a heartbeat shows the guest in the domain it was to join. */
module DomainMatch {
  import opened Text

  datatype JoinConfig = JoinConfig(enabled: bool, acceptable: seq<string>, fqdn: string, credentialDomain: string)

  datatype Beat = Beat(joined: bool, domain: string)

  datatype Reason = Matched | NotJoined | NoDomainName | DomainMismatch | StillWaiting

  // ---------------------------------------------------------------- distinct names

  function KeyOf(v: string): (k: string) { Lower(Strip(v)) }

  function Unique(values: seq<string>, seen: set<string>): (out: seq<string>) {
    if values == [] then []
    else if Strip(values[0]) == "" || KeyOf(values[0]) in seen then Unique(values[1..], seen)
    else [Strip(values[0])] + Unique(values[1..], seen + {KeyOf(values[0])})
  }

  method UniqueText(values: seq<string>) returns (out: seq<string>)
    ensures out == Unique(values, {})
  {
    out := [];
    var seen: set<string> := {};
    var i := 0;
    while i < |values|
      invariant 0 <= i <= |values|
      invariant Unique(values, {}) == out + Unique(values[i..], seen)
    {
      assert values[i..][1..] == values[i + 1..];
      var item := Strip(values[i]);
      if item != "" && Lower(item) !in seen {
        out := out + [item];
        seen := seen + {Lower(item)};
      }
      i := i + 1;
    }
  }

  predicate HasKey(values: seq<string>, key: string) {
    exists i :: 0 <= i < |values| && Strip(values[i]) != "" && KeyOf(values[i]) == key
  }

  lemma HasKeySplit(values: seq<string>, key: string)
    requires values != []
    ensures HasKey(values, key) <==> (Strip(values[0]) != "" && KeyOf(values[0]) == key) || HasKey(values[1..], key)
  {
    if HasKey(values[1..], key) {
      var i :| 0 <= i < |values[1..]| && Strip(values[1..][i]) != "" && KeyOf(values[1..][i]) == key;
      assert values[i + 1] == values[1..][i];
    }
    if i :| 0 < i < |values| && Strip(values[i]) != "" && KeyOf(values[i]) == key {
      assert values[1..][i - 1] == values[i];
    }
  }

  lemma StripTwice(v: string)
    ensures Strip(Strip(v)) == Strip(v)
  {
    StripTrims(v);
    NothingToStrip(Strip(v));
  }

  /** Dropping blanks and repeats loses no name. */
  lemma {:induction false} UniqueKeepsKeys(values: seq<string>, seen: set<string>, key: string)
    ensures HasKey(Unique(values, seen), key) <==> HasKey(values, key) && key !in seen
  {
    if values != [] {
      HasKeySplit(values, key);
      if Strip(values[0]) == "" || KeyOf(values[0]) in seen {
        UniqueKeepsKeys(values[1..], seen, key);
      } else {
        StripTwice(values[0]);
        UniqueKeepsKeys(values[1..], seen + {KeyOf(values[0])}, key);
        var out := Unique(values, seen);
        assert out[1..] == Unique(values[1..], seen + {KeyOf(values[0])});
        HasKeySplit(out, key);
      }
    }
  }

  // ---------------------------------------------------------------- the verdict

  /** The stored configuration carries every acceptable name, each once. */
  function Sanitize(c: JoinConfig): (r: JoinConfig) {
    if !c.enabled then JoinConfig(false, [], "", "")
    else JoinConfig(true, Unique(c.acceptable + [Strip(c.fqdn), Strip(c.credentialDomain)], {}), Strip(c.fqdn), Strip(c.credentialDomain))
  }

  predicate Listed(names: seq<string>, key: string) { exists i :: 0 <= i < |names| && Lower(names[i]) == key }

  function Verify(config: JoinConfig, hb: Beat): (r: (bool, Reason)) {
    var c := Sanitize(config);
    var observed, expected := Strip(hb.domain), Unique(c.acceptable, {});
    var matched := c.enabled && hb.joined && observed != "" && Listed(expected, Lower(observed));
    (matched,
     if !hb.joined then NotJoined
     else if observed == "" then NoDomainName
     else if expected != [] && !Listed(expected, Lower(observed)) then DomainMismatch
     else if matched then Matched
     else StillWaiting)
  }

  lemma {:induction false} UniqueIsStripped(values: seq<string>, seen: set<string>, i: nat)
    requires i < |Unique(values, seen)|
    ensures var v := Unique(values, seen)[i]; v != "" && Strip(v) == v
  {
    if Strip(values[0]) == "" || KeyOf(values[0]) in seen {
      UniqueIsStripped(values[1..], seen, i);
    } else {
      StripTwice(values[0]);
      if i > 0 { UniqueIsStripped(values[1..], seen + {KeyOf(values[0])}, i - 1); }
    }
  }

  lemma ListedIsHasKey(values: seq<string>, key: string)
    ensures Listed(Unique(values, {}), key) <==> HasKey(Unique(values, {}), key)
  {
    forall i | 0 <= i < |Unique(values, {})|
      ensures Strip(Unique(values, {})[i]) != "" && KeyOf(Unique(values, {})[i]) == Lower(Unique(values, {})[i])
    {
      UniqueIsStripped(values, {}, i);
    }
  }

  predicate NamesSome(values: seq<string>) { exists i :: 0 <= i < |values| && Strip(values[i]) != "" }

  lemma {:induction false} UniqueIsEmpty(values: seq<string>)
    ensures Unique(values, {}) == [] <==> !NamesSome(values)
  {
    if values != [] {
      if Strip(values[0]) == "" {
        UniqueIsEmpty(values[1..]);
        if i :| 0 <= i < |values| && Strip(values[i]) != "" { assert values[1..][i - 1] == values[i]; }
        if i :| 0 <= i < |values[1..]| && Strip(values[1..][i]) != "" { assert values[i + 1] == values[1..][i]; }
      } else {
        assert KeyOf(values[0]) !in {};
      }
    }
  }

  lemma ExpectedNone(c: JoinConfig)
    requires c.enabled
    ensures Unique(Sanitize(c).acceptable, {}) == [] <==> !NamesSome(c.acceptable + [c.fqdn, c.credentialDomain])
  {
    var raw, names := c.acceptable + [c.fqdn, c.credentialDomain], c.acceptable + [Strip(c.fqdn), Strip(c.credentialDomain)];
    StripTwice(c.fqdn);
    StripTwice(c.credentialDomain);
    forall i | 0 <= i < |raw| ensures Strip(raw[i]) == Strip(names[i]) { }
    assert NamesSome(raw) <==> NamesSome(names);
    UniqueIsEmpty(names);
    var once := Unique(names, {});
    UniqueIsEmpty(once);
    if once != [] {
      UniqueIsStripped(names, {}, 0);
      assert Strip(once[0]) != "";
    }
  }

  /** A heartbeat matches exactly when the join is enabled, the guest says it is joined, and the domain it
      names is one of the names configured, blanks and case aside. */
  lemma MatchMeaning(c: JoinConfig, hb: Beat)
    ensures Verify(c, hb).0 <==>
      && c.enabled && hb.joined && Strip(hb.domain) != ""
      && HasKey(c.acceptable + [Strip(c.fqdn), Strip(c.credentialDomain)], KeyOf(hb.domain))
    ensures Verify(c, hb).0 <==> Verify(c, hb).1 == Matched
    ensures Verify(c, hb).1 == NotJoined <==> !hb.joined
    ensures Verify(c, hb).1 == NoDomainName <==> hb.joined && Strip(hb.domain) == ""
    ensures c.enabled && hb.joined && Strip(hb.domain) != "" && !Verify(c, hb).0 ==>
      Verify(c, hb).1 == if NamesSome(c.acceptable + [c.fqdn, c.credentialDomain]) then DomainMismatch else StillWaiting
  {
    var names, key := c.acceptable + [Strip(c.fqdn), Strip(c.credentialDomain)], KeyOf(hb.domain);
    if c.enabled { ExpectedNone(c); }
    var once := Unique(names, {});
    UniqueKeepsKeys(names, {}, key);
    UniqueKeepsKeys(once, {}, key);
    ListedIsHasKey(once, key);
  }
}
