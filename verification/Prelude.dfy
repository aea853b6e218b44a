/** Small shared vocabulary: optional values and extrema of finite integer sets. */
module Prelude {

  datatype Option<+T> = None | Some(value: T) {
    function GetOr(default: T): (r: T) {
      match this
      case None => default
      case Some(v) => v
    }

    /** SQL's COALESCE(this, other). */
    function Else(other: Option<T>): (r: Option<T>) {
      if Some? then this else other
    }
  }

  function MaxInt(a: int, b: int): (m: int) { if a < b then b else a }

  function MinInt(a: int, b: int): (m: int) { if b < a then b else a }

  lemma PickFrom<T>(s: set<T>) returns (x: T)
    requires s != {}
    ensures x in s
  {
    x :| x in s;
  }

  lemma PickKey<K, V>(m: map<K, V>, v: V) returns (k: K)
    requires exists k :: k in m && m[k] == v
    ensures k in m && m[k] == v
  {
    k :| k in m && m[k] == v;
  }

  ghost predicate IsLeast(s: set<int>, m: int) {
    m in s && forall x :: x in s ==> m <= x
  }

  /** A nonempty finite set of integers has a least element. */
  lemma {:induction false} LeastExists(s: set<int>) returns (m: int)
    requires s != {}
    ensures IsLeast(s, m)
  {
    m := PickFrom(s);
    var rest := s - {m};
    assert forall x :: x in s ==> x == m || x in rest;
    if rest != {} {
      var k := LeastExists(rest);
      m := MinInt(m, k);
    }
  }

  ghost function Least(s: set<int>): (m: int)
    requires s != {}
    ensures IsLeast(s, m)
  {
    assert exists m :: IsLeast(s, m) by { var m := LeastExists(s); }
    var m :| IsLeast(s, m);
    m
  }

  lemma NothingLeftOut<T>(a: set<T>, b: set<T>)
    ensures a - b == {} <==> a <= b
  {
    if a - b == {} {
      forall x | x in a ensures x in b { assert x !in a - b; }
    }
  }

  lemma SubsetCard<T>(a: set<T>, b: set<T>)
    requires a <= b
    ensures |a| <= |b|
  {
    if a != {} {
      var x :| x in a;
      SubsetCard(a - {x}, b - {x});
    }
  }
}
