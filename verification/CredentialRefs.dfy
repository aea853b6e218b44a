/** Rewriting the credential references buried in task-sequence step parameters. */
module CredentialRefs {
  import opened Prelude

  datatype Json =
    | Null
    | Bool(b: bool)
    | Num(n: int)
    | Frac(r: real)
    | Str(s: string)
    | Arr(items: seq<Json>)
    | Obj(fields: seq<Field>)            // insertion-ordered

  datatype Field = Field(key: string, value: Json)

  const REF_KEYS: set<string> := {
    "credential_id", "ad_credential_id", "domain_join_credential_id",
    "local_admin_credential_id", "mde_onboarding_credential_id"}

  function Trunc(r: real): (n: int) { if r >= 0.0 then r.Floor else -((-r).Floor) }

  /** int(item), absent where it raises. How text converts is left to `parse`. */
  function IntOf(v: Json, parse: string -> Option<int>): (r: Option<int>) {
    match v
    case Bool(b) => Some(if b then 1 else 0)
    case Num(n) => Some(n)
    case Frac(r) => Some(Trunc(r))
    case Str(s) => parse(s)
    case _ => None
  }

  function Lookup(m: map<int, int>, id: int): (r: int) { if id in m then m[id] else id }

  function Remap(v: Json, m: map<int, int>, parse: string -> Option<int>): (r: Json) {
    match v
    case Arr(items) => Arr(seq(|items|, i requires 0 <= i < |items| => Remap(items[i], m, parse)))
    case Obj(fields) => Obj(seq(|fields|, i requires 0 <= i < |fields| =>
      Field(fields[i].key,
            if fields[i].key in REF_KEYS then RemapRef(fields[i].value, m, parse)
            else Remap(fields[i].value, m, parse))))
    case _ => v
  }

  function RemapRef(v: Json, m: map<int, int>, parse: string -> Option<int>): (r: Json) {
    match IntOf(v, parse)
    case Some(id) => Num(Lookup(m, id))
    case None => v
  }

  predicate IsRefKey(key: string) {
    || key == "credential_id" || key == "ad_credential_id" || key == "domain_join_credential_id"
    || key == "local_admin_credential_id" || key == "mde_onboarding_credential_id"
  }

  lemma TowardZero(r: real)
    ensures r >= 0.0 ==> 0 <= Trunc(r) && Trunc(r) as real <= r < (Trunc(r) + 1) as real
    ensures r <= 0.0 ==> Trunc(r) <= 0 && (Trunc(r) - 1) as real < r <= Trunc(r) as real
  {
    if r < 0.0 {
      var n := (-r).Floor;
      assert n as real <= -r < n as real + 1.0;
    }
  }

  /** A number, a truth value, a fraction cut towards zero, or a text that reads as a number. */
  predicate ReadsAs(v: Json, parse: string -> Option<int>, id: int) {
    match v
    case Num(n) => n == id
    case Bool(b) => id == if b then 1 else 0
    case Frac(r) => if r >= 0.0 then id >= 0 && id as real <= r < (id + 1) as real else id <= 0 && (id - 1) as real < r <= id as real
    case Str(s) => parse(s) == Some(id)
    case _ => false
  }

  lemma ReadsIff(v: Json, parse: string -> Option<int>, id: int)
    ensures ReadsAs(v, parse, id) <==> IntOf(v, parse) == Some(id)
  {
    if v.Frac? { TowardZero(v.r); }
  }

  /** Of one field: what reads as an id under one of the five names is looked up, an id that was not migrated staying as
      it is; any other value under them is left alone, and under other names the search goes on below. */
  lemma FieldAfterRemap(fields: seq<Field>, i: nat, m: map<int, int>, parse: string -> Option<int>, id: int)
    requires i < |fields|
    ensures var v, r := fields[i].value, Remap(Obj(fields), m, parse);
      && r.Obj? && |r.fields| == |fields| && r.fields[i].key == fields[i].key
      && (!IsRefKey(fields[i].key) ==> r.fields[i].value == Remap(v, m, parse))
      && (IsRefKey(fields[i].key) && ReadsAs(v, parse, id) ==> r.fields[i].value == Num(if id in m then m[id] else id))
      && (IsRefKey(fields[i].key) && (forall n :: !ReadsAs(v, parse, n)) ==> r.fields[i].value == v)
  {
    assert fields[i].key in REF_KEYS <==> IsRefKey(fields[i].key);
    ReadsIff(fields[i].value, parse, id);
    if IntOf(fields[i].value, parse).Some? { ReadsIff(fields[i].value, parse, IntOf(fields[i].value, parse).value); }
  }

  /** The credential id found by following positions into the value; references are not searched inside
      the value of a reference key. */
  function RefAt(v: Json, path: seq<nat>, parse: string -> Option<int>): (r: Option<int>)
    decreases |path|
  {
    if path == [] then None
    else match v
      case Arr(items) => if path[0] < |items| then RefAt(items[path[0]], path[1..], parse) else None
      case Obj(fields) =>
        if path[0] >= |fields| then None
        else if fields[path[0]].key in REF_KEYS then
          if |path| == 1 then IntOf(fields[path[0]].value, parse) else None
        else RefAt(fields[path[0]].value, path[1..], parse)
      case _ => None
  }

  /** At every position, whatever the depth, exactly the reference there is looked up in the map. */
  lemma {:induction false} EveryRefIsRemapped(v: Json, m: map<int, int>, parse: string -> Option<int>, path: seq<nat>)
    ensures RefAt(Remap(v, m, parse), path, parse) ==
      match RefAt(v, path, parse) { case Some(id) => Some(Lookup(m, id)) case None => None }
    decreases |path|
  {
    if path != [] {
      match v
      case Arr(items) =>
        if path[0] < |items| { EveryRefIsRemapped(items[path[0]], m, parse, path[1..]); }
      case Obj(fields) =>
        if path[0] < |fields| && fields[path[0]].key !in REF_KEYS {
          EveryRefIsRemapped(fields[path[0]].value, m, parse, path[1..]);
        }
      case _ =>
    }
  }

  /** The value with every convertible reference blanked out. */
  function Blank(v: Json, parse: string -> Option<int>): (r: Json) {
    match v
    case Arr(items) => Arr(seq(|items|, i requires 0 <= i < |items| => Blank(items[i], parse)))
    case Obj(fields) => Obj(seq(|fields|, i requires 0 <= i < |fields| =>
      Field(fields[i].key,
            if fields[i].key in REF_KEYS then (if IntOf(fields[i].value, parse).Some? then Null else fields[i].value)
            else Blank(fields[i].value, parse))))
    case _ => v
  }

  /** Nothing but the references changes. */
  lemma {:induction false} OnlyRefsChange(v: Json, m: map<int, int>, parse: string -> Option<int>)
    ensures Blank(Remap(v, m, parse), parse) == Blank(v, parse)
  {
    match v
    case Arr(items) =>
      forall i | 0 <= i < |items| ensures Blank(Remap(items[i], m, parse), parse) == Blank(items[i], parse) {
        OnlyRefsChange(items[i], m, parse);
      }
    case Obj(fields) =>
      forall i | 0 <= i < |fields| ensures Blank(Remap(fields[i].value, m, parse), parse) == Blank(fields[i].value, parse) {
        OnlyRefsChange(fields[i].value, m, parse);
      }
    case _ =>
  }
}
