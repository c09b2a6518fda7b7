/** The runtime's tagged value, its truth test, its equality and its maps (runtime/core.c,
    runtime/collection.c). Floats are exact reals here; a function value is an opaque handle. */
module FLValue {
  import opened Wrappers

  datatype Entry = Entry(key: Value, val: Value)

  datatype Value =
    | Int(i: int)
    | Float(f: real)
    | Bool(b: bool)
    | Nil
    | Str(s: string)
    | Vec(items: seq<Value>)
    | Map(entries: seq<Entry>)
    | Fn(id: nat)

  const EMPTY_MAP := Map([])

  /** `fl_truthy`: only false, nil and the two zeros are false. */
  predicate Truthy(v: Value) {
    match v
    case Bool(b) => b
    case Nil => false
    case Int(i) => i != 0
    case Float(f) => f != 0.0
    case _ => true
  }

  /** `fl_eq`: containers and functions are equal to nothing, not even to themselves. */
  predicate FlEq(a: Value, b: Value) {
    match (a, b)
    case (Nil, Nil) => true
    case (Int(i), Int(j)) => i == j
    case (Float(f), Float(g)) => f == g
    case (Int(i), Float(g)) => i as real == g
    case (Float(f), Int(j)) => f == j as real
    case (Bool(b), Bool(c)) => b == c
    case (Str(s), Str(t)) => s == t
    case _ => false
  }

  /** The first entry whose key equals `k`, as both `fl_map_get` and `fl_map_set` look for it. */
  function KeyIndex(entries: seq<Entry>, k: Value): (r: Option<nat>)
    ensures r.Some? ==> r.value < |entries| && FlEq(entries[r.value].key, k)
    ensures forall j | 0 <= j < (if r.Some? then r.value else |entries|) :: !FlEq(entries[j].key, k)
  {
    if entries == [] then None
    else if FlEq(entries[0].key, k) then Some(0)
    else
      match KeyIndex(entries[1..], k)
      case None => None
      case Some(i) => Some(i + 1)
  }

  function MapGet(m: Value, k: Value): Value {
    if !m.Map? then Nil
    else
      match KeyIndex(m.entries, k)
      case None => Nil
      case Some(i) => m.entries[i].val
  }

  /** Copy on write: an update keeps the entry's place and its old key, an insertion goes last,
      and anything that is not a map counts as the empty map. */
  function MapSet(m: Value, k: Value, v: Value): (r: Value)
    ensures r.Map?
  {
    var es := if m.Map? then m.entries else [];
    match KeyIndex(es, k)
    case None => Map(es + [Entry(k, v)])
    case Some(i) => Map(es[i := Entry(es[i].key, v)])
  }

  /** Setting a key that equals itself reads back, and no key unequal to it is disturbed. */
  lemma {:induction false} GetAfterSet(m: Value, k: Value, v: Value, q: Value)
    requires k.Str? && q.Str?
    ensures MapGet(MapSet(m, k, v), q) == if q == k then v else MapGet(m, q)
  {
    var es := if m.Map? then m.entries else [];
    match KeyIndex(es, k)
    case None =>
      KeyIndexOfAppend(es, Entry(k, v), q);
    case Some(i) =>
      KeyIndexOfUpdate(es, i, v, q);
  }

  lemma {:induction false} KeyIndexOfAppend(es: seq<Entry>, e: Entry, q: Value)
    ensures KeyIndex(es + [e], q)
            == if KeyIndex(es, q).Some? then KeyIndex(es, q) else if FlEq(e.key, q) then Some(|es|) else None
  {
    if es != [] {
      assert (es + [e])[1..] == es[1..] + [e];
      KeyIndexOfAppend(es[1..], e, q);
    }
  }

  lemma {:induction false} KeyIndexOfUpdate(es: seq<Entry>, i: nat, v: Value, q: Value)
    requires i < |es|
    ensures KeyIndex(es[i := Entry(es[i].key, v)], q) == KeyIndex(es, q)
  {
    if i == 0 {
      assert es[0 := Entry(es[0].key, v)][1..] == es[1..];
    } else {
      assert es[i := Entry(es[i].key, v)][1..] == es[1..][i - 1 := Entry(es[i].key, v)];
      KeyIndexOfUpdate(es[1..], i - 1, v, q);
    }
  }
}
