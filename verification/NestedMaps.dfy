/** Reading and writing along a path of keys (runtime/aliases.c): two spellings of each operation. */
module NestedMaps {
  import opened FLValue

  type Path = seq<Value>

  ghost predicate StringKeys(path: Path) {
    forall i | 0 <= i < |path| :: path[i].Str?
  }

  // ---------- The operations ----------

  function GetIn(m: Value, path: Path): Value
    decreases |path|
  {
    if path == [] then m else if !m.Map? then Nil else GetIn(MapGet(m, path[0]), path[1..])
  }

  method GetInLoop(m: Value, path: Path) returns (r: Value)
    ensures r == GetIn(m, path)
  {
    r := m;
    var i := 0;
    while i < |path|
      invariant i <= |path| && GetIn(r, path[i..]) == GetIn(m, path)
    {
      if !r.Map? {
        return Nil;
      }
      assert path[i..][1..] == path[i + 1..];
      r := MapGet(r, path[i]);
      i := i + 1;
    }
  }

  /** `assoc_in`: an empty path changes nothing. */
  function AssocIn(m: Value, path: Path, v: Value): Value
    decreases |path|
  {
    if |path| == 0 then m
    else if |path| == 1 then MapSet(m, path[0], v)
    else
      var sub := MapGet(m, path[0]);
      MapSet(m, path[0], AssocIn(if sub.Nil? then EMPTY_MAP else sub, path[1..], v))
  }

  /** `fl_assoc_in`: an empty path gives the value itself. */
  function FlAssocIn(m: Value, path: Path, v: Value): Value {
    if path == [] then v else FlAssocFrom(m, path, 0, v)
  }

  function FlAssocFrom(m: Value, path: Path, i: nat, v: Value): Value
    requires i <= |path|
    decreases |path| - i
  {
    if i == |path| then v
    else if i == |path| - 1 then MapSet(m, path[i], v)
    else
      var sub := if m.Map? then MapGet(m, path[i]) else Nil;
      MapSet(m, path[i], FlAssocFrom(if sub.Map? then sub else EMPTY_MAP, path, i + 1, v))
  }

  /** `update_in`: the function applied at the end of the path. */
  function UpdateIn(m: Value, path: Path, f: Value -> Value): Value
    decreases |path|
  {
    if |path| == 0 then m
    else if |path| == 1 then MapSet(m, path[0], f(MapGet(m, path[0])))
    else
      var sub := MapGet(m, path[0]);
      MapSet(m, path[0], UpdateIn(if sub.Nil? then EMPTY_MAP else sub, path[1..], f))
  }

  /** `fl_update_in`: read, apply, write. */
  function FlUpdateIn(m: Value, path: Path, f: Value -> Value): Value {
    if path == [] then m else FlAssocFrom(m, path, 0, f(GetIn(m, path)))
  }

  // ---------- Laws ----------

  /** What is written is read back, whatever stood on the path. */
  lemma {:induction false} GetAfterAssoc(m: Value, path: Path, v: Value)
    requires path != [] && StringKeys(path)
    ensures GetIn(AssocIn(m, path, v), path) == v
    decreases |path|
  {
    var k := path[0];
    if |path| == 1 {
      GetAfterSet(m, k, v, k);
    } else {
      var sub := MapGet(m, k);
      var inner := AssocIn(if sub.Nil? then EMPTY_MAP else sub, path[1..], v);
      GetAfterSet(m, k, inner, k);
      GetAfterAssoc(if sub.Nil? then EMPTY_MAP else sub, path[1..], v);
    }
  }

  /** Reading below nothing, or below something that is no map, gives nil. */
  lemma {:induction false} NothingBelow(m: Value, path: Path)
    requires path != [] && (!m.Map? || m == EMPTY_MAP)
    ensures GetIn(m, path) == Nil
  {
    if m == EMPTY_MAP {
      assert MapGet(m, path[0]) == Nil;
      assert GetIn(m, path) == GetIn(Nil, path[1..]);
    }
  }

  lemma {:induction false} PrefixTails(a: Path, b: Path)
    requires a != [] && b != [] && a[0] == b[0]
    ensures a[1..] <= b[1..] <==> a <= b
  {
    if a[1..] <= b[1..] {
      assert a == [a[0]] + a[1..] && b == [b[0]] + b[1..];
    }
  }

  /** A path that neither continues the written one nor stops on it reads as before. */
  lemma {:induction false} OthersAfterAssoc(m: Value, path: Path, v: Value, other: Path)
    requires StringKeys(path) && StringKeys(other) && !(path <= other) && !(other <= path)
    ensures GetIn(AssocIn(m, path, v), other) == GetIn(m, other)
    decreases |path|
  {
    var k, q := path[0], other[0];
    var sub := MapGet(m, k);
    var below := if sub.Nil? then EMPTY_MAP else sub;
    if |path| == 1 {
      GetAfterSet(m, k, v, q);
      if !m.Map? { NothingBelow(m, other); Unset(m, other); }
    } else {
      GetAfterSet(m, k, AssocIn(below, path[1..], v), q);
      if k != q {
        if !m.Map? { Unset(m, other); }
      } else {
        PrefixTails(path, other);
        PrefixTails(other, path);
        OthersAfterAssoc(below, path[1..], v, other[1..]);
        if sub.Nil? {
          NothingBelow(EMPTY_MAP, other[1..]);
          NothingBelow(sub, other[1..]);
        }
        if !m.Map? { Unset(m, other); }
      }
    }
  }

  /** A value that is no map reads like a missing one. */
  lemma {:induction false} Unset(m: Value, path: Path)
    requires !m.Map? && path != []
    ensures GetIn(m, path) == Nil && MapGet(m, path[0]) == Nil && GetIn(Nil, path[1..]) == Nil
  {
  }

  /** On paths that are not empty the two spellings agree, on whatever keys. */
  lemma {:induction false} AssocSpellings(m: Value, path: Path, i: nat, v: Value)
    requires i < |path|
    ensures FlAssocFrom(m, path, i, v) == AssocIn(m, path[i..], v)
    decreases |path| - i
  {
    if i < |path| - 1 {
      var sub := MapGet(m, path[i]);
      var below := if sub.Nil? then EMPTY_MAP else sub;
      assert path[i..][1..] == path[i + 1..];
      AssocSpellings(if sub.Map? then sub else EMPTY_MAP, path, i + 1, v);
      if !sub.Map? {
        OverNonMap(below, path[i + 1..], v);
      }
    }
  }

  /** Writing into a value that is no map is writing into an empty one. */
  lemma {:induction false} OverNonMap(m: Value, path: Path, v: Value)
    requires path != [] && (!m.Map? || m == EMPTY_MAP)
    ensures AssocIn(m, path, v) == AssocIn(EMPTY_MAP, path, v)
  {
    assert MapGet(m, path[0]) == Nil == MapGet(EMPTY_MAP, path[0]);
  }

  /** The two writes are the same function except on the empty path, where one keeps the old value and the
      other replaces it. */
  lemma {:induction false} AssocAgreesExactly(m: Value, path: Path, v: Value)
    ensures AssocIn(m, path, v) == FlAssocIn(m, path, v) <==> path != [] || m == v
  {
    if path != [] {
      AssocSpellings(m, path, 0, v);
      assert path[0..] == path;
    }
  }

  lemma {:induction false} UpdateIsAssoc(m: Value, path: Path, f: Value -> Value)
    requires path != []
    ensures UpdateIn(m, path, f) == AssocIn(m, path, f(GetIn(m, path)))
    decreases |path|
  {
    var sub := MapGet(m, path[0]);
    if |path| == 1 {
      assert GetIn(sub, path[1..]) == sub;
      assert GetIn(m, path) == sub;
    } else {
      var below := if sub.Nil? then EMPTY_MAP else sub;
      UpdateIsAssoc(below, path[1..], f);
      assert GetIn(m, path) == GetIn(below, path[1..]) by {
        if sub.Nil? {
          NothingBelow(EMPTY_MAP, path[1..]);
          NothingBelow(sub, path[1..]);
        }
        if !m.Map? { Unset(m, path); }
      }
    }
  }

  /** Both updates are a read followed by a write, and both read back as the function of what was there. */
  lemma {:induction false} UpdatesAgree(m: Value, path: Path, f: Value -> Value)
    requires StringKeys(path)
    ensures UpdateIn(m, path, f) == FlUpdateIn(m, path, f)
    ensures path != [] ==> GetIn(UpdateIn(m, path, f), path) == f(GetIn(m, path))
  {
    if path != [] {
      UpdateIsAssoc(m, path, f);
      AssocSpellings(m, path, 0, f(GetIn(m, path)));
      assert path[0..] == path;
      GetAfterAssoc(m, path, f(GetIn(m, path)));
    }
  }
}
