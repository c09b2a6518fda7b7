/** Sequences: a stretch by position, and small facts. */
module Sequences {
  /** The elements of s from p on begin with t. */
  ghost predicate Ahead<T>(s: seq<T>, p: nat, t: seq<T>) {
    p + |t| <= |s| && forall k | 0 <= k < |t| :: s[p + k] == t[k]
  }

  lemma {:induction false} AheadSplit<T>(s: seq<T>, p: nat, a: seq<T>, b: seq<T>)
    requires Ahead(s, p, a + b)
    ensures Ahead(s, p, a) && Ahead(s, p + |a|, b)
  {
    assert forall k | 0 <= k < |a| :: (a + b)[k] == a[k];
    assert forall k | 0 <= k < |b| :: (a + b)[|a| + k] == b[k];
  }

  lemma {:induction false} AheadFirst<T>(s: seq<T>, p: nat, t: seq<T>)
    requires Ahead(s, p, t) && t != []
    ensures p < |s| && s[p] == t[0]
  {
    assert s[p + 0] == t[0];
  }

  lemma {:induction false} AheadSlice<T>(s: seq<T>, p: nat, t: seq<T>)
    requires Ahead(s, p, t)
    ensures s[p..p + |t|] == t
  {
  }

  /** One element, a middle part and the rest. */
  lemma {:induction false} AheadParts<T>(c: T, t: seq<T>, rest: seq<T>)
    ensures var s := [c] + t + rest; s[0] == c && Ahead(s, 1, t) && Ahead(s, 1 + |t|, rest)
  {
  }

  lemma {:induction false} AheadSelf<T>(t: seq<T>)
    ensures Ahead(t, 0, t)
  {
  }

  lemma {:induction false} Assoc<T>(a: seq<T>, b: seq<T>, c: seq<T>)
    ensures a + b + c == a + (b + c)
  {
  }

  lemma {:induction false} Regroup<T>(a: seq<T>, b: seq<T>, c: seq<T>, d: seq<T>)
    ensures a + b + c + d == a + (b + c + d)
  {
  }

  lemma {:induction false} Nest<T>(a: seq<T>, b: seq<T>, c: seq<T>, d: seq<T>)
    ensures a + b + c + d == a + (b + (c + d))
  {
  }

  lemma {:induction false} Recons<T>(acc: seq<T>, t: seq<T>)
    requires t != []
    ensures acc + [t[0]] + t[1..] == acc + t
  {
  }

  /** The character at p, if the text reaches that far. */
  predicate Is(s: string, p: nat, c: char) {
    p < |s| && s[p] == c
  }

  ghost predicate NoRepeats<T>(s: seq<T>) {
    forall i, j | 0 <= i < j < |s| :: s[i] != s[j]
  }
}
