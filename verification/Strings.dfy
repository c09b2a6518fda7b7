/** `split`, `join` and `str_replace` of runtime/math.c: what they compute, and the buffer loops
    that compute it. A C string is the sequence of its characters before the terminating NUL, and
    the C cursors are indices into it. */
module Strings {
  import opened FLValue
  import opened Sequences
  import opened Wrappers

  predicate OccursAt(s: string, d: string, i: int) {
    0 <= i <= |s| - |d| && SameFrom(s, d, i, 0)
  }

  /** Character by character, from the k-th on. */
  predicate SameFrom(s: string, d: string, i: nat, k: nat)
    requires i + |d| <= |s| && k <= |d|
    decreases |d| - k
  {
    k == |d| || (s[i + k] == d[k] && SameFrom(s, d, i, k + 1))
  }

  lemma {:induction false} SameFromIsSlice(s: string, d: string, i: nat, k: nat)
    requires i + |d| <= |s| && k <= |d|
    ensures SameFrom(s, d, i, k) <==> s[i + k..i + |d|] == d[k..]
    decreases |d| - k
  {
    if k < |d| {
      SameFromIsSlice(s, d, i, k + 1);
      assert s[i + k..i + |d|] == [s[i + k]] + s[i + k + 1..i + |d|] && d[k..] == [d[k]] + d[k + 1..];
    }
  }

  lemma {:induction false} OccursIsSlice(s: string, d: string, i: int)
    requires 0 <= i <= |s| - |d|
    ensures OccursAt(s, d, i) <==> s[i..i + |d|] == d
  {
    SameFromIsSlice(s, d, i, 0);
  }

  /** `strstr(s + p, d)` */
  function Find(s: string, p: nat, d: string): (r: Option<nat>)
    ensures r.Some? ==> p <= r.value && OccursAt(s, d, r.value)
    ensures forall j | p <= j < (if r.Some? then r.value else |s| + 1) :: !OccursAt(s, d, j)
    decreases |s| - p
  {
    if p + |d| > |s| then None
    else if OccursAt(s, d, p) then Some(p)
    else Find(s, p + 1, d)
  }

  function ReplaceFrom(s: string, p: nat, f: string, t: string): string
    requires |f| > 0 && p <= |s|
    decreases |s| - p
  {
    match Find(s, p, f)
    case None => s[p..]
    case Some(i) => s[p..i] + t + ReplaceFrom(s, i + |f|, f, t)
  }

  function Replace(s: string, f: string, t: string): string {
    if |f| == 0 then s else ReplaceFrom(s, 0, f, t)
  }

  function SplitFrom(s: string, p: nat, d: string): (r: seq<string>)
    requires |d| > 0 && p <= |s|
    ensures |r| > 0
    decreases |s| - p
  {
    match Find(s, p, d)
    case None => [s[p..]]
    case Some(i) => [s[p..i]] + SplitFrom(s, i + |d|, d)
  }

  function Split(s: string, d: string): seq<string>
    requires |d| > 0
  {
    SplitFrom(s, 0, d)
  }

  function Join(parts: seq<string>, d: string): string {
    if parts == [] then ""
    else if |parts| == 1 then parts[0]
    else parts[0] + d + Join(parts[1..], d)
  }

  lemma {:induction false} CutTwice(s: string, p: nat, i: nat, j: nat)
    requires p <= i <= j <= |s|
    ensures s[p..] == s[p..i] + s[i..j] + s[j..]
  {
  }

  lemma {:induction false} JoinOfCons(p: string, ps: seq<string>, d: string)
    requires |ps| > 0
    ensures Join([p] + ps, d) == p + d + Join(ps, d)
  {
    assert ([p] + ps)[1..] == ps;
  }

  lemma {:induction false} Uncons<T>(s: seq<T>)
    requires |s| > 0
    ensures s == [s[0]] + s[1..] && (|s| == 1 ==> s == [s[0]])
  {
  }

  lemma {:induction false} Shift3(a: string, b: string, c: string, d: string)
    ensures a + (b + c + d) == a + b + c + d
  {
  }

  /** Splitting then joining with the same separator changes nothing. */
  lemma {:induction false} JoinOfSplit(s: string, d: string)
    requires |d| > 0
    ensures Join(Split(s, d), d) == s
  {
    JoinOfSplitFrom(s, 0, d);
  }

  lemma {:induction false} JoinOfSplitFrom(s: string, p: nat, d: string)
    requires |d| > 0 && p <= |s|
    ensures Join(SplitFrom(s, p, d), d) == s[p..]
    decreases |s| - p
  {
    match Find(s, p, d)
    case None =>
    case Some(i) =>
      JoinOfSplitFrom(s, i + |d|, d);
      JoinOfCons(s[p..i], SplitFrom(s, i + |d|, d), d);
      CutAround(s, p, i, d);
  }

  lemma {:induction false} CutAround(s: string, p: nat, i: nat, d: string)
    requires p <= i && OccursAt(s, d, i)
    ensures s[p..i] + d + s[i + |d|..] == s[p..]
  {
    OccursIsSlice(s, d, i);
    CutTwice(s, p, i, i + |d|);
  }

  /** Replacing is splitting at the pattern and joining with the replacement. */
  lemma {:induction false} ReplaceIsSplitThenJoin(s: string, f: string, t: string)
    requires |f| > 0
    ensures Replace(s, f, t) == Join(Split(s, f), t)
  {
    ReplaceFromIsSplitThenJoin(s, 0, f, t);
  }

  lemma {:induction false} ReplaceFromIsSplitThenJoin(s: string, p: nat, f: string, t: string)
    requires |f| > 0 && p <= |s|
    ensures ReplaceFrom(s, p, f, t) == Join(SplitFrom(s, p, f), t)
    decreases |s| - p
  {
    match Find(s, p, f)
    case None =>
    case Some(i) =>
      ReplaceFromIsSplitThenJoin(s, i + |f|, f, t);
      JoinOfCons(s[p..i], SplitFrom(s, i + |f|, f), t);
  }

  /** A one-character replacement works character by character. */
  function Substitute(s: string, c: char, t: string): string {
    if s == [] then [] else (if s[0] == c then t else [s[0]]) + Substitute(s[1..], c, t)
  }

  lemma {:induction false} ReplaceIsSubstitute(s: string, c: char, t: string)
    ensures Replace(s, [c], t) == Substitute(s, c, t)
  {
    ReplaceFromIsSubstitute(s, 0, c, t);
    assert s[0..] == s;
  }

  lemma {:induction false} ReplaceFromIsSubstitute(s: string, p: nat, c: char, t: string)
    requires p <= |s|
    ensures ReplaceFrom(s, p, [c], t) == Substitute(s[p..], c, t)
    decreases |s| - p
  {
    if p < |s| {
      ReplaceFromIsSubstitute(s, p + 1, c, t);
      assert s[p..][1..] == s[p + 1..];
      if s[p] == c {
        assert OccursAt(s, [c], p) && s[p..p] + t == t;
      } else {
        ReplaceFromSkips(s, p, c, t);
      }
    }
  }

  lemma {:induction false} ReplaceFromSkips(s: string, p: nat, c: char, t: string)
    requires p < |s| && s[p] != c
    ensures ReplaceFrom(s, p, [c], t) == [s[p]] + ReplaceFrom(s, p + 1, [c], t)
  {
    match Find(s, p, [c])
    case None =>
    case Some(i) =>
      Shift3([s[p]], s[p + 1..i], t, ReplaceFrom(s, i + 1, [c], t));
      assert s[p..i] == [s[p]] + s[p + 1..i];
  }

  ghost predicate Free(t: string, d: string) {
    forall i :: !OccursAt(t, d, i)
  }

  /** The separator cannot be found before it is meant: it occurs neither in the last piece, nor in any other one
      followed by all but the last character of the separator. */
  ghost predicate Separable(parts: seq<string>, d: string)
    requires |d| > 0
  {
    forall k | 0 <= k < |parts| :: Free(if k + 1 < |parts| then parts[k] + d[..|d| - 1] else parts[k], d)
  }

  lemma {:induction false} SeparableCons(parts: seq<string>, d: string)
    requires |d| > 0 && |parts| > 1
    ensures Separable(parts, d) <==> Free(parts[0] + d[..|d| - 1], d) && Separable(parts[1..], d)
  {
    assert forall k | 1 <= k < |parts| :: parts[k] == parts[1..][k - 1];
    if Free(parts[0] + d[..|d| - 1], d) && Separable(parts[1..], d) {
      forall k | 0 <= k < |parts|
        ensures Free(if k + 1 < |parts| then parts[k] + d[..|d| - 1] else parts[k], d)
      {
        assert k > 0 ==> Free(if k < |parts[1..]| then parts[1..][k - 1] + d[..|d| - 1] else parts[1..][k - 1], d);
      }
    }
    if Separable(parts, d) {
      forall k | 0 <= k < |parts[1..]|
        ensures Free(if k + 1 < |parts[1..]| then parts[1..][k] + d[..|d| - 1] else parts[1..][k], d)
      {
        assert Free(if k + 1 + 1 < |parts| then parts[k + 1] + d[..|d| - 1] else parts[k + 1], d);
      }
    }
  }

  /** Occurrences in a stretch of s are occurrences in s. */
  lemma {:induction false} OccursInStretch(s: string, p: nat, t: string, d: string, j: int)
    requires p + |t| <= |s| && s[p..p + |t|] == t && 0 <= j <= |t| - |d|
    ensures OccursAt(t, d, j) <==> OccursAt(s, d, p + j)
  {
    OccursIsSlice(t, d, j);
    OccursIsSlice(s, d, p + j);
    var a, b := t[j..j + |d|], s[p + j..p + j + |d|];
    forall k | 0 <= k < |d|
      ensures a[k] == b[k]
    {
      assert a[k] == t[j + k] == s[p..p + |t|][j + k] == s[p + (j + k)] == b[k];
    }
  }

  /** Joining and splitting with the same separator gives the list back if and only if it is not empty and the
      separator cannot be found too early. */
  lemma {:induction false} SplitOfJoin(parts: seq<string>, d: string)
    requires |d| > 0
    ensures Split(Join(parts, d), d) == parts <==> |parts| > 0 && Separable(parts, d)
  {
    var s := Join(parts, d);
    assert s[0..] == s;
    if |parts| > 0 && Separable(parts, d) {
      SplitFromOfJoin(s, 0, parts, d);
    } else if |parts| > 0 {
      PiecesAreSeparable(s, 0, d);
    }
  }

  lemma {:induction false} SplitFromOfJoin(s: string, p: nat, parts: seq<string>, d: string)
    requires |d| > 0 && |parts| > 0 && Separable(parts, d)
    requires p <= |s| && s[p..] == Join(parts, d)
    ensures SplitFrom(s, p, d) == parts
    decreases |parts|
  {
    if |parts| == 1 {
      LastPiece(s, p, parts[0], d);
    } else {
      var next := FirstCut(s, p, parts, d);
      SplitFromOfJoin(s, next, parts[1..], d);
    }
    Uncons(parts);
  }

  lemma {:induction false} FirstCut(s: string, p: nat, parts: seq<string>, d: string) returns (next: nat)
    requires |d| > 0 && |parts| > 1 && Separable(parts, d) && p <= |s| && s[p..] == Join(parts, d)
    ensures next <= |s| && SplitFrom(s, p, d) == [parts[0]] + SplitFrom(s, next, d)
    ensures s[next..] == Join(parts[1..], d) && Separable(parts[1..], d)
  {
    next := p + |parts[0]| + |d|;
    SeparableCons(parts, d);
    FirstPiece(s, p, parts[0], Join(parts[1..], d), d);
  }

  lemma {:induction false} LastPiece(s: string, p: nat, piece: string, d: string)
    requires |d| > 0 && p <= |s| && s[p..] == piece && Free(piece, d)
    ensures SplitFrom(s, p, d) == [piece]
  {
    assert s[p..p + |piece|] == piece;
    forall j | p <= j <= |s| - |d|
      ensures !OccursAt(s, d, j)
    {
      OccursInStretch(s, p, piece, d, j - p);
    }
  }

  lemma {:induction false} FirstPiece(s: string, p: nat, piece: string, rest: string, d: string)
    requires |d| > 0 && p <= |s| && s[p..] == piece + d + rest && Free(piece + d[..|d| - 1], d)
    ensures var q := p + |piece|; Find(s, p, d) == Some(q) && s[p..q] == piece && s[q + |d|..] == rest
  {
    var q, t := p + |piece|, piece + d[..|d| - 1];
    assert s[p..][..|piece|] == s[p..q] && s[p..][|piece|..|piece| + |d|] == s[q..q + |d|] == d;
    assert s[p..][|piece| + |d|..] == s[q + |d|..];
    OccursIsSlice(s, d, q);
    assert s[p..p + |t|] == s[p..q] + s[q..q + |d|][..|d| - 1] == t;
    forall j | p <= j < q
      ensures !OccursAt(s, d, j)
    {
      OccursInStretch(s, p, t, d, j - p);
    }
  }

  /** Nothing is cut before the separator is found. */
  lemma {:induction false} PiecesAreSeparable(s: string, p: nat, d: string)
    requires |d| > 0 && p <= |s|
    ensures Separable(SplitFrom(s, p, d), d)
    decreases |s| - p
  {
    match Find(s, p, d)
    case None =>
      PieceIsFree(s, p, |s|, s[p..], d);
    case Some(i) =>
      PiecesAreSeparable(s, i + |d|, d);
      HeadIsFree(s, p, i, d);
      ConsSeparable(s[p..i], SplitFrom(s, i + |d|, d), d);
  }

  lemma {:induction false} ConsSeparable(head: string, rest: seq<string>, d: string)
    requires |d| > 0 && rest != [] && Free(head + d[..|d| - 1], d) && Separable(rest, d)
    ensures Separable([head] + rest, d)
  {
    assert ([head] + rest)[1..] == rest;
    SeparableCons([head] + rest, d);
  }

  lemma {:induction false} HeadIsFree(s: string, p: nat, i: nat, d: string)
    requires |d| > 0 && p <= |s| && Find(s, p, d) == Some(i)
    ensures p <= i <= |s| && Free(s[p..i] + d[..|d| - 1], d)
  {
    OccursIsSlice(s, d, i);
    var t := s[p..i] + d[..|d| - 1];
    assert t == s[p..i] + s[i..i + |d|][..|d| - 1] == s[p..p + |t|];
    PieceIsFree(s, p, i, t, d);
  }

  lemma {:induction false} PieceIsFree(s: string, p: nat, i: nat, t: string, d: string)
    requires |d| > 0 && p <= i <= |s| && p + |t| <= |s| && s[p..p + |t|] == t && |t| <= i - p + |d| - 1
    requires forall j | p <= j < i :: !OccursAt(s, d, j)
    ensures Free(t, d)
  {
    forall j | 0 <= j <= |t| - |d|
      ensures !OccursAt(t, d, j)
    {
      OccursInStretch(s, p, t, d, j);
    }
  }

  /** With one character as separator: no piece may contain it. */
  lemma {:induction false} SplitOfJoinChar(parts: seq<string>, c: char)
    ensures Split(Join(parts, [c]), [c]) == parts <==> |parts| > 0 && forall k | 0 <= k < |parts| :: c !in parts[k]
  {
    SplitOfJoin(parts, [c]);
    forall k | 0 <= k < |parts|
      ensures parts[k] + [c][..0] == parts[k]
      ensures Free(parts[k], [c]) <==> c !in parts[k]
    {
      FreeOfChar(parts[k], c);
    }
    if Separable(parts, [c]) {
      forall k | 0 <= k < |parts|
        ensures c !in parts[k]
      {
        assert Free(if k + 1 < |parts| then parts[k] + [c][..0] else parts[k], [c]);
      }
    }
  }

  lemma {:induction false} FreeOfChar(t: string, c: char)
    ensures Free(t, [c]) <==> c !in t
  {
    forall i | 0 <= i < |t|
      ensures OccursAt(t, [c], i) <==> t[i] == c
    {
      OccursIsSlice(t, [c], i);
      assert t[i..i + 1] == [t[i]];
    }
  }

  // ---------- The empty separator ----------

  /** `strstr` finds the empty text wherever it looks. */
  lemma {:induction false} EmptyIsEverywhere(s: string, p: nat)
    requires p <= |s|
    ensures Find(s, p, "") == Some(p)
  {
  }

  datatype Cut = Cut(vec: seq<string>, p: nat)

  /** One turn of the loop of `split`; None when it ends. */
  function Turn(src: string, d: string, c: Cut): (r: Option<Cut>)
    requires c.p <= |src|
    ensures r.Some? ==> r.value.p <= |src|
  {
    match Find(src, c.p, d)
    case None => None
    case Some(q) => Some(Cut(c.vec + [src[c.p..q]], q + |d|))
  }

  /** Where n turns lead; None when the loop has ended before. */
  function Turns(src: string, d: string, n: nat): (r: Option<Cut>)
    ensures r.Some? ==> r.value.p <= |src|
  {
    if n == 0 then Some(Cut([], 0))
    else match Turns(src, d, n - 1)
      case None => None
      case Some(c) => Turn(src, d, c)
  }

  lemma {:induction false} TurnsMove(src: string, d: string, n: nat)
    requires |d| > 0 && Turns(src, d, n).Some?
    ensures Turns(src, d, n).value.p >= n
  {
    if n > 0 {
      TurnsMove(src, d, n - 1);
      var c := Turns(src, d, n - 1).value;
      assert Turns(src, d, n) == Turn(src, d, c);
    }
  }

  /** n turns with the empty separator: n empty pieces, and the cursor where it was. */
  lemma {:induction false} EmptySeparatorStays(src: string, n: nat)
    ensures Turns(src, "", n).Some? && Turns(src, "", n).value.p == 0 && |Turns(src, "", n).value.vec| == n
    ensures forall k | 0 <= k < n :: Turns(src, "", n).value.vec[k] == ""
  {
    if n > 0 {
      EmptySeparatorStays(src, n - 1);
      EmptyIsEverywhere(src, 0);
    }
  }

  /** The loop of `split` ends if and only if the separator is not empty. */
  lemma {:induction false} SplitEndsExactly(src: string, d: string)
    ensures (exists n: nat :: Turns(src, d, n).None?) <==> |d| > 0
  {
    var enough := |src| + 1;
    if |d| > 0 {
      if Turns(src, d, enough).Some? {
        TurnsMove(src, d, enough);
      }
      assert Turns(src, d, enough).None?;
    } else if n: nat :| Turns(src, d, n).None? {
      EmptySeparatorStays(src, n);
    }
  }

  /** `memcpy(buf + w, s, |s|); w += |s|` */
  method Append(buf: array<char>, w: nat, s: string) returns (w': nat)
    requires w + |s| <= buf.Length
    modifies buf
    ensures w' == w + |s| && buf[..w'] == old(buf[..w]) + s
  {
    for i := 0 to |s|
      invariant buf[..w] == old(buf[..w]) && buf[w..w + i] == s[..i]
    {
      buf[w + i] := s[i];
    }
    w' := w + |s|;
    assert buf[..w'] == buf[..w] + buf[w..w'] && s[..|s|] == s;
  }

  /** `realloc` keeping the first `n` characters. */
  method Grow(buf: array<char>, n: nat, size: nat) returns (r: array<char>)
    requires n <= buf.Length && n <= size
    ensures fresh(r) && r.Length == size && r[..n] == buf[..n]
  {
    r := new char[size];
    for i := 0 to n
      invariant r[..i] == buf[..i]
    {
      r[i] := buf[i];
    }
  }

  method AppendTwo(buf: array<char>, w: nat, s: string, t: string) returns (w': nat)
    requires w + |s| + |t| <= buf.Length
    modifies buf
    ensures w' == w + |s| + |t| && buf[..w'] == old(buf[..w]) + s + t
  {
    w' := Append(buf, w, s);
    w' := Append(buf, w', t);
  }

  /** Both pieces, in a larger buffer when they do not fit. */
  method AppendGrowing(buf: array<char>, cap: nat, w: nat, s: string, t: string)
    returns (buf': array<char>, cap': nat, w': nat)
    requires w <= cap && buf.Length == cap + 1
    modifies buf
    ensures (buf' == buf || fresh(buf')) && buf'.Length == cap' + 1
    ensures w' == w + |s| + |t| <= cap' && buf'[..w'] == old(buf[..w]) + s + t
  {
    buf', cap' := buf, cap;
    if w + |s| + |t| > cap {
      cap' := (w + |s| + |t|) * 2;
      buf' := Grow(buf, w, cap' + 1);
    }
    w' := AppendTwo(buf', w, s, t);
  }

  lemma {:induction false} ReplaceOnce(s: string, p: nat, f: string, t: string, done: string)
    requires |f| > 0 && p <= |s| && Find(s, p, f).Some?
    ensures var i := Find(s, p, f).value;
            done + ReplaceFrom(s, p, f, t) == done + s[p..i] + t + ReplaceFrom(s, i + |f|, f, t)
  {
    var i := Find(s, p, f).value;
    Shift3(done, s[p..i], t, ReplaceFrom(s, i + |f|, f, t));
  }

  /** With `done` written, only the replacement of the rest is missing. */
  ghost predicate Built(done: string, src: string, cur: nat, f: string, t: string)
    requires |f| > 0 && cur <= |src|
  {
    done + ReplaceFrom(src, cur, f, t) == ReplaceFrom(src, 0, f, t)
  }

  lemma {:induction false} BuiltNothing(src: string, f: string, t: string)
    requires |f| > 0
    ensures Built("", src, 0, f, t)
  {
  }

  lemma {:induction false} BuiltAll(done: string, src: string, cur: nat, f: string, t: string)
    requires |f| > 0 && cur <= |src| && Built(done, src, cur, f, t) && Find(src, cur, f).None?
    ensures done + src[cur..] == Replace(src, f, t)
  {
  }

  lemma {:induction false} BuiltMore(done: string, src: string, cur: nat, i: nat, f: string, t: string)
    requires |f| > 0 && cur <= |src| && Find(src, cur, f) == Some(i) && Built(done, src, cur, f, t)
    ensures cur <= i && i + |f| <= |src| && Built(done + src[cur..i] + t, src, i + |f|, f, t)
  {
    ReplaceOnce(src, cur, f, t, done);
    assert done + ReplaceFrom(src, cur, f, t) == done + src[cur..i] + t + ReplaceFrom(src, i + |f|, f, t);
  }

  method CopyMatch(src: string, cur: nat, f: string, t: string, buf: array<char>, cap: nat, wi: nat, ghost done: string)
    returns (buf': array<char>, cap': nat, wi': nat, cur': nat, ghost done': string)
    requires |f| > 0 && cur <= |src| && Find(src, cur, f).Some? && Built(done, src, cur, f, t)
    requires wi <= cap && buf.Length == cap + 1 && buf[..wi] == done
    modifies buf
    ensures (buf' == buf || fresh(buf')) && buf'.Length == cap' + 1 && wi' <= cap' && buf'[..wi'] == done'
    ensures cur < cur' <= |src| && Built(done', src, cur', f, t)
  {
    var i := Find(src, cur, f).value;
    BuiltMore(done, src, cur, i, f, t);
    done' := done + src[cur..i] + t;
    buf', cap', wi' := AppendGrowing(buf, cap, wi, src[cur..i], t);
    cur' := i + |f|;
  }

  method AppendRest(buf: array<char>, wi: nat, cap: nat, rest: string) returns (r: string)
    requires wi <= cap && buf.Length == cap + 1
    modifies buf
    ensures r == old(buf[..wi]) + rest
  {
    var out := buf;
    if wi + |rest| > cap {
      out := Grow(buf, wi, wi + |rest| + 1);
    }
    var end := Append(out, wi, rest);
    out[end] := '\0';
    r := out[..end];
  }

  /** The buffer has `cap + 1` characters throughout, so every write below is inside it. */
  method StrReplace(src: string, f: string, t: string) returns (r: string)
    ensures r == Replace(src, f, t)
  {
    if |f| == 0 {
      return src;
    }
    var cap := |src| * 2 + 64;
    var buf := new char[cap + 1];
    var wi, cur := 0, 0;
    ghost var done := "";
    BuiltNothing(src, f, t);
    var pos := Find(src, cur, f);
    while pos.Some?
      invariant fresh(buf) && buf.Length == cap + 1
      invariant 0 <= cur <= |src| && 0 <= wi <= cap && buf[..wi] == done
      invariant pos == Find(src, cur, f)
      invariant Built(done, src, cur, f, t)
      decreases |src| - cur
    {
      buf, cap, wi, cur, done := CopyMatch(src, cur, f, t, buf, cap, wi, done);
      pos := Find(src, cur, f);
    }
    BuiltAll(done, src, cur, f, t);
    r := AppendRest(buf, wi, cap, src[cur..]);
  }

  /** For any separator with which the loop ends. */
  method SplitLoop(src: string, d: string) returns (vec: seq<string>)
    requires |d| > 0
    ensures vec == Split(src, d)
  {
    vec := [];
    var p := 0;
    var q := Find(src, p, d);
    while q.Some?
      invariant 0 <= p <= |src|
      invariant q == Find(src, p, d)
      invariant vec + SplitFrom(src, p, d) == Split(src, d)
      decreases |src| - p
    {
      Assoc(vec, [src[p..q.value]], SplitFrom(src, q.value + |d|, d));
      vec := vec + [src[p..q.value]];
      p := q.value + |d|;
      q := Find(src, p, d);
    }
    vec := vec + [src[p..]];
  }

  function Text(v: Value): string {
    if v.Str? then v.s else ""
  }

  function Texts(vec: seq<Value>): (r: seq<string>)
    ensures |r| == |vec| && forall i | 0 <= i < |vec| :: r[i] == Text(vec[i])
  {
    seq(|vec|, i requires 0 <= i < |vec| => Text(vec[i]))
  }

  /** `Join` from the i-th element on, the way the C loops walk the vector. An element that is not
      a string adds nothing but keeps its separators. */
  function JoinFrom(vec: seq<Value>, i: nat, d: string): string
    requires i <= |vec|
    decreases |vec| - i
  {
    if i == |vec| then "" else Text(vec[i]) + (if i + 1 < |vec| then d else "") + JoinFrom(vec, i + 1, d)
  }

  lemma {:induction false} JoinFromIsJoin(vec: seq<Value>, parts: seq<string>, i: nat, d: string)
    requires i <= |vec| == |parts| && forall k | 0 <= k < |vec| :: parts[k] == Text(vec[k])
    ensures JoinFrom(vec, i, d) == Join(parts[i..], d)
    decreases |vec| - i
  {
    if i < |vec| {
      JoinFromIsJoin(vec, parts, i + 1, d);
      assert parts[i..][1..] == parts[i + 1..];
    }
  }

  /** Two passes: the first sums the lengths, the second fills a buffer of exactly that size. */
  method JoinLoop(vec: seq<Value>, d: string) returns (r: string)
    ensures r == Join(Texts(vec), d)
  {
    JoinFromIsJoin(vec, Texts(vec), 0, d);
    assert Texts(vec)[0..] == Texts(vec);
    var total := 0;
    for i := 0 to |vec|
      invariant total + |JoinFrom(vec, i, d)| == |JoinFrom(vec, 0, d)|
    {
      if vec[i].Str? {
        total := total + |vec[i].s|;
      }
      if i + 1 < |vec| {
        total := total + |d|;
      }
    }
    var buf := new char[total + 1];
    var w := 0;
    ghost var done := "";
    for i := 0 to |vec|
      invariant fresh(buf) && buf.Length == total + 1 && 0 <= w <= total && buf[..w] == done
      invariant done + JoinFrom(vec, i, d) == JoinFrom(vec, 0, d)
    {
      var sep := if i + 1 < |vec| then d else "";
      Shift3(done, Text(vec[i]), sep, JoinFrom(vec, i + 1, d));
      done := done + Text(vec[i]) + sep;
      w := AppendTwo(buf, w, Text(vec[i]), sep);
    }
    r := buf[..w];
  }
}
