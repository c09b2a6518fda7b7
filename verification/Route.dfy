/** Route matching in runtime/http.c: two cursors, one in the pattern and one in the path. */
module Route {
  import opened Wrappers
  import opened FLValue
  import opened Sequences

  datatype Route = Route(verb: string, pattern: string)

  /** The last two: a name or a value that the fixed buffers (128 and 512 bytes, NUL included) cannot hold. The source
      writes past the buffer then. */
  datatype Outcome = Matched(params: Value) | NoMatch | NameTooLong | ValueTooLong

  const NAME_LIMIT := 127
  const VALUE_LIMIT := 511

  /** The next slash, or the end. */
  function SegEnd(s: string, i: nat): (r: nat)
    requires i <= |s|
    ensures i <= r <= |s| && (r < |s| ==> s[r] == '/') && forall k | i <= k < r :: s[k] != '/'
    decreases |s| - i
  {
    if i == |s| || s[i] == '/' then i else SegEnd(s, i + 1)
  }

  function MatchFrom(r: string, i: nat, p: string, j: nat, params: Value): Outcome
    requires i <= |r| && j <= |p|
    decreases |r| - i
  {
    if i == |r| || j == |p| then
      if i == |r| && (j == |p| || p[j] == '?') then Matched(params) else NoMatch
    else if r[i] == ':' then
      var i', j' := SegEnd(r, i + 1), SegEnd(p, j);
      if i' - (i + 1) > NAME_LIMIT then NameTooLong
      else if j' - j > VALUE_LIMIT then ValueTooLong
      else MatchFrom(r, i', p, j', MapSet(params, Str(r[i + 1..i']), Str(p[j..j'])))
    else if r[i] == p[j] then MatchFrom(r, i + 1, p, j + 1, params)
    else NoMatch
  }

  function Match(route: Route, verb: string, path: string): Outcome {
    if route.verb != verb then NoMatch else MatchFrom(route.pattern, 0, path, 0, EMPTY_MAP)
  }

  // ---------- Filling a pattern ----------

  function TextOf(v: Value): string {
    if v.Str? then v.s else ""
  }

  /** The pattern with each parameter replaced by its value. */
  function FillFrom(r: string, i: nat, params: Value): string
    requires i <= |r|
    decreases |r| - i
  {
    if i == |r| then ""
    else if r[i] == ':' then
      var i' := SegEnd(r, i + 1);
      TextOf(MapGet(params, Str(r[i + 1..i']))) + FillFrom(r, i', params)
    else [r[i]] + FillFrom(r, i + 1, params)
  }

  /** The parameter names, in order. */
  function NamesFrom(r: string, i: nat): seq<string>
    requires i <= |r|
    decreases |r| - i
  {
    if i == |r| then []
    else if r[i] == ':' then
      var i' := SegEnd(r, i + 1);
      [r[i + 1..i']] + NamesFrom(r, i')
    else NamesFrom(r, i + 1)
  }

  ghost predicate Distinct(names: seq<string>) {
    names == [] || (names[0] !in names[1..] && Distinct(names[1..]))
  }

  // ---------- A match determines the path ----------

  /** Names that do not occur any more keep their values. */
  lemma {:induction false} OthersKept(r: string, i: nat, p: string, j: nat, params: Value, name: string)
    requires i <= |r| && j <= |p| && name !in NamesFrom(r, i) && MatchFrom(r, i, p, j, params).Matched?
    ensures MapGet(MatchFrom(r, i, p, j, params).params, Str(name)) == MapGet(params, Str(name))
    decreases |r| - i
  {
    if i < |r| && j < |p| {
      if r[i] == ':' {
        var i', j' := SegEnd(r, i + 1), SegEnd(p, j);
        var next := MapSet(params, Str(r[i + 1..i']), Str(p[j..j']));
        assert NamesFrom(r, i) == [r[i + 1..i']] + NamesFrom(r, i');
        GetAfterSet(params, Str(r[i + 1..i']), Str(p[j..j']), Str(name));
        OthersKept(r, i', p, j', next, name);
      } else {
        OthersKept(r, i + 1, p, j + 1, params, name);
      }
    }
  }

  /** The path goes on from j with this text, up to its end or its query. */
  ghost predicate UpToQuery(p: string, j: nat, text: string) {
    Ahead(p, j, text) && (j + |text| == |p| || p[j + |text|] == '?')
  }

  lemma {:induction false} MatchFills(r: string, i: nat, p: string, j: nat, params: Value)
    requires i <= |r| && j <= |p| && Distinct(NamesFrom(r, i)) && MatchFrom(r, i, p, j, params).Matched?
    ensures UpToQuery(p, j, FillFrom(r, i, MatchFrom(r, i, p, j, params).params))
    decreases |r| - i
  {
    if i < |r| && j < |p| {
      var filled := MatchFrom(r, i, p, j, params).params;
      if r[i] == ':' {
        var i', j' := SegEnd(r, i + 1), SegEnd(p, j);
        var name, value := r[i + 1..i'], p[j..j'];
        var next := MapSet(params, Str(name), Str(value));
        assert NamesFrom(r, i) == [name] + NamesFrom(r, i');
        GetAfterSet(params, Str(name), Str(value), Str(name));
        OthersKept(r, i', p, j', next, name);
        MatchFills(r, i', p, j', next);
        GoesOn(p, j, value, FillFrom(r, i', filled));
      } else {
        MatchFills(r, i + 1, p, j + 1, params);
        GoesOn(p, j, [r[i]], FillFrom(r, i + 1, filled));
      }
    }
  }

  lemma {:induction false} GoesOn(p: string, j: nat, a: string, b: string)
    requires Ahead(p, j, a) && UpToQuery(p, j + |a|, b)
    ensures UpToQuery(p, j, a + b)
  {
    forall k | 0 <= k < |a + b| ensures p[j + k] == (a + b)[k] {
      if k >= |a| {
        assert p[j + |a| + (k - |a|)] == b[k - |a|];
      }
    }
  }

  /** A successful match: the bound parameters give the path back, up to a query behind the pattern. */
  lemma {:induction false} MatchDeterminesPath(route: Route, verb: string, path: string)
    requires Distinct(NamesFrom(route.pattern, 0)) && Match(route, verb, path).Matched?
    ensures UpToQuery(path, 0, FillFrom(route.pattern, 0, Match(route, verb, path).params))
  {
    MatchFills(route.pattern, 0, path, 0, EMPTY_MAP);
  }

  // ---------- With a repeated name it does not: the last value wins ----------

  /** A path for the pattern with value y for the last parameter of each name and x for the others. */
  function Sample(r: string, i: nat): string
    requires i <= |r|
    decreases |r| - i
  {
    if i == |r| then ""
    else if r[i] == ':' then
      var i' := SegEnd(r, i + 1);
      [if r[i + 1..i'] in NamesFrom(r, i') then 'x' else 'y'] + Sample(r, i')
    else [r[i]] + Sample(r, i + 1)
  }

  /** The pattern with value y everywhere. */
  function AllY(r: string, i: nat): string
    requires i <= |r|
    decreases |r| - i
  {
    if i == |r| then "" else if r[i] == ':' then ['y'] + AllY(r, SegEnd(r, i + 1)) else [r[i]] + AllY(r, i + 1)
  }

  lemma {:induction false} SampleDiffers(r: string, i: nat)
    requires i <= |r|
    ensures |Sample(r, i)| == |AllY(r, i)|
    ensures Sample(r, i) == AllY(r, i) ==> Distinct(NamesFrom(r, i))
    decreases |r| - i
  {
    if i < |r| {
      var i' := if r[i] == ':' then SegEnd(r, i + 1) else i + 1;
      SampleDiffers(r, i');
      if Sample(r, i) == AllY(r, i) {
        assert Sample(r, i)[0] == AllY(r, i)[0] && Sample(r, i)[1..] == AllY(r, i)[1..];
        assert Sample(r, i') == Sample(r, i)[1..] == AllY(r, i)[1..] == AllY(r, i');
        if r[i] == ':' {
          assert NamesFrom(r, i)[0] == r[i + 1..i'] && NamesFrom(r, i)[1..] == NamesFrom(r, i');
        }
      }
    }
  }

  ghost predicate ShortNames(r: string, i: nat)
    requires i <= |r|
  {
    forall n | n in NamesFrom(r, i) :: |n| <= NAME_LIMIT
  }

  /** y is bound to every name from here on, unless the name is gone. */
  ghost predicate BoundToY(r: string, i: nat, params: Value)
    requires i <= |r|
  {
    forall n | n in NamesFrom(r, i) :: MapGet(params, Str(n)) == Str("y")
  }

  lemma {:induction false} SampleMatches(r: string, i: nat, p: string, j: nat, params: Value)
    requires i <= |r| && ShortNames(r, i) && Ahead(p, j, Sample(r, i)) && j + |Sample(r, i)| == |p|
    ensures MatchFrom(r, i, p, j, params).Matched? && BoundToY(r, i, MatchFrom(r, i, p, j, params).params)
    decreases |r| - i
  {
    if i < |r| {
      if r[i] == ':' {
        var i' := SegEnd(r, i + 1);
        var name, c := r[i + 1..i'], Sample(r, i)[0];
        var next := MapSet(params, Str(name), Str([c]));
        assert NamesFrom(r, i) == [name] + NamesFrom(r, i');
        assert name in NamesFrom(r, i);
        SampleSegment(r, i', p, j, c);
        SampleMatches(r, i', p, j + 1, next);
        AtParameter(r, i, p, j, params, j + 1);
        GetAfterSet(params, Str(name), Str([c]), Str(name));
        if name !in NamesFrom(r, i') {
          OthersKept(r, i', p, j + 1, next, name);
        }
      } else {
        AheadSplit(p, j, [r[i]], Sample(r, i + 1));
        AheadFirst(p, j, [r[i]]);
        SampleMatches(r, i + 1, p, j + 1, params);
      }
    }
  }

  lemma {:induction false} SampleSegment(r: string, i: nat, p: string, j: nat, c: char)
    requires i <= |r| && (i < |r| ==> r[i] == '/') && c != '/'
    requires Ahead(p, j, [c] + Sample(r, i)) && j + 1 + |Sample(r, i)| == |p|
    ensures j < |p| && SegEnd(p, j) == j + 1 && p[j..j + 1] == [c] && Ahead(p, j + 1, Sample(r, i))
  {
    AheadSplit(p, j, [c], Sample(r, i));
    AheadSlice(p, j, [c]);
    AheadFirst(p, j, [c]);
    if i < |r| {
      AheadFirst(p, j + 1, Sample(r, i));
    }
  }

  lemma {:induction false} FillY(r: string, i: nat, params: Value)
    requires i <= |r| && BoundToY(r, i, params)
    ensures FillFrom(r, i, params) == AllY(r, i)
    decreases |r| - i
  {
    if i < |r| {
      if r[i] == ':' {
        var i' := SegEnd(r, i + 1);
        assert NamesFrom(r, i) == [r[i + 1..i']] + NamesFrom(r, i');
        assert r[i + 1..i'] in NamesFrom(r, i);
        FillY(r, i', params);
      } else {
        FillY(r, i + 1, params);
      }
    }
  }

  lemma {:induction false} SameText(p: string, text: string)
    requires |p| == |text|
    ensures Ahead(p, 0, text) ==> p == text
  {
    if Ahead(p, 0, text) {
      AheadSlice(p, 0, text);
    }
  }

  ghost predicate Recovers(route: Route, path: string) {
    var m := Match(route, route.verb, path);
    m.Matched? ==> UpToQuery(path, 0, FillFrom(route.pattern, 0, m.params))
  }

  /** Exactly the patterns with distinct names give back every path they match. */
  lemma {:induction false} RecoversExactly(route: Route)
    requires ShortNames(route.pattern, 0)
    ensures Distinct(NamesFrom(route.pattern, 0)) <==> forall path :: Recovers(route, path)
  {
    var r := route.pattern;
    if Distinct(NamesFrom(r, 0)) {
      forall path ensures Recovers(route, path) {
        if Match(route, route.verb, path).Matched? {
          MatchDeterminesPath(route, route.verb, path);
        }
      }
    } else {
      var path := Sample(r, 0);
      AheadSelf(path);
      SampleMatches(r, 0, path, 0, EMPTY_MAP);
      FillY(r, 0, Match(route, route.verb, path).params);
      SampleDiffers(r, 0);
      SameText(path, AllY(r, 0));
      assert !Recovers(route, path);
    }
  }

  // ---------- A filled pattern matches ----------

  /** Values a path segment can carry, within the buffers. */
  ghost predicate Fillable(r: string, i: nat, values: Value)
    requires i <= |r|
  {
    forall n | n in NamesFrom(r, i) ::
      |n| <= NAME_LIMIT && 0 < |TextOf(MapGet(values, Str(n)))| <= VALUE_LIMIT && '/' !in TextOf(MapGet(values, Str(n)))
  }

  function BindingsFrom(r: string, i: nat, values: Value): seq<Entry>
    requires i <= |r|
    decreases |r| - i
  {
    if i == |r| then []
    else if r[i] == ':' then
      var i' := SegEnd(r, i + 1);
      [Entry(Str(r[i + 1..i']), Str(TextOf(MapGet(values, Str(r[i + 1..i'])))))] + BindingsFrom(r, i', values)
    else BindingsFrom(r, i + 1, values)
  }

  ghost predicate Unbound(es: seq<Entry>, n: string) {
    forall k | 0 <= k < |es| :: es[k].key.Str? && es[k].key.s != n
  }

  ghost predicate NoneBound(es: seq<Entry>, names: seq<string>) {
    forall n {:trigger Unbound(es, n)} | n in names :: Unbound(es, n)
  }

  /** A value ends where the next slash of the pattern begins. */
  lemma {:induction false} ValueEnds(r: string, i: nat, p: string, j: nat, value: string, values: Value)
    requires i <= |r| && (i < |r| ==> r[i] == '/') && '/' !in value
    requires Ahead(p, j, value + FillFrom(r, i, values)) && j + |value + FillFrom(r, i, values)| == |p|
    ensures SegEnd(p, j) == j + |value| && p[j..j + |value|] == value && Ahead(p, j + |value|, FillFrom(r, i, values))
  {
    AheadSplit(p, j, value, FillFrom(r, i, values));
    AheadSlice(p, j, value);
    assert forall k | j <= k < j + |value| :: p[k] == value[k - j];
    if i < |r| {
      AheadFirst(p, j + |value|, FillFrom(r, i, values));
    }
  }

  /** What holds of the names after a parameter. */
  lemma {:induction false} LaterNames(r: string, i: nat, values: Value, es: seq<Entry>)
    requires i < |r| && r[i] == ':' && Distinct(NamesFrom(r, i)) && Fillable(r, i, values) && NoneBound(es, NamesFrom(r, i))
    ensures
      var i' := SegEnd(r, i + 1);
      var name := r[i + 1..i'];
      var value := TextOf(MapGet(values, Str(name)));
      Distinct(NamesFrom(r, i')) && Fillable(r, i', values) && NoneBound(es + [Entry(Str(name), Str(value))], NamesFrom(r, i'))
      && |name| <= NAME_LIMIT && 0 < |value| <= VALUE_LIMIT && '/' !in value && Unbound(es, name)
  {
    var i' := SegEnd(r, i + 1);
    var name := r[i + 1..i'];
    var names := NamesFrom(r, i');
    assert NamesFrom(r, i) == [name] + names;
    assert name in NamesFrom(r, i);
    forall n | n in names ensures n in NamesFrom(r, i) && n != name { }
    assert Unbound(es, name);
    var e := Entry(Str(name), Str(TextOf(MapGet(values, Str(name)))));
    forall n | n in names ensures Unbound(es + [e], n) {
      assert Unbound(es, n);
    }
  }

  lemma {:induction false} BindNew(es: seq<Entry>, k: Value, v: Value)
    requires k.Str? && Unbound(es, k.s)
    ensures MapSet(Map(es), k, v) == Map(es + [Entry(k, v)])
  {
    forall i | 0 <= i < |es| ensures !FlEq(es[i].key, k) { }
  }

  lemma {:induction false} AtParameter(r: string, i: nat, p: string, j: nat, params: Value, j': nat)
    requires i < |r| && j < |p| && r[i] == ':' && j' == SegEnd(p, j)
    requires SegEnd(r, i + 1) - (i + 1) <= NAME_LIMIT && j' - j <= VALUE_LIMIT
    ensures
      var i' := SegEnd(r, i + 1);
      MatchFrom(r, i, p, j, params) == MatchFrom(r, i', p, j', MapSet(params, Str(r[i + 1..i']), Str(p[j..j'])))
  {
  }

  lemma {:induction false} FilledParameter(r: string, i: nat, p: string, j: nat, values: Value, es: seq<Entry>, e: Entry)
    requires i < |r| && r[i] == ':' && e.key.Str? && e.val.Str? && SegEnd(r, i + 1) - (i + 1) <= NAME_LIMIT
    requires e.key.s == r[i + 1..SegEnd(r, i + 1)] && 0 < |e.val.s| <= VALUE_LIMIT && '/' !in e.val.s && Unbound(es, e.key.s)
    requires var t := e.val.s + FillFrom(r, SegEnd(r, i + 1), values); Ahead(p, j, t) && j + |t| == |p|
    ensures
      var i' := SegEnd(r, i + 1);
      Ahead(p, j + |e.val.s|, FillFrom(r, i', values)) && j + |e.val.s| <= |p|
      && MatchFrom(r, i, p, j, Map(es)) == MatchFrom(r, i', p, j + |e.val.s|, Map(es + [e]))
  {
    ValueEnds(r, SegEnd(r, i + 1), p, j, e.val.s, values);
    BindNew(es, e.key, e.val);
    AtParameter(r, i, p, j, Map(es), j + |e.val.s|);
  }

  /** A parameter is filled and bound; the rest of the pattern is filled as before. */
  lemma {:induction false} ParameterStep(r: string, i: nat, p: string, j: nat, values: Value, es: seq<Entry>)
    returns (i': nat, j': nat, e: Entry)
    requires i < |r| && r[i] == ':' && Distinct(NamesFrom(r, i)) && Fillable(r, i, values) && NoneBound(es, NamesFrom(r, i))
    requires Ahead(p, j, FillFrom(r, i, values)) && j + |FillFrom(r, i, values)| == |p|
    ensures i < i' <= |r| && Distinct(NamesFrom(r, i')) && Fillable(r, i', values) && NoneBound(es + [e], NamesFrom(r, i'))
    ensures j' <= |p| && Ahead(p, j', FillFrom(r, i', values)) && j' + |FillFrom(r, i', values)| == |p|
    ensures MatchFrom(r, i, p, j, Map(es)) == MatchFrom(r, i', p, j', Map(es + [e]))
    ensures BindingsFrom(r, i, values) == [e] + BindingsFrom(r, i', values)
  {
    i' := SegEnd(r, i + 1);
    var name := r[i + 1..i'];
    var value := TextOf(MapGet(values, Str(name)));
    e, j' := Entry(Str(name), Str(value)), j + |value|;
    LaterNames(r, i, values, es);
    FilledParameter(r, i, p, j, values, es, e);
  }

  lemma {:induction false} FilledMatches(r: string, i: nat, p: string, j: nat, values: Value, es: seq<Entry>)
    requires i <= |r| && Distinct(NamesFrom(r, i)) && Fillable(r, i, values) && NoneBound(es, NamesFrom(r, i))
    requires Ahead(p, j, FillFrom(r, i, values)) && j + |FillFrom(r, i, values)| == |p|
    ensures MatchFrom(r, i, p, j, Map(es)) == Matched(Map(es + BindingsFrom(r, i, values)))
    decreases |r| - i
  {
    if i == |r| {
      assert es + [] == es;
    } else if r[i] == ':' {
      var i', j', e := ParameterStep(r, i, p, j, values, es);
      FilledMatches(r, i', p, j', values, es + [e]);
      Assoc(es, [e], BindingsFrom(r, i', values));
    } else {
      AheadSplit(p, j, [r[i]], FillFrom(r, i + 1, values));
      AheadFirst(p, j, [r[i]]);
      FilledMatches(r, i + 1, p, j + 1, values, es);
    }
  }

  /** A pattern with distinct names, filled with non-empty slash-free values, matches, and binds each name to
      its value, in the order of the pattern, and nothing else. */
  lemma {:induction false} FilledPatternMatches(route: Route, values: Value)
    requires Distinct(NamesFrom(route.pattern, 0)) && Fillable(route.pattern, 0, values)
    ensures Match(route, route.verb, FillFrom(route.pattern, 0, values)) == Matched(Map(BindingsFrom(route.pattern, 0, values)))
  {
    var path := FillFrom(route.pattern, 0, values);
    AheadSelf(path);
    FilledMatches(route.pattern, 0, path, 0, values, []);
    assert [] + BindingsFrom(route.pattern, 0, values) == BindingsFrom(route.pattern, 0, values);
  }

  // ---------- When the buffers suffice ----------

  lemma {:induction false} SegEndWithin(s: string, i: nat, k: nat)
    requires i <= |s| && i <= k <= SegEnd(s, i)
    ensures SegEnd(s, k) == SegEnd(s, i)
    decreases k - i
  {
    if i < k {
      SegEndWithin(s, i + 1, k);
    }
  }

  /** Every stretch of the path without a slash, from j on, fits the buffer for values. */
  predicate ShortSegments(p: string, j: nat)
    requires j <= |p|
  {
    forall k | j <= k <= |p| :: SegEnd(p, k) - k <= VALUE_LIMIT
  }

  lemma {:induction false} ShortSegmentsFit(r: string, i: nat, p: string, j: nat, params: Value)
    requires i <= |r| && j <= |p| && ShortSegments(p, j)
    ensures MatchFrom(r, i, p, j, params) != ValueTooLong
    decreases |r| - i
  {
    if i < |r| && j < |p| {
      if r[i] == ':' {
        var i', j' := SegEnd(r, i + 1), SegEnd(p, j);
        ShortSegmentsFit(r, i', p, j', MapSet(params, Str(r[i + 1..i']), Str(p[j..j'])));
      } else if r[i] == p[j] {
        ShortSegmentsFit(r, i + 1, p, j + 1, params);
      }
    }
  }

  /** The pattern that has a nameless parameter for every segment of the path. */
  function Cover(p: string, j: nat): string
    requires j <= |p|
    decreases |p| - j
  {
    if j == |p| then "" else if p[j] == '/' then ['/'] + Cover(p, j + 1) else [':'] + Cover(p, SegEnd(p, j))
  }

  lemma {:induction false} CoverAfterSegment(p: string, j: nat)
    requires j <= |p| && (j < |p| ==> p[j] == '/')
    ensures Cover(p, j) == "" || Cover(p, j)[0] == '/'
  {
  }

  lemma {:induction false} CoverTooLong(r: string, i: nat, p: string, j: nat, params: Value, k: nat)
    requires i <= |r| && j <= k <= |p| && SegEnd(p, k) - k > VALUE_LIMIT
    requires Ahead(r, i, Cover(p, j)) && i + |Cover(p, j)| == |r|
    ensures MatchFrom(r, i, p, j, params) == ValueTooLong
    decreases |p| - j
  {
    if p[j] == '/' {
      AheadSplit(r, i, ['/'], Cover(p, j + 1));
      AheadFirst(r, i, ['/']);
      CoverTooLong(r, i + 1, p, j + 1, params, k);
    } else {
      var j' := SegEnd(p, j);
      AheadSplit(r, i, [':'], Cover(p, j'));
      AheadFirst(r, i, [':']);
      CoverAfterSegment(p, j');
      if Cover(p, j') != "" {
        AheadFirst(r, i + 1, Cover(p, j'));
      }
      assert SegEnd(r, i + 1) == i + 1;
      if j' - j <= VALUE_LIMIT {
        if k < j' {
          SegEndWithin(p, j, k);
        }
        AtParameter(r, i, p, j, params, j');
        CoverTooLong(r, i + 1, p, j', MapSet(params, Str(r[i + 1..i + 1]), Str(p[j..j'])), k);
      }
    }
  }

  ghost predicate ValuesFit(path: string) {
    forall route: Route, verb :: Match(route, verb, path) != ValueTooLong
  }

  /** No route writes past the buffer for values if and only if every segment of the path has at most 511 bytes. */
  lemma {:induction false} ValuesFitExactly(path: string)
    ensures ShortSegments(path, 0) <==> ValuesFit(path)
  {
    if ShortSegments(path, 0) {
      forall route: Route, verb
        ensures Match(route, verb, path) != ValueTooLong
      {
        ShortSegmentsFit(route.pattern, 0, path, 0, EMPTY_MAP);
      }
    } else {
      var k :| 0 <= k <= |path| && SegEnd(path, k) - k > VALUE_LIMIT;
      var route := Route("GET", Cover(path, 0));
      AheadSelf(route.pattern);
      CoverTooLong(route.pattern, 0, path, 0, EMPTY_MAP, k);
      assert Match(route, route.verb, path) == ValueTooLong;
    }
  }

  lemma {:induction false} ShortNamesFit(r: string, i: nat, p: string, j: nat, params: Value)
    requires i <= |r| && j <= |p| && ShortNames(r, i)
    ensures MatchFrom(r, i, p, j, params) != NameTooLong
    decreases |r| - i
  {
    if i < |r| && j < |p| {
      if r[i] == ':' {
        var i', j' := SegEnd(r, i + 1), SegEnd(p, j);
        assert NamesFrom(r, i) == [r[i + 1..i']] + NamesFrom(r, i');
        assert r[i + 1..i'] in NamesFrom(r, i);
        ShortNamesFit(r, i', p, j', MapSet(params, Str(r[i + 1..i']), Str(p[j..j'])));
      } else if r[i] == p[j] {
        ShortNamesFit(r, i + 1, p, j + 1, params);
      }
    }
  }

  /** The sample path leads to the first name that is too long. */
  lemma {:induction false} SampleTooLong(r: string, i: nat, p: string, j: nat, params: Value)
    requires i <= |r| && !ShortNames(r, i) && Ahead(p, j, Sample(r, i)) && j + |Sample(r, i)| == |p|
    ensures MatchFrom(r, i, p, j, params) == NameTooLong
    decreases |r| - i
  {
    if r[i] == ':' {
      var i' := SegEnd(r, i + 1);
      var c := Sample(r, i)[0];
      assert NamesFrom(r, i) == [r[i + 1..i']] + NamesFrom(r, i');
      SampleSegment(r, i', p, j, c);
      if i' - (i + 1) <= NAME_LIMIT {
        assert !ShortNames(r, i');
        SampleTooLong(r, i', p, j + 1, MapSet(params, Str(r[i + 1..i']), Str([c])));
        AtParameter(r, i, p, j, params, j + 1);
      }
    } else {
      AheadSplit(p, j, [r[i]], Sample(r, i + 1));
      AheadFirst(p, j, [r[i]]);
      SampleTooLong(r, i + 1, p, j + 1, params);
    }
  }

  ghost predicate NamesFit(route: Route) {
    forall verb, path :: Match(route, verb, path) != NameTooLong
  }

  /** No path makes a route write past the buffer for names if and only if its names have at most 127 bytes. */
  lemma {:induction false} NamesFitExactly(route: Route)
    ensures ShortNames(route.pattern, 0) <==> NamesFit(route)
  {
    if ShortNames(route.pattern, 0) {
      forall verb, path
        ensures Match(route, verb, path) != NameTooLong
      {
        ShortNamesFit(route.pattern, 0, path, 0, EMPTY_MAP);
      }
    } else {
      var path := Sample(route.pattern, 0);
      AheadSelf(path);
      SampleTooLong(route.pattern, 0, path, 0, EMPTY_MAP);
      assert Match(route, route.verb, path) == NameTooLong;
    }
  }

  /** `/:a` and a segment of 512 bytes: the NUL is written behind the buffer. */
  lemma {:induction false} LongSegmentOverruns(value: string)
    requires |value| == 512 && '/' !in value
    ensures Match(Route("GET", "/:a"), "GET", "/" + value) == ValueTooLong
  {
    var r, p := "/:a", "/" + value;
    assert p[0] == '/' == r[0];
    assert forall k | 1 <= k < |p| :: p[k] == value[k - 1];
    assert SegEnd(p, 1) == |p|;
    assert MatchFrom(r, 1, p, 1, EMPTY_MAP) == ValueTooLong;
  }

  // ---------- The loop ----------

  /** Copies the segment at i into a buffer and moves past it; `inside` tells whether the segment and its NUL fit. The
      source does not look: it goes on writing behind the buffer. */
  method ReadSegment(s: string, i: nat, buf: array<char>) returns (inside: bool, next: nat, text: string)
    requires i <= |s|
    modifies buf
    ensures inside <==> SegEnd(s, i) - i < buf.Length
    ensures inside ==> next == SegEnd(s, i) && text == s[i..next]
  {
    next, text := i, [];
    while next < |s| && s[next] != '/'
      invariant i <= next <= |s| && next - i <= buf.Length && SegEnd(s, next) == SegEnd(s, i) && buf[..next - i] == s[i..next]
    {
      if next - i == buf.Length {
        return false, next, text;
      }
      buf[next - i] := s[next];
      next := next + 1;
    }
    if next - i == buf.Length {
      return false, next, text;
    }
    buf[next - i] := '\0';
    inside, text := true, buf[..next - i];
  }

  method MatchRoute(route: Route, verb: string, path: string) returns (m: Outcome)
    ensures m == Match(route, verb, path)
  {
    if route.verb != verb {
      return NoMatch;
    }
    var r := route.pattern;
    var i: nat, j: nat, bound := 0, 0, EMPTY_MAP;
    while i < |r| && j < |path|
      invariant i <= |r| && j <= |path| && MatchFrom(r, i, path, j, bound) == Match(route, verb, path)
      decreases |r| - i
    {
      if r[i] == ':' {
        var pname, pval := new char[NAME_LIMIT + 1], new char[VALUE_LIMIT + 1];
        var inside, i', name := ReadSegment(r, i + 1, pname);
        if !inside {
          return NameTooLong;
        }
        var within, j', value := ReadSegment(path, j, pval);
        if !within {
          return ValueTooLong;
        }
        i, j, bound := i', j', MapSet(bound, Str(name), Str(value));
      } else if r[i] == path[j] {
        i, j := i + 1, j + 1;
      } else {
        return NoMatch;
      }
    }
    if i == |r| && (j == |path| || path[j] == '?') {
      return Matched(bound);
    }
    return NoMatch;
  }
}
