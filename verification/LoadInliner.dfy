/** `inline_loads` of fl-build-helper.c: a depth-first walk over `(load ...)` lines. A file is named by its
    normalised absolute path, here a number; a path that cannot be read is not in the graph. */
module LoadInliner {
  import opened Sequences

  /** One line of a file, empty lines already dropped. */
  datatype Line = Text(text: string) | Debug | Load(target: nat)

  type Graph = map<nat, seq<Line>>

  /** The output: lines of a file, and for each load line the text put between its two marker comments. */
  datatype Piece = Copied(owner: nat, text: string) | Inlined(target: nat, body: seq<Piece>) | CycleMark

  datatype Result = Result(out: seq<Piece>, visited: seq<nat>)

  ghost function Elements(s: seq<nat>): set<nat> {
    set x | x in s
  }

  /** The readable files not yet visited: what the recursion uses up. */
  ghost function Left(g: Graph, visited: seq<nat>): nat {
    |g.Keys - Elements(visited)|
  }

  lemma {:induction false} SubsetSize(a: set<nat>, b: set<nat>)
    requires a <= b
    ensures |a| <= |b|
    decreases a
  {
    if a != {} {
      var x :| x in a;
      SubsetSize(a - {x}, b - {x});
    }
  }

  lemma {:induction false} LeftShrinks(g: Graph, visited: seq<nat>, more: seq<nat>)
    requires visited <= more
    ensures Left(g, more) <= Left(g, visited)
    ensures forall p | p in g && p in more && p !in visited :: Left(g, more) < Left(g, visited)
  {
    var a, b := g.Keys - Elements(more), g.Keys - Elements(visited);
    assert a <= b;
    SubsetSize(a, b);
    forall p | p in g && p in more && p !in visited ensures |a| < |b| {
      SubsetSize(a, b - {p});
    }
  }

  // ---------- The walk ----------

  /** On the stack: a cycle. Visited: nothing. Otherwise visited from now on, readable or not. */
  ghost function Inline(g: Graph, p: nat, visited: seq<nat>, stack: seq<nat>): (r: Result)
    ensures visited <= r.visited
    decreases Left(g, visited), 0
  {
    if p in stack then Result([CycleMark], visited)
    else if p in visited then Result([], visited)
    else if p !in g then Result([], visited + [p])
    else
      LeftShrinks(g, visited, visited + [p]);
      Lines(g, p, 0, visited + [p], stack + [p])
  }

  /** The lines of `owner` from the i-th on. */
  ghost function Lines(g: Graph, owner: nat, i: nat, visited: seq<nat>, stack: seq<nat>): (r: Result)
    requires owner in g && i <= |g[owner]|
    ensures visited <= r.visited
    decreases Left(g, visited), |g[owner]| - i + 1
  {
    if i == |g[owner]| then Result([], visited)
    else
      match g[owner][i]
      case Debug => Lines(g, owner, i + 1, visited, stack)
      case Text(t) =>
        var rest := Lines(g, owner, i + 1, visited, stack);
        Result([Copied(owner, t)] + rest.out, rest.visited)
      case Load(t) =>
        var nested := Inline(g, t, visited, stack);
        LeftShrinks(g, visited, nested.visited);
        var rest := Lines(g, owner, i + 1, nested.visited, stack);
        Result([Inlined(t, nested.out)] + rest.out, rest.visited)
  }

  // ---------- Every line exactly once ----------

  /** The lines of file f in the output, in order. */
  function Owned(out: seq<Piece>, f: nat): seq<string>
    decreases out
  {
    if out == [] then [] else OwnedIn(out[0], f) + Owned(out[1..], f)
  }

  function OwnedIn(x: Piece, f: nat): seq<string>
    decreases x
  {
    match x
    case Copied(owner, t) => if owner == f then [t] else []
    case Inlined(_, body) => Owned(body, f)
    case CycleMark => []
  }

  /** What a file contributes: its lines but for loads and debug output. */
  function Texts(lines: seq<Line>, i: nat): seq<string>
    requires i <= |lines|
    decreases |lines| - i
  {
    if i == |lines| then []
    else if lines[i].Text? then [lines[i].text] + Texts(lines, i + 1)
    else Texts(lines, i + 1)
  }

  ghost predicate New(f: nat, visited: seq<nat>, visited': seq<nat>) {
    f in visited' && f !in visited
  }

  function TextsOf(g: Graph, f: nat): seq<string> {
    if f in g then Texts(g[f], 0) else []
  }

  lemma {:induction false} InlineOwned(g: Graph, p: nat, visited: seq<nat>, stack: seq<nat>, f: nat)
    ensures
      var r := Inline(g, p, visited, stack);
      Owned(r.out, f) == if New(f, visited, r.visited) then TextsOf(g, f) else []
    decreases Left(g, visited), 0
  {
    if p !in stack && p !in visited && p in g {
      LeftShrinks(g, visited, visited + [p]);
      LinesOwned(g, p, 0, visited + [p], stack + [p], f);
    }
  }

  lemma {:induction false} LinesOwned(g: Graph, owner: nat, i: nat, visited: seq<nat>, stack: seq<nat>, f: nat)
    requires owner in g && i <= |g[owner]| && owner in visited
    ensures
      var r := Lines(g, owner, i, visited, stack);
      Owned(r.out, f)
      == if f == owner then Texts(g[owner], i) else if New(f, visited, r.visited) then TextsOf(g, f) else []
    decreases Left(g, visited), |g[owner]| - i + 1
  {
    if i < |g[owner]| {
      match g[owner][i] {
        case Debug => LinesOwned(g, owner, i + 1, visited, stack, f);
        case Text(t) =>
          LinesOwned(g, owner, i + 1, visited, stack, f);
          OwnedCons(Copied(owner, t), Lines(g, owner, i + 1, visited, stack).out, f);
        case Load(t) =>
          var nested := Inline(g, t, visited, stack);
          InlineOwned(g, t, visited, stack, f);
          LeftShrinks(g, visited, nested.visited);
          LinesOwned(g, owner, i + 1, nested.visited, stack, f);
          NewSplit(f, visited, nested.visited, Lines(g, owner, i + 1, nested.visited, stack).visited);
          assert owner in nested.visited;
          assert [] + TextsOf(g, f) == TextsOf(g, f) && TextsOf(g, f) + [] == TextsOf(g, f);
          assert [] + Texts(g[owner], i + 1) == Texts(g[owner], i + 1);
          OwnedCons(Inlined(t, nested.out), Lines(g, owner, i + 1, nested.visited, stack).out, f);
      }
    }
  }

  lemma {:induction false} NewSplit(f: nat, v0: seq<nat>, v1: seq<nat>, v2: seq<nat>)
    requires v0 <= v1 <= v2
    ensures New(f, v0, v2) <==> New(f, v0, v1) || New(f, v1, v2)
    ensures !(New(f, v0, v1) && New(f, v1, v2))
  {
  }

  lemma {:induction false} OwnedCons(x: Piece, rest: seq<Piece>, f: nat)
    ensures Owned([x] + rest, f) == OwnedIn(x, f) + Owned(rest, f)
  {
    assert ([x] + rest)[1..] == rest;
  }

  // ---------- The order of visits ----------

  function Add(visited: seq<nat>, p: nat): seq<nat> {
    if p in visited then visited else visited + [p]
  }

  /** All load targets of the output, outer before inner, in order, added unless already there. */
  function AddTargets(visited: seq<nat>, out: seq<Piece>): seq<nat>
    decreases out
  {
    if out == [] then visited else AddTargets(AddTargetsIn(visited, out[0]), out[1..])
  }

  function AddTargetsIn(visited: seq<nat>, x: Piece): seq<nat>
    decreases x
  {
    match x
    case Inlined(t, body) => AddTargets(Add(visited, t), body)
    case _ => visited
  }

  /** Visiting order is the order of first mention in the output, outer before inner: depth-first preorder. */
  lemma {:induction false} InlinePreorder(g: Graph, p: nat, visited: seq<nat>, stack: seq<nat>)
    requires Elements(stack) <= Elements(visited)
    ensures
      var r := Inline(g, p, visited, stack);
      r.visited == AddTargets(Add(visited, p), r.out)
    decreases Left(g, visited), 0
  {
    if p in stack {
      assert p in Elements(stack);
      assert p in visited;
    } else if p !in visited && p in g {
      LeftShrinks(g, visited, visited + [p]);
      StackWithin(visited, stack, p);
      LinesPreorder(g, p, 0, visited + [p], stack + [p]);
    }
  }

  lemma {:induction false} StackWithin(visited: seq<nat>, stack: seq<nat>, p: nat)
    requires Elements(stack) <= Elements(visited)
    ensures Elements(stack + [p]) <= Elements(visited + [p])
  {
    forall x | x in stack ensures x in visited { assert x in Elements(stack); }
  }

  lemma {:induction false} StillWithin(visited: seq<nat>, visited': seq<nat>, stack: seq<nat>)
    requires Elements(stack) <= Elements(visited) && visited <= visited'
    ensures Elements(stack) <= Elements(visited')
  {
    forall x | x in stack ensures x in visited' {
      assert x in Elements(stack);
      assert x in visited;
    }
  }

  lemma {:induction false} LinesPreorder(g: Graph, owner: nat, i: nat, visited: seq<nat>, stack: seq<nat>)
    requires owner in g && i <= |g[owner]| && Elements(stack) <= Elements(visited)
    ensures
      var r := Lines(g, owner, i, visited, stack);
      r.visited == AddTargets(visited, r.out)
    decreases Left(g, visited), |g[owner]| - i + 1
  {
    if i < |g[owner]| {
      match g[owner][i] {
        case Debug => LinesPreorder(g, owner, i + 1, visited, stack);
        case Text(t) =>
          LinesPreorder(g, owner, i + 1, visited, stack);
          var rest := Lines(g, owner, i + 1, visited, stack).out;
          assert ([Copied(owner, t)] + rest)[1..] == rest;
        case Load(t) =>
          var nested := Inline(g, t, visited, stack);
          InlinePreorder(g, t, visited, stack);
          LeftShrinks(g, visited, nested.visited);
          StillWithin(visited, nested.visited, stack);
          LinesPreorder(g, owner, i + 1, nested.visited, stack);
          var rest := Lines(g, owner, i + 1, nested.visited, stack).out;
          assert ([Inlined(t, nested.out)] + rest)[1..] == rest;
      }
    }
  }

  lemma {:induction false} AddTargetsNoRepeats(visited: seq<nat>, out: seq<Piece>)
    requires NoRepeats(visited)
    ensures NoRepeats(AddTargets(visited, out))
    decreases out
  {
    if out != [] {
      PieceNoRepeats(visited, out[0]);
      AddTargetsNoRepeats(AddTargetsIn(visited, out[0]), out[1..]);
    }
  }

  lemma {:induction false} PieceNoRepeats(visited: seq<nat>, x: Piece)
    requires NoRepeats(visited)
    ensures NoRepeats(AddTargetsIn(visited, x))
    decreases x
  {
    if x.Inlined? {
      AddTargetsNoRepeats(Add(visited, x.target), x.body);
    }
  }

  // ---------- Which files are visited ----------

  ghost predicate Loads(g: Graph, a: nat, b: nat) {
    a in g && Load(b) in g[a]
  }

  /** A chain of loads from a to b. */
  ghost predicate Chain(g: Graph, path: seq<nat>, a: nat, b: nat) {
    |path| > 0 && path[0] == a && path[|path| - 1] == b && forall k | 0 <= k < |path| - 1 :: Loads(g, path[k], path[k + 1])
  }

  ghost predicate Reaches(g: Graph, a: nat, b: nat) {
    exists path :: Chain(g, path, a, b)
  }

  lemma {:induction false} ReachesSelf(g: Graph, a: nat)
    ensures Reaches(g, a, a)
  {
    assert Chain(g, [a], a, a);
  }

  lemma {:induction false} ReachesVia(g: Graph, a: nat, t: nat, b: nat)
    requires Loads(g, a, t) && Reaches(g, t, b)
    ensures Reaches(g, a, b)
  {
    var path :| Chain(g, path, t, b);
    assert Chain(g, [a] + path, a, b);
  }

  /** Everything newly visited is reachable, and whatever it loads is visited, too. */
  ghost predicate Explored(g: Graph, p: nat, visited: seq<nat>, visited': seq<nat>) {
    forall f | New(f, visited, visited') :: Reaches(g, p, f) && SuccessorsIn(g, f, visited')
  }

  ghost predicate SuccessorsIn(g: Graph, f: nat, visited: seq<nat>) {
    forall t | Loads(g, f, t) :: t in visited
  }

  lemma {:induction false} InlineExplores(g: Graph, p: nat, visited: seq<nat>, stack: seq<nat>)
    requires Elements(stack) <= Elements(visited)
    ensures
      var r := Inline(g, p, visited, stack);
      p in r.visited && Explored(g, p, visited, r.visited)
    decreases Left(g, visited), 0
  {
    ReachesSelf(g, p);
    if p in stack {
      assert p in Elements(stack);
    } else if p !in visited && p in g {
      LeftShrinks(g, visited, visited + [p]);
      StackWithin(visited, stack, p);
      LinesExplore(g, p, 0, visited + [p], stack + [p]);
      var r := Inline(g, p, visited, stack);
      forall t | Loads(g, p, t) ensures t in r.visited {
        var k :| 0 <= k < |g[p]| && g[p][k] == Load(t);
      }
      assert SuccessorsIn(g, p, r.visited);
      forall f | New(f, visited, r.visited) ensures Reaches(g, p, f) && SuccessorsIn(g, f, r.visited) {
        if f != p { assert New(f, visited + [p], r.visited); }
      }
    }
  }

  lemma {:induction false} LinesExplore(g: Graph, owner: nat, i: nat, visited: seq<nat>, stack: seq<nat>)
    requires owner in g && i <= |g[owner]| && Elements(stack) <= Elements(visited)
    ensures
      var r := Lines(g, owner, i, visited, stack);
      Explored(g, owner, visited, r.visited)
      && forall k | i <= k < |g[owner]| && g[owner][k].Load? :: g[owner][k].target in r.visited
    decreases Left(g, visited), |g[owner]| - i + 1
  {
    if i < |g[owner]| {
      match g[owner][i] {
        case Debug => LinesExplore(g, owner, i + 1, visited, stack);
        case Text(t) => LinesExplore(g, owner, i + 1, visited, stack);
        case Load(t) =>
          var nested := Inline(g, t, visited, stack);
          InlineExplores(g, t, visited, stack);
          LeftShrinks(g, visited, nested.visited);
          StillWithin(visited, nested.visited, stack);
          LinesExplore(g, owner, i + 1, nested.visited, stack);
          JoinExplored(g, owner, t, visited, nested.visited, Lines(g, owner, i + 1, nested.visited, stack).visited);
      }
    }
  }

  lemma {:induction false} JoinExplored(g: Graph, owner: nat, t: nat, v0: seq<nat>, v1: seq<nat>, v2: seq<nat>)
    requires Loads(g, owner, t) && v0 <= v1 <= v2 && Explored(g, t, v0, v1) && Explored(g, owner, v1, v2)
    ensures Explored(g, owner, v0, v2)
  {
    forall f | New(f, v0, v2) ensures Reaches(g, owner, f) && SuccessorsIn(g, f, v2) {
      if f in v1 {
        assert New(f, v0, v1);
        ReachesVia(g, owner, t, f);
        forall x | Loads(g, f, x) ensures x in v2 { assert x in v1; }
      } else {
        assert New(f, v1, v2);
      }
    }
  }

  lemma {:induction false} ChainStaysIn(g: Graph, visited: seq<nat>, path: seq<nat>, a: nat, b: nat)
    requires Chain(g, path, a, b) && a in visited && forall f | f in visited :: SuccessorsIn(g, f, visited)
    ensures b in visited
    decreases |path|
  {
    if |path| > 1 {
      assert Loads(g, path[0], path[1]);
      assert SuccessorsIn(g, a, visited);
      ChainStaysIn(g, visited, path[1..], path[1], b);
    }
  }

  // ---------- Cycle markers ----------

  /** The text for a load of t below the open files `stack`: a marker exactly when t is one of them. */
  ghost predicate MarkedAs(t: nat, body: seq<Piece>, stack: seq<nat>)
    decreases body, 1
  {
    if t in stack then body == [CycleMark] else WellMarked(body, stack + [t])
  }

  /** No marker but as the whole text of a load. */
  ghost predicate WellMarked(out: seq<Piece>, stack: seq<nat>)
    decreases out, 0
  {
    out == []
    || (!out[0].CycleMark?
        && (out[0].Inlined? ==> MarkedAs(out[0].target, out[0].body, stack))
        && WellMarked(out[1..], stack))
  }

  lemma {:induction false} InlineMarked(g: Graph, p: nat, visited: seq<nat>, stack: seq<nat>)
    ensures MarkedAs(p, Inline(g, p, visited, stack).out, stack)
    decreases Left(g, visited), 0
  {
    if p !in stack && p !in visited && p in g {
      LeftShrinks(g, visited, visited + [p]);
      LinesMarked(g, p, 0, visited + [p], stack + [p]);
    }
  }

  lemma {:induction false} LinesMarked(g: Graph, owner: nat, i: nat, visited: seq<nat>, stack: seq<nat>)
    requires owner in g && i <= |g[owner]|
    ensures WellMarked(Lines(g, owner, i, visited, stack).out, stack)
    decreases Left(g, visited), |g[owner]| - i + 1
  {
    if i < |g[owner]| {
      match g[owner][i] {
        case Debug => LinesMarked(g, owner, i + 1, visited, stack);
        case Text(t) =>
          LinesMarked(g, owner, i + 1, visited, stack);
          var rest := Lines(g, owner, i + 1, visited, stack).out;
          assert ([Copied(owner, t)] + rest)[1..] == rest;
        case Load(t) =>
          var nested := Inline(g, t, visited, stack);
          InlineMarked(g, t, visited, stack);
          LeftShrinks(g, visited, nested.visited);
          LinesMarked(g, owner, i + 1, nested.visited, stack);
          var rest := Lines(g, owner, i + 1, nested.visited, stack).out;
          assert ([Inlined(t, nested.out)] + rest)[1..] == rest;
      }
    }
  }

  // ---------- The whole build ----------

  /** From any root, over any graph with cycles, self-loads and diamonds. */
  lemma {:induction false} BuildIsComplete(g: Graph, root: nat)
    ensures
      var r := Inline(g, root, [], []);
      NoRepeats(r.visited)
      && (forall f :: f in r.visited <==> Reaches(g, root, f))
      && (forall f :: Owned(r.out, f) == if Reaches(g, root, f) then TextsOf(g, f) else [])
      && r.visited == AddTargets([root], r.out)
      && MarkedAs(root, r.out, [])
  {
    var r := Inline(g, root, [], []);
    InlineExplores(g, root, [], []);
    InlinePreorder(g, root, [], []);
    InlineMarked(g, root, [], []);
    AddTargetsNoRepeats([root], r.out);
    assert Add([], root) == [root];
    forall f ensures f in r.visited <==> Reaches(g, root, f) {
      if f in r.visited {
        assert New(f, [], r.visited);
      }
      if Reaches(g, root, f) {
        var path :| Chain(g, path, root, f);
        forall x | x in r.visited ensures SuccessorsIn(g, x, r.visited) { assert New(x, [], r.visited); }
        ChainStaysIn(g, r.visited, path, root, f);
      }
    }
    forall f ensures Owned(r.out, f) == if Reaches(g, root, f) then TextsOf(g, f) else [] {
      InlineOwned(g, root, [], [], f);
      assert f in r.visited <==> Reaches(g, root, f);
    }
  }

  // ---------- The lists pushed and popped ----------

  class Inliner {
    const files: Graph
    var visited: seq<nat>
    var stack: seq<nat>

    ghost predicate Valid()
      reads this
    {
      Elements(stack) <= Elements(visited)
    }

    constructor (files: Graph)
      ensures Valid() && this.files == files && visited == [] && stack == []
    {
      this.files := files;
      visited, stack := [], [];
    }

    method InlineLoads(p: nat) returns (out: seq<Piece>)
      requires Valid()
      modifies this
      ensures Valid() && stack == old(stack)
      ensures Result(out, visited) == Inline(files, p, old(visited), old(stack))
      decreases Left(files, visited), 0
    {
      if p in stack {
        return [CycleMark];
      }
      if p in visited {
        return [];
      }
      StackWithin(visited, stack, p);
      LeftShrinks(files, visited, visited + [p]);
      visited := visited + [p];
      stack := stack + [p];
      if p !in files {
        Popped(visited, stack);
        stack := stack[..|stack| - 1];
        return [];
      }
      out := InlineLines(p);
      Popped(visited, stack);
      stack := stack[..|stack| - 1];
    }

    /** What one line adds. */
    method InlineLine(p: nat, i: nat) returns (pieces: seq<Piece>)
      requires Valid() && p in files && i < |files[p]|
      modifies this
      ensures Valid() && stack == old(stack) && old(visited) <= visited
      ensures Lines(files, p, i, old(visited), stack) == Behind(pieces, Lines(files, p, i + 1, visited, stack))
      decreases Left(files, visited), 1
    {
      match files[p][i] {
        case Debug =>
          NoPieces(Lines(files, p, i + 1, visited, stack));
          pieces := [];
        case Text(t) =>
          pieces := [Copied(p, t)];
        case Load(t) =>
          var nested := InlineLoads(t);
          pieces := [Inlined(t, nested)];
      }
    }

    method InlineLines(p: nat) returns (out: seq<Piece>)
      requires Valid() && p in files
      modifies this
      ensures Valid() && stack == old(stack)
      ensures Result(out, visited) == Lines(files, p, 0, old(visited), stack)
      decreases Left(files, visited), |files[p]| + 2
    {
      out := [];
      for i := 0 to |files[p]|
        invariant Valid() && stack == old(stack) && old(visited) <= visited
        invariant Behind(out, Lines(files, p, i, visited, stack)) == Lines(files, p, 0, old(visited), stack)
      {
        LeftShrinks(files, old(visited), visited);
        var pieces := InlineLine(p, i);
        BehindBoth(out, pieces, Lines(files, p, i + 1, visited, stack));
        out := out + pieces;
      }
    }
  }

  function Behind(out: seq<Piece>, rest: Result): Result {
    Result(out + rest.out, rest.visited)
  }

  lemma {:induction false} BehindBoth(a: seq<Piece>, b: seq<Piece>, rest: Result)
    ensures Behind(a, Behind(b, rest)) == Behind(a + b, rest)
  {
    Assoc(a, b, rest.out);
  }

  lemma {:induction false} NoPieces(rest: Result)
    ensures Result([] + rest.out, rest.visited) == rest
  {
  }

  lemma {:induction false} Popped(visited: seq<nat>, stack: seq<nat>)
    requires stack != [] && Elements(stack) <= Elements(visited)
    ensures Elements(stack[..|stack| - 1]) <= Elements(visited)
  {
    forall x | x in stack[..|stack| - 1] ensures x in visited { assert x in Elements(stack); }
  }
}
