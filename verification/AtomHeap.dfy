/** The reference-counted heap behind atoms: runtime/gc.c (copy, release) and the atom operations of
    runtime/math.c. An address names one allocation for good. */
module AtomHeap {
  import opened Sequences

  datatype Kind = StrKind | VecKind | MapKind | FnKind

  /** A scalar travels in the value itself; anything else is a reference to a heap object. */
  datatype Slot = Scalar(n: int) | Ref(addr: nat)

  /** A map's slots are its entries in order, each key before its value. A closure's captured values are
      never followed, so closures and strings have no slots. */
  datatype Node = Node(kind: Kind, rc: nat, text: string, items: seq<Slot>)

  /** `ok` turns false at the first use or free of an object that is not there. */
  datatype Heap = Heap(cells: map<nat, Node>, next: nat, ok: bool)

  const PINNED := 0xFF
  const SHARE_LIMIT := 0xFE

  predicate IsLeaf(k: Kind) {
    k.StrKind? || k.FnKind?
  }

  ghost predicate Bounded(h: Heap) {
    forall a | a in h.cells :: a < h.next
  }

  // ---------- Reading a value ----------

  /** Everything below `v` is there, and at most d containers deep. */
  ghost predicate Acyclic(h: Heap, v: Slot, d: nat)
    decreases d, 0
  {
    v.Ref? ==> v.addr in h.cells
               && (IsLeaf(h.cells[v.addr].kind) || (d > 0 && AcyclicAll(h, h.cells[v.addr].items, d - 1)))
  }

  ghost predicate AcyclicAll(h: Heap, vs: seq<Slot>, d: nat)
    decreases d, |vs|
  {
    vs == [] || (Acyclic(h, vs[0], d) && AcyclicAll(h, vs[1..], d))
  }

  datatype Tree = Leaf(n: int) | Text(text: string) | Closure(addr: nat) | Branch(kind: Kind, items: Forest)
  datatype Forest = Empty | Grow(head: Tree, tail: Forest)

  /** What the program sees when it reads `v`; only closures keep their identity. */
  ghost function Shape(h: Heap, v: Slot, d: nat): Tree
    requires Acyclic(h, v, d)
    decreases d, 0
  {
    if v.Scalar? then Leaf(v.n)
    else
      var node := h.cells[v.addr];
      if node.kind.StrKind? then Text(node.text)
      else if node.kind.FnKind? then Closure(v.addr)
      else Branch(node.kind, ShapeAll(h, node.items, d - 1))
  }

  ghost function ShapeAll(h: Heap, vs: seq<Slot>, d: nat): Forest
    requires AcyclicAll(h, vs, d)
    decreases d, |vs|
  {
    if vs == [] then Empty else Grow(Shape(h, vs[0], d), ShapeAll(h, vs[1..], d))
  }

  /** The strings, vectors and maps met while reading `v`, in reading order, with repetitions. */
  ghost function Nodes(h: Heap, v: Slot, d: nat): seq<nat>
    requires Acyclic(h, v, d)
    decreases d, 0
  {
    if v.Scalar? || h.cells[v.addr].kind.FnKind? then []
    else if h.cells[v.addr].kind.StrKind? then [v.addr]
    else [v.addr] + NodesAll(h, h.cells[v.addr].items, d - 1)
  }

  ghost function NodesAll(h: Heap, vs: seq<Slot>, d: nat): seq<nat>
    requires AcyclicAll(h, vs, d)
    decreases d, |vs|
  {
    if vs == [] then [] else Nodes(h, vs[0], d) + NodesAll(h, vs[1..], d)
  }

  /** How often closure f occurs. */
  ghost function Uses(t: Tree, f: nat): nat {
    match t
    case Closure(a) => if a == f then 1 else 0
    case Branch(_, items) => UsesIn(items, f)
    case _ => 0
  }

  ghost function UsesIn(ts: Forest, f: nat): nat {
    match ts
    case Empty => 0
    case Grow(t, rest) => Uses(t, f) + UsesIn(rest, f)
  }

  // ---------- What leaves a value as it reads ----------

  /** The same object, but for the count of a closure. */
  ghost predicate Alike(n: Node, m: Node) {
    n.kind == m.kind && n.text == m.text && n.items == m.items && (n.kind.FnKind? || n.rc == m.rc)
  }

  ghost predicate SameOutside(h: Heap, h': Heap, skip: set<nat>) {
    (forall a | a in h.cells && a !in skip :: a in h'.cells && Alike(h.cells[a], h'.cells[a]))
    && forall a | a in skip && a in h.cells :: !h.cells[a].kind.FnKind?
  }

  ghost predicate Avoids(nodes: seq<nat>, skip: set<nat>) {
    forall a | a in nodes :: a !in skip
  }

  lemma {:induction false} Frame(h: Heap, h': Heap, v: Slot, d: nat, skip: set<nat>)
    requires Acyclic(h, v, d) && SameOutside(h, h', skip) && Avoids(Nodes(h, v, d), skip)
    ensures Acyclic(h', v, d) && Shape(h', v, d) == Shape(h, v, d) && Nodes(h', v, d) == Nodes(h, v, d)
    decreases d, 0
  {
    if v.Ref? {
      var node := h.cells[v.addr];
      if !IsLeaf(node.kind) {
        assert v.addr in Nodes(h, v, d);
        FrameAll(h, h', node.items, d - 1, skip);
      } else if node.kind.StrKind? {
        assert v.addr in Nodes(h, v, d);
      }
    }
  }

  lemma {:induction false} FrameAll(h: Heap, h': Heap, vs: seq<Slot>, d: nat, skip: set<nat>)
    requires AcyclicAll(h, vs, d) && SameOutside(h, h', skip) && Avoids(NodesAll(h, vs, d), skip)
    ensures AcyclicAll(h', vs, d) && ShapeAll(h', vs, d) == ShapeAll(h, vs, d) && NodesAll(h', vs, d) == NodesAll(h, vs, d)
    decreases d, |vs|
  {
    if vs != [] {
      Frame(h, h', vs[0], d, skip);
      FrameAll(h, h', vs[1..], d, skip);
    }
  }

  /** Only live objects are met. */
  lemma {:induction false} NodesLive(h: Heap, v: Slot, d: nat, a: nat)
    requires Acyclic(h, v, d) && a in Nodes(h, v, d)
    ensures a in h.cells && !h.cells[a].kind.FnKind?
    decreases d, 0
  {
    if a != v.addr {
      NodesLiveAll(h, h.cells[v.addr].items, d - 1, a);
    }
  }

  lemma {:induction false} NodesLiveAll(h: Heap, vs: seq<Slot>, d: nat, a: nat)
    requires AcyclicAll(h, vs, d) && a in NodesAll(h, vs, d)
    ensures a in h.cells && !h.cells[a].kind.FnKind?
    decreases d, |vs|
  {
    if a in Nodes(h, vs[0], d) {
      NodesLive(h, vs[0], d, a);
    } else {
      NodesLiveAll(h, vs[1..], d, a);
    }
  }

  lemma {:induction false} UsesLive(h: Heap, v: Slot, d: nat, f: nat)
    requires Acyclic(h, v, d) && Uses(Shape(h, v, d), f) > 0
    ensures f in h.cells && h.cells[f].kind.FnKind?
    decreases d, 0
  {
    if !IsLeaf(h.cells[v.addr].kind) {
      UsesLiveAll(h, h.cells[v.addr].items, d - 1, f);
    }
  }

  lemma {:induction false} UsesLiveAll(h: Heap, vs: seq<Slot>, d: nat, f: nat)
    requires AcyclicAll(h, vs, d) && UsesIn(ShapeAll(h, vs, d), f) > 0
    ensures f in h.cells && h.cells[f].kind.FnKind?
    decreases d, |vs|
  {
    if Uses(Shape(h, vs[0], d), f) > 0 {
      UsesLive(h, vs[0], d, f);
    } else {
      UsesLiveAll(h, vs[1..], d, f);
    }
  }

  // ---------- Copying ----------

  datatype Copied = Copied(heap: Heap, value: Slot)
  datatype CopiedAll = CopiedAll(heap: Heap, values: seq<Slot>)

  function Allocate(h: Heap, node: Node): Heap {
    Heap(h.cells[h.next := node], h.next + 1, h.ok)
  }

  function Put(h: Heap, a: nat, node: Node): Heap {
    h.(cells := h.cells[a := node])
  }

  function Bad(h: Heap): Heap {
    h.(ok := false)
  }

  /** Strings, vectors and maps are copied, outer object first; closures are shared, up to a limit. */
  function Copy(h: Heap, v: Slot, d: nat): Copied
    decreases d, 0
  {
    if v.Scalar? then Copied(h, v)
    else if v.addr !in h.cells then Copied(Bad(h), v)
    else
      var node := h.cells[v.addr];
      if node.kind.StrKind? then Copied(Allocate(h, Node(StrKind, 1, node.text, [])), Ref(h.next))
      else if node.kind.FnKind? then
        Copied(if node.rc < SHARE_LIMIT then Put(h, v.addr, node.(rc := node.rc + 1)) else h, v)
      else if d == 0 then Copied(Bad(h), v)
      else
        var inner := CopyAll(Allocate(h, Node(node.kind, 1, "", [])), node.items, d - 1);
        Copied(Put(inner.heap, h.next, Node(node.kind, 1, "", inner.values)), Ref(h.next))
  }

  function CopyAll(h: Heap, vs: seq<Slot>, d: nat): CopiedAll
    decreases d, |vs|
  {
    if vs == [] then CopiedAll(h, [])
    else
      var first := Copy(h, vs[0], d);
      var rest := CopyAll(first.heap, vs[1..], d);
      CopiedAll(rest.heap, [first.value] + rest.values)
  }

  function Range(lo: nat, hi: nat): (r: seq<nat>)
    requires lo <= hi
    ensures |r| == hi - lo && forall k | 0 <= k < |r| :: r[k] == lo + k
    decreases hi - lo
  {
    if lo == hi then [] else [lo] + Range(lo + 1, hi)
  }

  /** A closure's count after n more shares: it sticks at the limit. */
  function Bump(rc: nat, n: nat): nat {
    if rc >= SHARE_LIMIT then rc else if rc + n <= SHARE_LIMIT then rc + n else SHARE_LIMIT
  }

  /** From h to h' only new objects appear, one reference each, and closures are shared as `uses` says. */
  ghost predicate Grew(h: Heap, h': Heap) {
    Bounded(h') && h.next <= h'.next && h'.ok == h.ok && SameOutside(h, h', {})
    && forall a | a in h'.cells && a !in h.cells :: h.next <= a && h'.cells[a].rc == 1 && !h'.cells[a].kind.FnKind?
  }

  ghost predicate SharedBy(h: Heap, h': Heap, t: Tree) {
    forall f | f in h.cells && f in h'.cells && h.cells[f].kind.FnKind? :: h'.cells[f].rc == Bump(h.cells[f].rc, Uses(t, f))
  }

  ghost predicate SharedByAll(h: Heap, h': Heap, ts: Forest) {
    forall f | f in h.cells && f in h'.cells && h.cells[f].kind.FnKind? :: h'.cells[f].rc == Bump(h.cells[f].rc, UsesIn(ts, f))
  }

  /** The copy reads as the original did, and consists of exactly the newly allocated objects, each met once. */
  ghost predicate IsCopy(h: Heap, v: Slot, d: nat, c: Copied)
    requires Acyclic(h, v, d)
  {
    Grew(h, c.heap) && SharedBy(h, c.heap, Shape(h, v, d))
    && Acyclic(c.heap, c.value, d) && Shape(c.heap, c.value, d) == Shape(h, v, d)
    && Nodes(c.heap, c.value, d) == Range(h.next, c.heap.next)
  }

  ghost predicate AreCopies(h: Heap, vs: seq<Slot>, d: nat, c: CopiedAll)
    requires AcyclicAll(h, vs, d)
  {
    Grew(h, c.heap) && SharedByAll(h, c.heap, ShapeAll(h, vs, d))
    && AcyclicAll(c.heap, c.values, d) && ShapeAll(c.heap, c.values, d) == ShapeAll(h, vs, d)
    && NodesAll(c.heap, c.values, d) == Range(h.next, c.heap.next)
  }

  lemma {:induction false} CopyIsCopy(h: Heap, v: Slot, d: nat)
    requires Bounded(h) && Acyclic(h, v, d)
    ensures IsCopy(h, v, d, Copy(h, v, d))
    decreases d, 0
  {
    if v.Ref? {
      var node := h.cells[v.addr];
      if !IsLeaf(node.kind) {
        var h1 := Allocate(h, Node(node.kind, 1, "", []));
        FrameAll(h, h1, node.items, d - 1, {});
        CopiesAreCopies(h1, node.items, d - 1);
        FillKeeps(h, h1, node, CopyAll(h1, node.items, d - 1), d);
      }
    }
  }

  /** Storing the copied elements into the new container. */
  lemma {:induction false} FillKeeps(h: Heap, h1: Heap, node: Node, inner: CopiedAll, d: nat)
    requires Bounded(h) && d > 0 && !IsLeaf(node.kind) && AcyclicAll(h, node.items, d - 1)
    requires h1 == Allocate(h, Node(node.kind, 1, "", [])) && AcyclicAll(h1, node.items, d - 1)
    requires ShapeAll(h1, node.items, d - 1) == ShapeAll(h, node.items, d - 1)
    requires AreCopies(h1, node.items, d - 1, inner)
    ensures
      var h2 := Put(inner.heap, h.next, Node(node.kind, 1, "", inner.values));
      Grew(h, h2) && SharedByAll(h, h2, ShapeAll(h, node.items, d - 1)) && Acyclic(h2, Ref(h.next), d)
      && Shape(h2, Ref(h.next), d) == Branch(node.kind, ShapeAll(h, node.items, d - 1))
      && Nodes(h2, Ref(h.next), d) == Range(h.next, h2.next)
  {
    var h2 := Put(inner.heap, h.next, Node(node.kind, 1, "", inner.values));
    FrameAll(inner.heap, h2, inner.values, d - 1, {h.next});
  }

  lemma {:induction false} CopiesAreCopies(h: Heap, vs: seq<Slot>, d: nat)
    requires Bounded(h) && AcyclicAll(h, vs, d)
    ensures AreCopies(h, vs, d, CopyAll(h, vs, d))
    decreases d, |vs|
  {
    if vs != [] {
      var first := Copy(h, vs[0], d);
      CopyIsCopy(h, vs[0], d);
      FrameAll(h, first.heap, vs[1..], d, {});
      CopiesAreCopies(first.heap, vs[1..], d);
      Prepend(h, vs, d, first, CopyAll(first.heap, vs[1..], d));
    }
  }

  lemma {:induction false} Prepend(h: Heap, vs: seq<Slot>, d: nat, first: Copied, rest: CopiedAll)
    requires Bounded(h) && vs != [] && AcyclicAll(h, vs, d) && IsCopy(h, vs[0], d, first)
    requires AcyclicAll(first.heap, vs[1..], d) && ShapeAll(first.heap, vs[1..], d) == ShapeAll(h, vs[1..], d)
    requires AreCopies(first.heap, vs[1..], d, rest)
    ensures AreCopies(h, vs, d, CopiedAll(rest.heap, [first.value] + rest.values))
  {
    Frame(first.heap, rest.heap, first.value, d, {});
    GrewTwice(h, first.heap, rest.heap);
    assert ([first.value] + rest.values)[1..] == rest.values;
    RangeSplit(h.next, first.heap.next, rest.heap.next);
  }

  lemma {:induction false} GrewTwice(h: Heap, h1: Heap, h2: Heap)
    requires Grew(h, h1) && Grew(h1, h2)
    ensures Grew(h, h2)
  {
  }

  lemma {:induction false} RangeSplit(a: nat, b: nat, c: nat)
    requires a <= b <= c
    ensures Range(a, c) == Range(a, b) + Range(b, c)
  {
  }

  // ---------- Releasing ----------

  function Free(h: Heap, a: nat): Heap {
    if a in h.cells then h.(cells := h.cells - {a}) else Bad(h)
  }

  function Release(h: Heap, v: Slot, d: nat): Heap
    decreases d, 0
  {
    if v.Scalar? then h
    else if v.addr !in h.cells then Bad(h)
    else
      var node := h.cells[v.addr];
      if node.rc == 0 || node.rc == PINNED then h
      else
        var h1 := Put(h, v.addr, node.(rc := node.rc - 1));
        if node.rc > 1 then h1
        else if IsLeaf(node.kind) then Free(h1, v.addr)
        else if d == 0 then Bad(h1)
        else Free(ReleaseAll(h1, node.items, d - 1), v.addr)
  }

  function ReleaseAll(h: Heap, vs: seq<Slot>, d: nat): Heap
    decreases d, |vs|
  {
    if vs == [] then h else ReleaseAll(Release(h, vs[0], d), vs[1..], d)
  }

  /** Every object of the value is met once and referenced from nowhere else; its closures have other owners. */
  ghost predicate SolelyOwned(h: Heap, nodes: seq<nat>) {
    NoRepeats(nodes) && forall a | a in nodes :: a in h.cells && h.cells[a].rc == 1
  }

  ghost predicate HasOtherOwners(h: Heap, t: Tree) {
    forall f | f in h.cells && h.cells[f].kind.FnKind? :: Uses(t, f) > 0 ==> Uses(t, f) < h.cells[f].rc < PINNED
  }

  ghost predicate HaveOtherOwners(h: Heap, ts: Forest) {
    forall f | f in h.cells && h.cells[f].kind.FnKind? :: UsesIn(ts, f) > 0 ==> UsesIn(ts, f) < h.cells[f].rc < PINNED
  }

  /** Exactly `nodes` are gone; what is left is unchanged. */
  ghost predicate Shrank(h: Heap, h': Heap, nodes: seq<nat>) {
    h'.next == h.next && h'.ok == h.ok
    && (forall a :: a in h'.cells <==> a in h.cells && a !in nodes)
    && forall a | a in h'.cells :: Alike(h.cells[a], h'.cells[a])
  }

  ghost predicate UnsharedBy(h: Heap, h': Heap, t: Tree) {
    forall f | f in h.cells && f in h'.cells && h.cells[f].kind.FnKind? :: h'.cells[f].rc == h.cells[f].rc - Uses(t, f)
  }

  ghost predicate UnsharedByAll(h: Heap, h': Heap, ts: Forest) {
    forall f | f in h.cells && f in h'.cells && h.cells[f].kind.FnKind? :: h'.cells[f].rc == h.cells[f].rc - UsesIn(ts, f)
  }

  lemma {:induction false} ReleaseFrees(h: Heap, v: Slot, d: nat)
    requires Acyclic(h, v, d) && SolelyOwned(h, Nodes(h, v, d)) && HasOtherOwners(h, Shape(h, v, d))
    ensures
      var h' := Release(h, v, d);
      Shrank(h, h', Nodes(h, v, d)) && UnsharedBy(h, h', Shape(h, v, d))
    decreases d, 0
  {
    if v.Ref? {
      var node := h.cells[v.addr];
      if IsLeaf(node.kind) {
        ReleaseLeaf(h, v, d);
      } else {
        var h1 := Put(h, v.addr, node.(rc := 0));
        ReadyToRelease(h, h1, v, d);
        ReleaseFreesAll(h1, node.items, d - 1);
        ReleaseBranch(h, h1, v, d);
      }
    }
  }

  lemma {:induction false} ReleaseLeaf(h: Heap, v: Slot, d: nat)
    requires v.Ref? && Acyclic(h, v, d) && SolelyOwned(h, Nodes(h, v, d)) && HasOtherOwners(h, Shape(h, v, d))
    requires IsLeaf(h.cells[v.addr].kind)
    ensures
      var h' := Release(h, v, d);
      Shrank(h, h', Nodes(h, v, d)) && UnsharedBy(h, h', Shape(h, v, d))
  {
    if h.cells[v.addr].kind.StrKind? {
      assert v.addr in Nodes(h, v, d);
    } else {
      assert Uses(Shape(h, v, d), v.addr) == 1;
    }
  }

  /** With its count at zero, the elements of a container are owned as before. */
  lemma {:induction false} ReadyToRelease(h: Heap, h1: Heap, v: Slot, d: nat)
    requires v.Ref? && Acyclic(h, v, d) && SolelyOwned(h, Nodes(h, v, d)) && HasOtherOwners(h, Shape(h, v, d))
    requires !IsLeaf(h.cells[v.addr].kind) && h1 == Put(h, v.addr, h.cells[v.addr].(rc := 0))
    ensures
      var items := h.cells[v.addr].items;
      h.cells[v.addr].rc == 1 && Nodes(h, v, d) == [v.addr] + NodesAll(h, items, d - 1) && v.addr !in NodesAll(h, items, d - 1)
      && AcyclicAll(h1, items, d - 1) && NodesAll(h1, items, d - 1) == NodesAll(h, items, d - 1)
      && ShapeAll(h1, items, d - 1) == ShapeAll(h, items, d - 1)
      && SolelyOwned(h1, NodesAll(h1, items, d - 1)) && HaveOtherOwners(h1, ShapeAll(h1, items, d - 1))
  {
    var node := h.cells[v.addr];
    var inner := NodesAll(h, node.items, d - 1);
    assert Nodes(h, v, d) == [v.addr] + inner;
    assert Nodes(h, v, d)[0] == v.addr && Nodes(h, v, d)[1..] == inner;
    FrameAll(h, h1, node.items, d - 1, {v.addr});
  }

  /** The container goes last. */
  lemma {:induction false} ReleaseBranch(h: Heap, h1: Heap, v: Slot, d: nat)
    requires v.Ref? && Acyclic(h, v, d) && !IsLeaf(h.cells[v.addr].kind) && h.cells[v.addr].rc == 1
    requires h1 == Put(h, v.addr, h.cells[v.addr].(rc := 0)) && AcyclicAll(h1, h.cells[v.addr].items, d - 1)
    requires
      var items := h.cells[v.addr].items;
      v.addr !in NodesAll(h1, items, d - 1) && Nodes(h, v, d) == [v.addr] + NodesAll(h1, items, d - 1)
      && ShapeAll(h1, items, d - 1) == ShapeAll(h, items, d - 1)
      && Shrank(h1, ReleaseAll(h1, items, d - 1), NodesAll(h1, items, d - 1))
      && UnsharedByAll(h1, ReleaseAll(h1, items, d - 1), ShapeAll(h1, items, d - 1))
    ensures
      var h' := Release(h, v, d);
      Shrank(h, h', Nodes(h, v, d)) && UnsharedBy(h, h', Shape(h, v, d))
  {
  }

  lemma {:induction false} ReleaseFreesAll(h: Heap, vs: seq<Slot>, d: nat)
    requires AcyclicAll(h, vs, d) && SolelyOwned(h, NodesAll(h, vs, d)) && HaveOtherOwners(h, ShapeAll(h, vs, d))
    ensures
      var h' := ReleaseAll(h, vs, d);
      Shrank(h, h', NodesAll(h, vs, d)) && UnsharedByAll(h, h', ShapeAll(h, vs, d))
    decreases d, |vs|
  {
    if vs != [] {
      AfterFirst(h, vs, d);
      ReleaseFreesAll(Release(h, vs[0], d), vs[1..], d);
    }
  }

  /** Freeing the first element leaves the others owned as before. */
  lemma {:induction false} AfterFirst(h: Heap, vs: seq<Slot>, d: nat)
    requires vs != [] && AcyclicAll(h, vs, d)
    requires SolelyOwned(h, NodesAll(h, vs, d)) && HaveOtherOwners(h, ShapeAll(h, vs, d))
    ensures
      var h1 := Release(h, vs[0], d);
      Shrank(h, h1, Nodes(h, vs[0], d)) && UnsharedBy(h, h1, Shape(h, vs[0], d))
      && AcyclicAll(h1, vs[1..], d)
      && NodesAll(h1, vs[1..], d) == NodesAll(h, vs[1..], d) && ShapeAll(h1, vs[1..], d) == ShapeAll(h, vs[1..], d)
      && SolelyOwned(h1, NodesAll(h1, vs[1..], d)) && HaveOtherOwners(h1, ShapeAll(h1, vs[1..], d))
    decreases d, |vs|, 0
  {
    var a, b := Nodes(h, vs[0], d), NodesAll(h, vs[1..], d);
    assert NodesAll(h, vs, d) == a + b;
    SplitRepeats(a, b);
    ReleaseFrees(h, vs[0], d);
    var h1 := Release(h, vs[0], d);
    var gone := set x | x in a;
    forall x | x in gone ensures !h.cells[x].kind.FnKind? { NodesLive(h, vs[0], d, x); }
    FrameAll(h, h1, vs[1..], d, gone);
    forall x | x in b ensures x in h1.cells && h1.cells[x].rc == 1 { NodesLiveAll(h, vs[1..], d, x); }
  }

  lemma {:induction false} SplitRepeats(a: seq<nat>, b: seq<nat>)
    requires NoRepeats(a + b)
    ensures NoRepeats(a) && NoRepeats(b) && forall x | x in a :: x !in b
  {
    forall i, j | 0 <= i < |a| && 0 <= j < |b| ensures a[i] != b[j] {
      assert (a + b)[i] == a[i] && (a + b)[|a| + j] == b[j];
    }
    forall i, j | 0 <= i < j < |b| ensures b[i] != b[j] {
      assert (a + b)[|a| + i] == b[i] && (a + b)[|a| + j] == b[j];
    }
    forall i, j | 0 <= i < j < |a| ensures a[i] != a[j] {
      assert (a + b)[i] == a[i] && (a + b)[j] == a[j];
    }
  }

  // ---------- The heap as the runtime runs it ----------

  class RcHeap {
    var cells: map<nat, Node>
    var next: nat

    ghost function Abs(): Heap
      reads this
    {
      Heap(cells, next, true)
    }

    constructor ()
      ensures Abs() == Heap(map[], 0, true)
    {
      cells, next := map[], 0;
    }

    method NewNode(node: Node) returns (a: nat)
      modifies this
      ensures a == old(next) && Abs() == Allocate(old(Abs()), node)
    {
      a := next;
      cells := cells[a := node];
      next := next + 1;
    }

    method CopyValue(v: Slot, ghost d: nat) returns (r: Slot)
      requires Bounded(Abs()) && Acyclic(Abs(), v, d)
      modifies this
      ensures Copied(Abs(), r) == Copy(old(Abs()), v, d)
      decreases d, 0
    {
      if v.Scalar? {
        return v;
      }
      var node := cells[v.addr];
      if node.kind.StrKind? {
        var a := NewNode(Node(StrKind, 1, node.text, []));
        return Ref(a);
      }
      if node.kind.FnKind? {
        if node.rc < SHARE_LIMIT {
          cells := cells[v.addr := node.(rc := node.rc + 1)];
        }
        return v;
      }
      var dst := NewNode(Node(node.kind, 1, "", []));
      FrameAll(old(Abs()), Abs(), node.items, d - 1, {});
      var data := CopyItems(node.items, d - 1);
      cells := cells[dst := Node(node.kind, 1, "", data)];
      r := Ref(dst);
    }

    method CopyItems(src: seq<Slot>, ghost d: nat) returns (data: seq<Slot>)
      requires Bounded(Abs()) && AcyclicAll(Abs(), src, d)
      modifies this
      ensures CopiedAll(Abs(), data) == CopyAll(old(Abs()), src, d)
      decreases d, |src|
    {
      data := [];
      var i := 0;
      assert src[0..] == src;
      while i < |src|
        invariant i <= |src| && Bounded(Abs()) && AcyclicAll(Abs(), src[i..], d)
        invariant
          var rest := CopyAll(Abs(), src[i..], d);
          CopyAll(old(Abs()), src, d) == CopiedAll(rest.heap, data + rest.values)
      {
        ghost var h := Abs();
        CopyIsCopy(h, src[i], d);
        FrameAll(h, Copy(h, src[i], d).heap, src[i..][1..], d, {});
        assert src[i..][1..] == src[i + 1..];
        var x := CopyValue(src[i], d);
        data := data + [x];
        i := i + 1;
      }
    }

    /** A scalar, an object with other owners, or the last reference to a whole value. */
    ghost predicate Releasable(v: Slot, d: nat)
      reads this
    {
      v.Ref? ==>
        v.addr in cells
        && (cells[v.addr].rc == 1 && !IsLeaf(cells[v.addr].kind) ==>
              Acyclic(Abs(), v, d) && SolelyOwned(Abs(), Nodes(Abs(), v, d)) && HasOtherOwners(Abs(), Shape(Abs(), v, d)))
    }

    method ReleaseValue(v: Slot, ghost d: nat)
      requires Releasable(v, d)
      modifies this
      ensures Abs() == Release(old(Abs()), v, d)
      decreases d, 0
    {
      if v.Scalar? {
        return;
      }
      var node := cells[v.addr];
      if node.rc == 0 || node.rc == PINNED {
        return;
      }
      ghost var h := Abs();
      cells := cells[v.addr := node.(rc := node.rc - 1)];
      if node.rc > 1 {
        return;
      }
      if !IsLeaf(node.kind) {
        StillOwned(h, v, d);
        ReleaseItems(node.items, d - 1);
      }
      cells := cells - {v.addr};
    }

    method ReleaseItems(items: seq<Slot>, ghost d: nat)
      requires AcyclicAll(Abs(), items, d)
      requires SolelyOwned(Abs(), NodesAll(Abs(), items, d)) && HaveOtherOwners(Abs(), ShapeAll(Abs(), items, d))
      modifies this
      ensures Abs() == ReleaseAll(old(Abs()), items, d)
      decreases d, |items|
    {
      var i := 0;
      assert items[0..] == items;
      while i < |items|
        invariant i <= |items| && AcyclicAll(Abs(), items[i..], d)
        invariant SolelyOwned(Abs(), NodesAll(Abs(), items[i..], d)) && HaveOtherOwners(Abs(), ShapeAll(Abs(), items[i..], d))
        invariant ReleaseAll(old(Abs()), items, d) == ReleaseAll(Abs(), items[i..], d)
      {
        AfterFirst(Abs(), items[i..], d);
        FirstOwned(Abs(), items[i..], d);
        assert items[i..][1..] == items[i + 1..];
        ReleaseValue(items[i], d);
        i := i + 1;
      }
    }
  }

  lemma {:induction false} FirstOwned(h: Heap, vs: seq<Slot>, d: nat)
    requires vs != [] && AcyclicAll(h, vs, d)
    requires SolelyOwned(h, NodesAll(h, vs, d)) && HaveOtherOwners(h, ShapeAll(h, vs, d))
    ensures SolelyOwned(h, Nodes(h, vs[0], d)) && HasOtherOwners(h, Shape(h, vs[0], d))
  {
    SplitRepeats(Nodes(h, vs[0], d), NodesAll(h, vs[1..], d));
  }

  lemma {:induction false} StillOwned(h: Heap, v: Slot, d: nat)
    requires Acyclic(h, v, d) && v.Ref? && !IsLeaf(h.cells[v.addr].kind)
    requires SolelyOwned(h, Nodes(h, v, d)) && HasOtherOwners(h, Shape(h, v, d))
    ensures
      var node := h.cells[v.addr];
      var h1 := Put(h, v.addr, node.(rc := 0));
      d > 0 && AcyclicAll(h1, node.items, d - 1) && SolelyOwned(h1, NodesAll(h1, node.items, d - 1))
      && HaveOtherOwners(h1, ShapeAll(h1, node.items, d - 1)) && ReleaseAll(h1, node.items, d - 1).ok == h.ok
      && v.addr in ReleaseAll(h1, node.items, d - 1).cells
  {
    var node := h.cells[v.addr];
    var inner := NodesAll(h, node.items, d - 1);
    assert Nodes(h, v, d)[0] == v.addr && Nodes(h, v, d)[1..] == inner;
    var h1 := Put(h, v.addr, node.(rc := 0));
    FrameAll(h, h1, node.items, d - 1, {v.addr});
    ReleaseFreesAll(h1, node.items, d - 1);
  }
}

/** Atoms: pinned one-element vectors whose element always lives on the reference-counted heap. */
module Atoms {
  import opened Sequences
  import opened AtomHeap

  predicate IsAtom(h: Heap, a: nat) {
    a in h.cells && h.cells[a].kind.VecKind? && h.cells[a].rc == PINNED && |h.cells[a].items| == 1
  }

  function Content(h: Heap, a: nat): Slot
    requires IsAtom(h, a)
  {
    h.cells[a].items[0]
  }

  function Holding(v: Slot): Node {
    Node(VecKind, PINNED, "", [v])
  }

  function NewAtom(h: Heap, v: Slot, d: nat): Heap {
    var c := Copy(Allocate(h, Node(VecKind, PINNED, "", [])), v, d);
    Put(c.heap, h.next, Holding(c.value))
  }

  /** The copy is made before the old content goes: the two may share objects. */
  function Reset(h: Heap, a: nat, v: Slot, d: nat): Heap
    requires IsAtom(h, a)
  {
    var c := Copy(h, v, d);
    Release(Put(c.heap, a, h.cells[a].(items := [c.value])), Content(h, a), d)
  }

  ghost predicate OwnsContent(h: Heap, a: nat, d: nat) {
    IsAtom(h, a) && Acyclic(h, Content(h, a), d) && SolelyOwned(h, Nodes(h, Content(h, a), d))
  }

  ghost function Held(h: Heap, a: nat, d: nat): seq<nat>
    requires OwnsContent(h, a, d)
  {
    Nodes(h, Content(h, a), d)
  }

  ghost function Reads(h: Heap, a: nat, d: nat): Tree
    requires OwnsContent(h, a, d)
  {
    Shape(h, Content(h, a), d)
  }

  ghost predicate ShareNothing(s: seq<nat>, t: seq<nat>) {
    forall x | x in s :: x !in t
  }

  /** Every atom owns its content alone. */
  ghost predicate Sound(h: Heap, atoms: seq<nat>, d: nat) {
    Bounded(h) && NoRepeats(atoms)
    && (forall i | 0 <= i < |atoms| :: OwnsContent(h, atoms[i], d))
    && forall i, j | 0 <= i < |atoms| && 0 <= j < |atoms| && i != j :: ShareNothing(Held(h, atoms[i], d), Held(h, atoms[j], d))
  }

  /** Occurrences of closure f in all atoms. */
  ghost function Occurrences(h: Heap, atoms: seq<nat>, d: nat, f: nat): nat
    requires forall i | 0 <= i < |atoms| :: OwnsContent(h, atoms[i], d)
  {
    if atoms == [] then 0
    else Occurrences(h, atoms[..|atoms| - 1], d, f) + Uses(Reads(h, atoms[|atoms| - 1], d), f)
  }

  ghost predicate CountedAt(h: Heap, atoms: seq<nat>, d: nat, f: nat)
    requires Sound(h, atoms, d) && f in h.cells
  {
    h.cells[f].rc == 1 + Occurrences(h, atoms, d, f)
  }

  /** Each closure's count is one for its creator and one for each occurrence, and below the limit. */
  ghost predicate Counted(h: Heap, atoms: seq<nat>, d: nat)
    requires Sound(h, atoms, d)
  {
    forall f | f in h.cells && h.cells[f].kind.FnKind? :: CountedAt(h, atoms, d, f) && h.cells[f].rc <= SHARE_LIMIT
  }

  /** No closure appears, and none is counted past the limit. */
  ghost predicate OldClosures(h: Heap, h': Heap) {
    forall f | f in h'.cells && h'.cells[f].kind.FnKind? ::
      f in h.cells && h.cells[f].kind.FnKind? && h'.cells[f].rc <= SHARE_LIMIT
  }

  lemma {:induction false} SameOccurrences(h: Heap, h': Heap, atoms: seq<nat>, d: nat, f: nat)
    requires forall i | 0 <= i < |atoms| ::
               OwnsContent(h, atoms[i], d) && OwnsContent(h', atoms[i], d) && Reads(h', atoms[i], d) == Reads(h, atoms[i], d)
    ensures Occurrences(h', atoms, d, f) == Occurrences(h, atoms, d, f)
  {
    if atoms != [] {
      SameOccurrences(h, h', atoms[..|atoms| - 1], d, f);
    }
  }

  lemma {:induction false} OccurrencesUpdate(h: Heap, h': Heap, atoms: seq<nat>, k: nat, d: nat, f: nat)
    requires k < |atoms|
    requires forall i | 0 <= i < |atoms| :: OwnsContent(h, atoms[i], d) && OwnsContent(h', atoms[i], d)
    requires forall i | 0 <= i < |atoms| && i != k :: Reads(h', atoms[i], d) == Reads(h, atoms[i], d)
    ensures Occurrences(h', atoms, d, f) + Uses(Reads(h, atoms[k], d), f)
            == Occurrences(h, atoms, d, f) + Uses(Reads(h', atoms[k], d), f)
  {
    if k == |atoms| - 1 {
      SameOccurrences(h, h', atoms[..k], d, f);
    } else {
      OccurrencesUpdate(h, h', atoms[..|atoms| - 1], k, d, f);
    }
  }

  lemma {:induction false} OccursAtLeast(h: Heap, atoms: seq<nat>, k: nat, d: nat, f: nat)
    requires k < |atoms| && forall i | 0 <= i < |atoms| :: OwnsContent(h, atoms[i], d)
    ensures Uses(Reads(h, atoms[k], d), f) <= Occurrences(h, atoms, d, f)
  {
    if k < |atoms| - 1 {
      OccursAtLeast(h, atoms[..|atoms| - 1], k, d, f);
    }
  }

  // ---------- Replacing the content ----------

  /** After the copy is stored and before the old content is released. */
  ghost function Stored(h: Heap, a: nat, v: Slot, d: nat): Heap
    requires IsAtom(h, a)
  {
    var c := Copy(h, v, d);
    Put(c.heap, a, h.cells[a].(items := [c.value]))
  }

  /** The copy's cells are the old ones and exactly the new addresses. */
  lemma {:induction false} CopyCells(h: Heap, v: Slot, d: nat, c: Copied)
    requires Bounded(h) && Acyclic(h, v, d) && IsCopy(h, v, d, c)
    ensures forall x :: x in c.heap.cells <==> x in h.cells || h.next <= x < c.heap.next
    ensures SolelyOwned(c.heap, Nodes(c.heap, c.value, d))
  {
    forall x | h.next <= x < c.heap.next ensures x in c.heap.cells && x !in h.cells {
      assert Range(h.next, c.heap.next)[x - h.next] == x;
      NodesLive(c.heap, c.value, d, x);
    }
  }

  /** What storing the copy in cell `a` leaves. */
  ghost predicate Filled(h: Heap, h1: Heap, a: nat, v: Slot, d: nat)
    requires Acyclic(h, v, d)
  {
    Bounded(h1) && h1.ok == h.ok && SameOutside(h, h1, {a}) && SharedBy(h, h1, Shape(h, v, d))
    && OwnsContent(h1, a, d) && Reads(h1, a, d) == Shape(h, v, d)
    && h1.next >= h.next && Held(h1, a, d) == Range(h.next, h1.next)
    && (forall x :: x in h1.cells <==> x in h.cells || h.next <= x < h1.next)
    && forall x | x in h1.cells && x !in h.cells :: !h1.cells[x].kind.FnKind?
  }

  lemma {:induction false} Fill(h: Heap, a: nat, node: Node, v: Slot, d: nat)
    requires Bounded(h) && Acyclic(h, v, d) && a in h.cells && h.cells[a].kind.VecKind? && node.rc == PINNED && node.kind.VecKind?
    requires node.items == [Copy(h, v, d).value]
    ensures Filled(h, Put(Copy(h, v, d).heap, a, node), a, v, d)
  {
    var c, h1 := Copy(h, v, d), Put(Copy(h, v, d).heap, a, node);
    CopyIsCopy(h, v, d);
    CopyCells(h, v, d, c);
    assert Content(h1, a) == c.value;
    Frame(c.heap, h1, c.value, d, {a});
  }

  lemma {:induction false} ClosuresAfter(h: Heap, h1: Heap, atoms: seq<nat>, a: nat, v: Slot, d: nat)
    requires Sound(h, atoms, d) && Counted(h, atoms, d) && Acyclic(h, v, d) && Filled(h, h1, a, v, d)
    ensures OldClosures(h, h1)
  {
  }

  lemma {:induction false} StoredKeeps(h: Heap, atoms: seq<nat>, k: nat, v: Slot, d: nat)
    requires Sound(h, atoms, d) && k < |atoms| && Acyclic(h, v, d)
    ensures Filled(h, Stored(h, atoms[k], v, d), atoms[k], v, d)
  {
    assert OwnsContent(h, atoms[k], d);
    Fill(h, atoms[k], h.cells[atoms[k]].(items := [Copy(h, v, d).value]), v, d);
  }

  lemma {:induction false} OthersKeep(h: Heap, atoms: seq<nat>, k: nat, v: Slot, d: nat, i: nat)
    requires Sound(h, atoms, d) && k < |atoms| && i < |atoms| && Acyclic(h, v, d)
    ensures
      var h1 := Stored(h, atoms[k], v, d);
      Acyclic(h1, Content(h, atoms[i]), d) && Shape(h1, Content(h, atoms[i]), d) == Reads(h, atoms[i], d)
      && Nodes(h1, Content(h, atoms[i]), d) == Held(h, atoms[i], d) && SolelyOwned(h1, Held(h, atoms[i], d))
      && (i != k ==> IsAtom(h1, atoms[i]) && Content(h1, atoms[i]) == Content(h, atoms[i]))
  {
    StoredKeeps(h, atoms, k, v, d);
    assert OwnsContent(h, atoms[k], d) && OwnsContent(h, atoms[i], d);
    assert i != k ==> atoms[i] != atoms[k];
    forall x | x in Held(h, atoms[i], d) ensures !h.cells[x].kind.FnKind? { NodesLive(h, Content(h, atoms[i]), d, x); }
    Frame(h, Stored(h, atoms[k], v, d), Content(h, atoms[i]), d, {atoms[k]});
  }

  /** The old content has no owner but the atom, and each of its closures has others. */
  lemma {:induction false} OldContentReleasable(h: Heap, atoms: seq<nat>, k: nat, v: Slot, d: nat)
    requires Sound(h, atoms, d) && Counted(h, atoms, d) && k < |atoms| && Acyclic(h, v, d)
    ensures
      var h1, was := Stored(h, atoms[k], v, d), Content(h, atoms[k]);
      Acyclic(h1, was, d) && SolelyOwned(h1, Nodes(h1, was, d)) && HasOtherOwners(h1, Shape(h1, was, d))
  {
    var h1 := Stored(h, atoms[k], v, d);
    StoredKeeps(h, atoms, k, v, d);
    OthersKeep(h, atoms, k, v, d, k);
    forall f | f in h1.cells && h1.cells[f].kind.FnKind? && Uses(Reads(h, atoms[k], d), f) > 0
      ensures Uses(Reads(h, atoms[k], d), f) < h1.cells[f].rc < PINNED
    {
      UsesLive(h, Content(h, atoms[k]), d, f);
      assert CountedAt(h, atoms, d, f);
      OccursAtLeast(h, atoms, k, d, f);
    }
  }

  /** The atom now reads as the value did, in objects that are all new and all its own; the other atoms are
      as they were; the objects freed are exactly the old content's, each once (`ok` would turn false at a
      second free). The closure counts stay exact if and only if none passed the limit on the way. */
  lemma {:induction false} ResetKeeps(h: Heap, atoms: seq<nat>, k: nat, v: Slot, d: nat)
    requires Sound(h, atoms, d) && Counted(h, atoms, d) && k < |atoms| && Acyclic(h, v, d)
    ensures
      var a, h' := atoms[k], Reset(h, atoms[k], v, d);
      Sound(h', atoms, d) && h'.ok == h.ok && h'.next >= h.next && OldClosures(h, h')
      && Reads(h', a, d) == Shape(h, v, d) && Held(h', a, d) == Range(h.next, h'.next)
      && (forall i | 0 <= i < |atoms| && i != k ::
            Content(h', atoms[i]) == Content(h, atoms[i]) && Reads(h', atoms[i], d) == Reads(h, atoms[i], d))
      && (forall x :: x in h'.cells <==> (x in h.cells && x !in Held(h, a, d)) || h.next <= x < h'.next)
      && forall f | f in h.cells && h.cells[f].kind.FnKind? ::
           f in h'.cells
           && (CountedAt(h', atoms, d, f)
               <==> 1 + Occurrences(h, atoms, d, f) + Uses(Shape(h, v, d), f) <= SHARE_LIMIT)
  {
    var a, h1, h' := atoms[k], Stored(h, atoms[k], v, d), Reset(h, atoms[k], v, d);
    var was := Content(h, a);
    StoredKeeps(h, atoms, k, v, d);
    ClosuresAfter(h, h1, atoms, a, v, d);
    OldContentReleasable(h, atoms, k, v, d);
    OthersKeep(h, atoms, k, v, d, k);
    ReleaseFrees(h1, was, d);
    forall i | 0 <= i < |atoms|
      ensures OwnsContent(h', atoms[i], d)
      ensures i != k ==> Content(h', atoms[i]) == Content(h, atoms[i]) && Reads(h', atoms[i], d) == Reads(h, atoms[i], d)
                         && Held(h', atoms[i], d) == Held(h, atoms[i], d)
      ensures i == k ==> Reads(h', a, d) == Shape(h, v, d) && Held(h', a, d) == Range(h.next, h'.next)
    {
      AtomSurvives(h, atoms, k, v, d, i);
    }
    HeldApart(h, h', atoms, k, d);
    forall f | f in h.cells && h.cells[f].kind.FnKind?
      ensures f in h'.cells
      ensures CountedAt(h', atoms, d, f) <==> 1 + Occurrences(h, atoms, d, f) + Uses(Shape(h, v, d), f) <= SHARE_LIMIT
    {
      ResetCount(h, h1, h', atoms, k, v, d, f);
    }
  }

  /** One closure's count after a reset. */
  lemma {:induction false} ResetCount(h: Heap, h1: Heap, h': Heap, atoms: seq<nat>, k: nat, v: Slot, d: nat, f: nat)
    requires Sound(h, atoms, d) && Counted(h, atoms, d) && k < |atoms| && Acyclic(h, v, d) && Sound(h', atoms, d)
    requires Filled(h, h1, atoms[k], v, d) && OwnsContent(h, atoms[k], d) && OwnsContent(h', atoms[k], d)
    requires Shrank(h1, h', Held(h, atoms[k], d)) && UnsharedBy(h1, h', Reads(h, atoms[k], d))
    requires Reads(h', atoms[k], d) == Shape(h, v, d)
    requires forall i | 0 <= i < |atoms| && i != k :: Reads(h', atoms[i], d) == Reads(h, atoms[i], d)
    requires f in h.cells && h.cells[f].kind.FnKind?
    ensures f in h'.cells
    ensures CountedAt(h', atoms, d, f) <==> 1 + Occurrences(h, atoms, d, f) + Uses(Shape(h, v, d), f) <= SHARE_LIMIT
  {
    assert CountedAt(h, atoms, d, f);
    OccursAtLeast(h, atoms, k, d, f);
    OccurrencesUpdate(h, h', atoms, k, d, f);
    if f in Held(h, atoms[k], d) { NodesLive(h, Content(h, atoms[k]), d, f); }
  }

  /** Releasing the old content disturbs no value that shares nothing with it. */
  lemma {:induction false} ReleaseSpares(h1: Heap, was: Slot, v: Slot, d: nat)
    requires Acyclic(h1, was, d) && SolelyOwned(h1, Nodes(h1, was, d)) && HasOtherOwners(h1, Shape(h1, was, d))
    requires Acyclic(h1, v, d) && SolelyOwned(h1, Nodes(h1, v, d)) && ShareNothing(Nodes(h1, v, d), Nodes(h1, was, d))
    ensures
      var h' := Release(h1, was, d);
      Acyclic(h', v, d) && Shape(h', v, d) == Shape(h1, v, d) && Nodes(h', v, d) == Nodes(h1, v, d)
      && SolelyOwned(h', Nodes(h', v, d))
  {
    var h' := Release(h1, was, d);
    ReleaseFrees(h1, was, d);
    var gone := set x | x in Nodes(h1, was, d);
    forall x | x in gone ensures !h1.cells[x].kind.FnKind? { NodesLive(h1, was, d, x); }
    Frame(h1, h', v, d, gone);
    forall x | x in Nodes(h1, v, d) ensures x in h'.cells && h'.cells[x].rc == 1 { NodesLive(h1, v, d, x); }
  }

  /** An atom outlives the release: pinned objects are never part of a content. */
  lemma {:induction false} AtomStays(h1: Heap, was: Slot, a: nat, d: nat)
    requires Acyclic(h1, was, d) && SolelyOwned(h1, Nodes(h1, was, d)) && HasOtherOwners(h1, Shape(h1, was, d))
    requires IsAtom(h1, a)
    ensures IsAtom(Release(h1, was, d), a) && Content(Release(h1, was, d), a) == Content(h1, a)
  {
    ReleaseFrees(h1, was, d);
  }

  lemma {:induction false} AtomSurvives(h: Heap, atoms: seq<nat>, k: nat, v: Slot, d: nat, i: nat)
    requires Sound(h, atoms, d) && Counted(h, atoms, d) && k < |atoms| && Acyclic(h, v, d) && i < |atoms|
    ensures
      var h' := Reset(h, atoms[k], v, d);
      OwnsContent(h', atoms[i], d) && h'.next >= h.next
      && (i != k ==> Content(h', atoms[i]) == Content(h, atoms[i]) && Reads(h', atoms[i], d) == Reads(h, atoms[i], d)
                     && Held(h', atoms[i], d) == Held(h, atoms[i], d))
      && (i == k ==> Reads(h', atoms[k], d) == Shape(h, v, d) && Held(h', atoms[k], d) == Range(h.next, h'.next))
  {
    var h1, was := Stored(h, atoms[k], v, d), Content(h, atoms[k]);
    StoredKeeps(h, atoms, k, v, d);
    OldContentReleasable(h, atoms, k, v, d);
    OthersKeep(h, atoms, k, v, d, k);
    OthersKeep(h, atoms, k, v, d, i);
    ReleaseFrees(h1, was, d);
    assert OwnsContent(h, atoms[k], d) && OwnsContent(h, atoms[i], d);
    AtomStays(h1, was, atoms[i], d);
    assert i != k ==> ShareNothing(Held(h, atoms[i], d), Held(h, atoms[k], d));
    ReleaseSpares(h1, was, Content(h1, atoms[i]), d);
  }

  lemma {:induction false} HeldApart(h: Heap, h': Heap, atoms: seq<nat>, k: nat, d: nat)
    requires Sound(h, atoms, d) && k < |atoms| && h'.next >= h.next
    requires forall i | 0 <= i < |atoms| :: OwnsContent(h', atoms[i], d)
    requires forall i | 0 <= i < |atoms| && i != k :: Held(h', atoms[i], d) == Held(h, atoms[i], d)
    requires Held(h', atoms[k], d) == Range(h.next, h'.next)
    ensures forall i, j | 0 <= i < |atoms| && 0 <= j < |atoms| && i != j ::
              ShareNothing(Held(h', atoms[i], d), Held(h', atoms[j], d))
  {
    forall i, j | 0 <= i < |atoms| && 0 <= j < |atoms| && i != j
      ensures ShareNothing(Held(h', atoms[i], d), Held(h', atoms[j], d))
    {
      assert OwnsContent(h, atoms[i], d) && OwnsContent(h, atoms[j], d);
      assert ShareNothing(Held(h, atoms[i], d), Held(h, atoms[j], d));
    }
  }

  // ---------- Making atoms and values ----------

  /** An allocation that nothing refers to yet disturbs no atom. */
  lemma {:induction false} AllocateKeeps(h: Heap, atoms: seq<nat>, node: Node, d: nat)
    requires Sound(h, atoms, d)
    ensures
      var h1 := Allocate(h, node);
      Sound(h1, atoms, d)
      && (forall i | 0 <= i < |atoms| ::
            Content(h1, atoms[i]) == Content(h, atoms[i]) && Reads(h1, atoms[i], d) == Reads(h, atoms[i], d)
            && Held(h1, atoms[i], d) == Held(h, atoms[i], d))
      && forall f | f in h.cells :: Occurrences(h1, atoms, d, f) == Occurrences(h, atoms, d, f)
  {
    var h1 := Allocate(h, node);
    forall i | 0 <= i < |atoms|
      ensures OwnsContent(h1, atoms[i], d) && Content(h1, atoms[i]) == Content(h, atoms[i])
      ensures Reads(h1, atoms[i], d) == Reads(h, atoms[i], d) && Held(h1, atoms[i], d) == Held(h, atoms[i], d)
    {
      assert OwnsContent(h, atoms[i], d);
      Frame(h, h1, Content(h, atoms[i]), d, {});
    }
    forall i, j | 0 <= i < |atoms| && 0 <= j < |atoms| && i != j
      ensures ShareNothing(Held(h1, atoms[i], d), Held(h1, atoms[j], d))
    {
      assert ShareNothing(Held(h, atoms[i], d), Held(h, atoms[j], d));
    }
    forall f | f in h.cells ensures Occurrences(h1, atoms, d, f) == Occurrences(h, atoms, d, f) {
      SameOccurrences(h, h1, atoms, d, f);
    }
  }

  lemma {:induction false} NotYetUsed(h: Heap, atoms: seq<nat>, d: nat, f: nat)
    requires f !in h.cells && forall i | 0 <= i < |atoms| :: OwnsContent(h, atoms[i], d)
    ensures Occurrences(h, atoms, d, f) == 0
  {
    if atoms != [] {
      NotYetUsed(h, atoms[..|atoms| - 1], d, f);
      var last := atoms[|atoms| - 1];
      if Uses(Reads(h, last, d), f) > 0 { UsesLive(h, Content(h, last), d, f); }
    }
  }

  lemma {:induction false} BuildKeeps(h: Heap, atoms: seq<nat>, node: Node, d: nat)
    requires Sound(h, atoms, d) && Counted(h, atoms, d) && node.rc == 1
    ensures Sound(Allocate(h, node), atoms, d) && Counted(Allocate(h, node), atoms, d)
  {
    var h1 := Allocate(h, node);
    AllocateKeeps(h, atoms, node, d);
    forall f | f in h1.cells && h1.cells[f].kind.FnKind? ensures CountedAt(h1, atoms, d, f) && h1.cells[f].rc <= SHARE_LIMIT {
      if f == h.next {
        NotYetUsed(h, atoms, d, f);
        SameOccurrences(h, h1, atoms, d, f);
      } else {
        assert CountedAt(h, atoms, d, f);
      }
    }
  }

  lemma {:induction false} NewFill(h: Heap, v: Slot, d: nat)
    requires Bounded(h) && Acyclic(h, v, d)
    ensures
      var h', a := NewAtom(h, v, d), h.next;
      Bounded(h') && h'.next > h.next && h'.ok == h.ok && SameOutside(h, h', {}) && SharedBy(h, h', Shape(h, v, d))
      && OwnsContent(h', a, d) && Reads(h', a, d) == Shape(h, v, d) && Held(h', a, d) == Range(a + 1, h'.next)
      && (forall x :: x in h'.cells <==> x in h.cells || a <= x < h'.next)
      && forall x | x in h'.cells && x !in h.cells :: !h'.cells[x].kind.FnKind?
  {
    var h1 := Allocate(h, Node(VecKind, PINNED, "", []));
    Frame(h, h1, v, d, {});
    Fill(h1, h.next, Holding(Copy(h1, v, d).value), v, d);
  }

  /** A new atom is one whose content was never anything else. */
  lemma {:induction false} NewKeeps(h: Heap, atoms: seq<nat>, v: Slot, d: nat)
    requires Sound(h, atoms, d) && Counted(h, atoms, d) && Acyclic(h, v, d)
    ensures
      var h', a := NewAtom(h, v, d), h.next;
      Sound(h', atoms + [a], d) && h'.ok == h.ok && OldClosures(h, h')
      && OwnsContent(h', a, d) && Reads(h', a, d) == Shape(h, v, d) && Held(h', a, d) == Range(a + 1, h'.next)
      && (forall i | 0 <= i < |atoms| :: OwnsContent(h', atoms[i], d) && Reads(h', atoms[i], d) == Reads(h, atoms[i], d))
      && (forall x :: x in h'.cells <==> x in h.cells || a <= x < h'.next)
      && forall f | f in h.cells && h.cells[f].kind.FnKind? ::
           CountedAt(h', atoms + [a], d, f)
           <==> 1 + Occurrences(h, atoms, d, f) + Uses(Shape(h, v, d), f) <= SHARE_LIMIT
  {
    var a, h' := h.next, NewAtom(h, v, d);
    NewFill(h, v, d);
    OthersStay(h, h', atoms, d);
    NewApart(h, h', atoms, d);
    NewClosures(h, h', atoms, v, d);
    forall f | f in h.cells && h.cells[f].kind.FnKind?
      ensures CountedAt(h', atoms + [a], d, f) <==> 1 + Occurrences(h, atoms, d, f) + Uses(Shape(h, v, d), f) <= SHARE_LIMIT
    {
      NewCount(h, h', atoms, v, d, f);
    }
  }

  lemma {:induction false} OthersStay(h: Heap, h': Heap, atoms: seq<nat>, d: nat)
    requires Sound(h, atoms, d) && SameOutside(h, h', {})
    ensures forall i | 0 <= i < |atoms| ::
              OwnsContent(h', atoms[i], d) && Reads(h', atoms[i], d) == Reads(h, atoms[i], d)
              && Held(h', atoms[i], d) == Held(h, atoms[i], d)
  {
    forall i | 0 <= i < |atoms|
      ensures OwnsContent(h', atoms[i], d)
      ensures Reads(h', atoms[i], d) == Reads(h, atoms[i], d) && Held(h', atoms[i], d) == Held(h, atoms[i], d)
    {
      assert OwnsContent(h, atoms[i], d);
      OwnedStays(h, h', atoms[i], d);
    }
  }

  lemma {:induction false} NewClosures(h: Heap, h': Heap, atoms: seq<nat>, v: Slot, d: nat)
    requires Sound(h, atoms, d) && Counted(h, atoms, d) && Acyclic(h, v, d)
    requires SharedBy(h, h', Shape(h, v, d)) && SameOutside(h, h', {})
    requires forall x | x in h'.cells && x !in h.cells :: !h'.cells[x].kind.FnKind?
    ensures OldClosures(h, h')
  {
  }

  lemma {:induction false} OwnedStays(h: Heap, h': Heap, a: nat, d: nat)
    requires OwnsContent(h, a, d) && SameOutside(h, h', {})
    ensures OwnsContent(h', a, d) && Reads(h', a, d) == Reads(h, a, d) && Held(h', a, d) == Held(h, a, d)
  {
    Frame(h, h', Content(h, a), d, {});
    forall x | x in Held(h, a, d) ensures !h.cells[x].kind.FnKind? { NodesLive(h, Content(h, a), d, x); }
  }

  lemma {:induction false} NewCount(h: Heap, h': Heap, atoms: seq<nat>, v: Slot, d: nat, f: nat)
    requires Sound(h, atoms, d) && Counted(h, atoms, d) && Acyclic(h, v, d) && Sound(h', atoms + [h.next], d)
    requires f in h.cells && h.cells[f].kind.FnKind? && f in h'.cells && SharedBy(h, h', Shape(h, v, d))
    requires OwnsContent(h', h.next, d) && Reads(h', h.next, d) == Shape(h, v, d)
    requires forall i | 0 <= i < |atoms| :: OwnsContent(h', atoms[i], d) && Reads(h', atoms[i], d) == Reads(h, atoms[i], d)
    ensures CountedAt(h', atoms + [h.next], d, f)
            <==> 1 + Occurrences(h, atoms, d, f) + Uses(Shape(h, v, d), f) <= SHARE_LIMIT
  {
    assert CountedAt(h, atoms, d, f);
    SameOccurrences(h, h', atoms, d, f);
    assert (atoms + [h.next])[..|atoms|] == atoms;
  }

  lemma {:induction false} NewApart(h: Heap, h': Heap, atoms: seq<nat>, d: nat)
    requires Sound(h, atoms, d) && Bounded(h') && h'.next > h.next && OwnsContent(h', h.next, d)
    requires forall i | 0 <= i < |atoms| :: OwnsContent(h', atoms[i], d) && Held(h', atoms[i], d) == Held(h, atoms[i], d)
    requires Held(h', h.next, d) == Range(h.next + 1, h'.next)
    ensures Sound(h', atoms + [h.next], d)
  {
    var all := atoms + [h.next];
    forall i | 0 <= i < |atoms| ensures atoms[i] < h.next && ShareNothing(Held(h, atoms[i], d), Held(h', h.next, d)) {
      assert OwnsContent(h, atoms[i], d);
    }
    forall i, j | 0 <= i < |all| && 0 <= j < |all| && i != j
      ensures ShareNothing(Held(h', all[i], d), Held(h', all[j], d))
    {
      if i < |atoms| && j < |atoms| {
        assert ShareNothing(Held(h, atoms[i], d), Held(h, atoms[j], d));
      }
    }
  }

  // ---------- Whole runs ----------

  /** `handles` are the values the program got by reading atoms: the heap's own objects, not copies. */
  datatype Store = Store(heap: Heap, atoms: seq<nat>, handles: seq<Slot>)
  datatype Step = Build(node: Node) | New(v: Slot) | ResetTo(k: nat, v: Slot) | Deref(k: nat)

  /** What the caller sees to: the value is well-founded, and no closure passes the limit. */
  ghost predicate Allowed(s: Store, step: Step, d: nat)
    requires Sound(s.heap, s.atoms, d)
  {
    match step
    case Build(node) => node.rc == 1
    case New(v) => Acyclic(s.heap, v, d) && BelowLimit(s, v, d)
    case ResetTo(k, v) => k < |s.atoms| && Acyclic(s.heap, v, d) && BelowLimit(s, v, d)
    case Deref(k) => k < |s.atoms|
  }

  ghost predicate BelowLimit(s: Store, v: Slot, d: nat)
    requires Sound(s.heap, s.atoms, d) && Acyclic(s.heap, v, d)
  {
    forall f | f in s.heap.cells && s.heap.cells[f].kind.FnKind? ::
      1 + Occurrences(s.heap, s.atoms, d, f) + Uses(Shape(s.heap, v, d), f) <= SHARE_LIMIT
  }

  function Apply(s: Store, step: Step, d: nat): Store {
    match step
    case Build(node) => s.(heap := Allocate(s.heap, node))
    case New(v) => s.(heap := NewAtom(s.heap, v, d), atoms := s.atoms + [s.heap.next])
    case ResetTo(k, v) =>
      if k < |s.atoms| && IsAtom(s.heap, s.atoms[k]) then s.(heap := Reset(s.heap, s.atoms[k], v, d)) else s
    case Deref(k) =>
      if k < |s.atoms| && IsAtom(s.heap, s.atoms[k]) then s.(handles := s.handles + [Content(s.heap, s.atoms[k])]) else s
  }

  ghost predicate Good(s: Store, d: nat) {
    Sound(s.heap, s.atoms, d) && Counted(s.heap, s.atoms, d) && s.heap.ok
  }

  lemma {:induction false} StepKeeps(s: Store, step: Step, d: nat)
    requires Good(s, d) && Allowed(s, step, d)
    ensures Good(Apply(s, step, d), d)
  {
    match step {
      case Build(node) => BuildKeeps(s.heap, s.atoms, node, d);
      case New(v) =>
        NewKeeps(s.heap, s.atoms, v, d);
      case ResetTo(k, v) =>
        ResetKeeps(s.heap, s.atoms, k, v, d);
      case Deref(_) =>
    }
  }

  ghost predicate AllAllowed(s: Store, steps: seq<Step>, d: nat)
    decreases |steps|
  {
    steps == []
    || (Sound(s.heap, s.atoms, d) && Allowed(s, steps[0], d) && AllAllowed(Apply(s, steps[0], d), steps[1..], d))
  }

  function Run(s: Store, steps: seq<Step>, d: nat): Store
    decreases |steps|
  {
    if steps == [] then s else Run(Apply(s, steps[0], d), steps[1..], d)
  }

  /** In every run over values at most d containers deep, for any d. */
  lemma {:induction false} RunsKeep(s: Store, steps: seq<Step>, d: nat)
    requires Good(s, d) && AllAllowed(s, steps, d)
    ensures Good(Run(s, steps, d), d)
    decreases |steps|
  {
    if steps != [] {
      StepKeeps(s, steps[0], d);
      RunsKeep(Apply(s, steps[0], d), steps[1..], d);
    }
  }

  // ---------- The runtime's own operations ----------

  method AtomNew(rt: RcHeap, v: Slot, ghost d: nat) returns (a: nat)
    requires Bounded(rt.Abs()) && Acyclic(rt.Abs(), v, d)
    modifies rt
    ensures a == old(rt.next) && rt.Abs() == NewAtom(old(rt.Abs()), v, d)
  {
    Frame(rt.Abs(), Allocate(rt.Abs(), Node(VecKind, PINNED, "", [])), v, d, {});
    a := rt.NewNode(Node(VecKind, PINNED, "", []));
    var x := rt.CopyValue(v, d);
    rt.cells := rt.cells[a := Holding(x)];
  }

  method AtomReset(rt: RcHeap, a: nat, v: Slot, ghost atoms: seq<nat>, ghost d: nat) returns (r: Slot)
    requires Sound(rt.Abs(), atoms, d) && Counted(rt.Abs(), atoms, d) && a in atoms && Acyclic(rt.Abs(), v, d)
    modifies rt
    ensures rt.Abs() == Reset(old(rt.Abs()), a, v, d) && IsAtom(rt.Abs(), a) && r == Content(rt.Abs(), a)
  {
    ghost var k :| 0 <= k < |atoms| && atoms[k] == a;
    ghost var h := rt.Abs();
    StoredKeeps(h, atoms, k, v, d);
    OthersKeep(h, atoms, k, v, d, k);
    OldContentReleasable(h, atoms, k, v, d);
    ResetKeeps(h, atoms, k, v, d);
    assert OwnsContent(h, a, d) && OwnsContent(Reset(h, a, v, d), atoms[k], d);
    var was := rt.cells[a].items[0];
    CopyIsCopy(h, v, d);
    var x := rt.CopyValue(v, d);
    rt.cells := rt.cells[a := rt.cells[a].(items := [x])];
    assert rt.Abs() == Stored(h, a, v, d);
    rt.ReleaseValue(was, d);
    r := rt.cells[a].items[0];
  }
}
