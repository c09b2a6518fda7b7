/** How long a value read from an atom stays what it was: `fl_atom_deref` hands out the atom's own objects, and the
    next reset of that atom frees them. */
module AtomHandles {
  import opened AtomHeap
  import opened Atoms

  /** `v` is there and reads as `t`. */
  ghost predicate ReadsAs(h: Heap, v: Slot, d: nat, t: Tree) {
    Acyclic(h, v, d) && Shape(h, v, d) == t
  }

  // ---------- One step ----------

  /** What is left of the old heap is as it was, but for atom a. */
  ghost predicate KeptBut(h: Heap, h': Heap, a: nat) {
    forall x | x in h.cells && x in h'.cells && x != a :: Alike(h.cells[x], h'.cells[x])
  }

  /** A value that is readable before and after consists of the same objects. */
  lemma {:induction false} SameNodes(h: Heap, h': Heap, w: Slot, d: nat, a: nat)
    requires KeptBut(h, h', a) && Acyclic(h, w, d) && Acyclic(h', w, d) && a !in Nodes(h, w, d)
    requires a in h.cells && !h.cells[a].kind.FnKind?
    ensures Nodes(h', w, d) == Nodes(h, w, d)
    decreases d, 0
  {
    if w.Ref? {
      assert w.addr in Nodes(h, w, d) || h.cells[w.addr].kind.FnKind?;
      assert Alike(h.cells[w.addr], h'.cells[w.addr]);
      var node := h.cells[w.addr];
      if !IsLeaf(node.kind) {
        assert forall x | x in NodesAll(h, node.items, d - 1) :: x in Nodes(h, w, d);
        SameNodesAll(h, h', node.items, d - 1, a);
      }
    }
  }

  lemma {:induction false} SameNodesAll(h: Heap, h': Heap, ws: seq<Slot>, d: nat, a: nat)
    requires KeptBut(h, h', a) && AcyclicAll(h, ws, d) && AcyclicAll(h', ws, d) && a !in NodesAll(h, ws, d)
    requires a in h.cells && !h.cells[a].kind.FnKind?
    ensures NodesAll(h', ws, d) == NodesAll(h, ws, d)
    decreases d, |ws|
  {
    if ws != [] {
      SameNodes(h, h', ws[0], d, a);
      SameNodesAll(h, h', ws[1..], d, a);
    }
  }

  /** What a reset does to the objects that were there. */
  lemma {:induction false} ResetCells(h: Heap, atoms: seq<nat>, k: nat, v: Slot, d: nat)
    requires Sound(h, atoms, d) && Counted(h, atoms, d) && k < |atoms| && Acyclic(h, v, d)
    ensures
      var a, h' := atoms[k], Reset(h, atoms[k], v, d);
      KeptBut(h, h', a) && a !in Held(h, a, d)
      && (forall x | x in h.cells :: x in h'.cells <==> x !in Held(h, a, d))
      && forall x | x in Held(h, a, d) :: x in h.cells && !h.cells[x].kind.FnKind?
  {
    var a, h1, was := atoms[k], Stored(h, atoms[k], v, d), Content(h, atoms[k]);
    assert OwnsContent(h, a, d);
    StoredKeeps(h, atoms, k, v, d);
    OldContentReleasable(h, atoms, k, v, d);
    OthersKeep(h, atoms, k, v, d, k);
    ReleaseFrees(h1, was, d);
    forall x | x in Held(h, a, d) ensures x in h.cells && !h.cells[x].kind.FnKind? {
      NodesLive(h, was, d, x);
    }
  }

  /** A value not read through the atom itself survives a reset if and only if it shares nothing with the content that
      goes. */
  lemma {:induction false} SurvivesExactly(h: Heap, atoms: seq<nat>, k: nat, v: Slot, d: nat, w: Slot)
    requires Sound(h, atoms, d) && Counted(h, atoms, d) && k < |atoms| && Acyclic(h, v, d)
    requires Acyclic(h, w, d) && atoms[k] !in Nodes(h, w, d)
    ensures ReadsAs(Reset(h, atoms[k], v, d), w, d, Shape(h, w, d)) <==> ShareNothing(Nodes(h, w, d), Held(h, atoms[k], d))
  {
    var a, h' := atoms[k], Reset(h, atoms[k], v, d);
    assert OwnsContent(h, a, d);
    ResetCells(h, atoms, k, v, d);
    if ShareNothing(Nodes(h, w, d), Held(h, a, d)) {
      var skip := {a} + set x | x in Held(h, a, d);
      assert !h.cells[a].kind.FnKind?;
      Frame(h, h', w, d, skip);
    } else if Acyclic(h', w, d) {
      SameNodes(h, h', w, d, a);
      var x :| x in Nodes(h, w, d) && x in Held(h, a, d);
      NodesLive(h', w, d, x);
    }
  }

  /** What `fl_atom_deref` returned before a reset of the same atom is still there if and only if it is no string,
      vector or map. */
  lemma {:induction false} OldContentReadable(h: Heap, atoms: seq<nat>, k: nat, v: Slot, d: nat)
    requires Sound(h, atoms, d) && Counted(h, atoms, d) && k < |atoms| && Acyclic(h, v, d)
    ensures var a := atoms[k];
            OwnsContent(h, a, d)
            && (ReadsAs(Reset(h, a, v, d), Content(h, a), d, Reads(h, a, d)) <==> Held(h, a, d) == [])
  {
    var a := atoms[k];
    assert OwnsContent(h, a, d);
    ResetCells(h, atoms, k, v, d);
    SurvivesExactly(h, atoms, k, v, d, Content(h, a));
    if Held(h, a, d) != [] {
      assert Held(h, a, d)[0] in Held(h, a, d);
    }
  }

  /** The compiler's own `cgc_defn` reads an atom, lets it be reset, and resets it to what it had read: that uses a
      freed object if and only if the atom held a string, a vector or a map. */
  lemma {:induction false} SavedThenRestored(s: Store, k: nat, v: Slot, d: nat)
    requires Good(s, d) && Allowed(s, ResetTo(k, v), d)
    ensures OwnsContent(s.heap, s.atoms[k], d)
            && (Run(s, [ResetTo(k, v), ResetTo(k, Content(s.heap, s.atoms[k]))], d).heap.ok <==> Held(s.heap, s.atoms[k], d) == [])
  {
    var h, a := s.heap, s.atoms[k];
    var s1 := Apply(s, ResetTo(k, v), d);
    var h1, was := s1.heap, Content(h, a);
    assert OwnsContent(h, a, d);
    StepKeeps(s, ResetTo(k, v), d);
    assert OwnsContent(h1, s1.atoms[k], d);
    OldContentReadable(h, s.atoms, k, v, d);
    if Held(h, a, d) == [] {
      ResetKeeps(h1, s1.atoms, k, was, d);
    } else {
      FirstOfNodes(h, was, d);
      ResetCells(h, s.atoms, k, v, d);
      assert Held(h, a, d)[0] in Held(h, a, d);
      ReleaseStaysBad(Put(Bad(h1), a, h1.cells[a].(items := [was])), Content(h1, a), d);
    }
    RunTwo(s, ResetTo(k, v), ResetTo(k, was), d);
  }

  lemma {:induction false} RunTwo(s: Store, first: Step, second: Step, d: nat)
    ensures Run(s, [first, second], d) == Apply(Apply(s, first, d), second, d)
  {
    assert [first, second][1..] == [second];
    assert Run(Apply(s, first, d), [second], d) == Run(Apply(Apply(s, first, d), second, d), [], d);
  }

  lemma {:induction false} FirstOfNodes(h: Heap, v: Slot, d: nat)
    requires Acyclic(h, v, d) && Nodes(h, v, d) != []
    ensures v.Ref? && Nodes(h, v, d)[0] == v.addr
  {
  }

  lemma {:induction false} ReleaseStaysBad(h: Heap, v: Slot, d: nat)
    requires !h.ok
    ensures !Release(h, v, d).ok
    decreases d, 0
  {
    if v.Ref? && v.addr in h.cells {
      var node := h.cells[v.addr];
      if node.rc == 1 && !IsLeaf(node.kind) && d > 0 {
        ReleaseAllStaysBad(Put(h, v.addr, node.(rc := 0)), node.items, d - 1);
      }
    }
  }

  lemma {:induction false} ReleaseAllStaysBad(h: Heap, vs: seq<Slot>, d: nat)
    requires !h.ok
    ensures !ReleaseAll(h, vs, d).ok
    decreases d, |vs|
  {
    if vs != [] {
      ReleaseStaysBad(h, vs[0], d);
      ReleaseAllStaysBad(Release(h, vs[0], d), vs[1..], d);
    }
  }

  // ---------- Whole runs ----------

  /** Some step resets the k-th atom. */
  predicate Resets(steps: seq<Step>, k: nat) {
    exists i :: 0 <= i < |steps| && steps[i].ResetTo? && steps[i].k == k
  }

  /** The object of `v` is gone for good. */
  ghost predicate Gone(h: Heap, v: Slot) {
    v.Ref? && v.addr < h.next && v.addr !in h.cells
  }

  /** A closure or a scalar. */
  ghost predicate Immortal(h: Heap, v: Slot) {
    v.Ref? ==> v.addr in h.cells && h.cells[v.addr].kind.FnKind?
  }

  lemma {:induction false} StepFacts(s: Store, step: Step, d: nat, v: Slot)
    requires Good(s, d) && Allowed(s, step, d)
    ensures Gone(s.heap, v) ==> Gone(Apply(s, step, d).heap, v)
    ensures Immortal(s.heap, v) ==> Immortal(Apply(s, step, d).heap, v)
    ensures |s.atoms| <= |Apply(s, step, d).atoms| && forall i | 0 <= i < |s.atoms| :: Apply(s, step, d).atoms[i] == s.atoms[i]
  {
    match step
    case Build(_) =>
    case New(w) =>
      NewFill(s.heap, w, d);
    case ResetTo(k, w) =>
      assert OwnsContent(s.heap, s.atoms[k], d);
      ResetKeeps(s.heap, s.atoms, k, w, d);
      ResetCells(s.heap, s.atoms, k, w, d);
      assert Immortal(s.heap, v) && v.Ref? && v.addr == s.atoms[k] ==> false;
    case Deref(_) =>
  }

  /** A step that does not reset the atom leaves its content alone. */
  lemma {:induction false} StepSpares(s: Store, step: Step, d: nat, k: nat)
    requires Good(s, d) && Allowed(s, step, d) && k < |s.atoms| && !(step.ResetTo? && step.k == k)
    ensures var s' := Apply(s, step, d);
            k < |s'.atoms| && s'.atoms[k] == s.atoms[k] && OwnsContent(s.heap, s.atoms[k], d) && OwnsContent(s'.heap, s.atoms[k], d)
            && Content(s'.heap, s.atoms[k]) == Content(s.heap, s.atoms[k])
            && Reads(s'.heap, s.atoms[k], d) == Reads(s.heap, s.atoms[k], d) && Held(s'.heap, s.atoms[k], d) == Held(s.heap, s.atoms[k], d)
  {
    assert OwnsContent(s.heap, s.atoms[k], d);
    match step
    case Build(node) =>
      AllocateKeeps(s.heap, s.atoms, node, d);
    case New(w) =>
      NewFill(s.heap, w, d);
      OthersStay(s.heap, NewAtom(s.heap, w, d), s.atoms, d);
    case ResetTo(j, w) =>
      AtomSurvives(s.heap, s.atoms, j, w, d, k);
    case Deref(_) =>
  }

  lemma {:induction false} GoneForGood(s: Store, steps: seq<Step>, d: nat, v: Slot)
    requires Good(s, d) && AllAllowed(s, steps, d)
    ensures Gone(s.heap, v) ==> Gone(Run(s, steps, d).heap, v)
    ensures Immortal(s.heap, v) ==> Immortal(Run(s, steps, d).heap, v)
    decreases |steps|
  {
    if steps != [] {
      StepFacts(s, steps[0], d, v);
      StepKeeps(s, steps[0], d);
      GoneForGood(Apply(s, steps[0], d), steps[1..], d, v);
    }
  }

  lemma {:induction false} ResetsCons(steps: seq<Step>, k: nat)
    requires steps != []
    ensures Resets(steps, k) <==> (steps[0].ResetTo? && steps[0].k == k) || Resets(steps[1..], k)
  {
    if i :| 0 <= i < |steps| && steps[i].ResetTo? && steps[i].k == k {
      assert i > 0 ==> steps[1..][i - 1] == steps[i];
    }
    if Resets(steps[1..], k) {
      var i :| 0 <= i < |steps[1..]| && steps[1..][i].ResetTo? && steps[1..][i].k == k;
      assert steps[i + 1] == steps[1..][i];
    }
  }

  /** What was read from an atom keeps reading the same, whatever the program does, if and only if the atom is not
      reset, or held a closure or a scalar. */
  lemma {:induction false} ContentLasts(s: Store, steps: seq<Step>, k: nat, d: nat)
    requires Good(s, d) && AllAllowed(s, steps, d) && k < |s.atoms|
    ensures OwnsContent(s.heap, s.atoms[k], d)
            && (ReadsAs(Run(s, steps, d).heap, Content(s.heap, s.atoms[k]), d, Reads(s.heap, s.atoms[k], d))
                <==> !Resets(steps, k) || Held(s.heap, s.atoms[k], d) == [])
    decreases |steps|
  {
    var a := s.atoms[k];
    assert OwnsContent(s.heap, a, d);
    if steps != [] {
      var v, s1 := Content(s.heap, a), Apply(s, steps[0], d);
      ResetsCons(steps, k);
      StepKeeps(s, steps[0], d);
      if steps[0].ResetTo? && steps[0].k == k {
        ResetCells(s.heap, s.atoms, k, steps[0].v, d);
        ResetKeeps(s.heap, s.atoms, k, steps[0].v, d);
        if Held(s.heap, a, d) == [] {
          StepFacts(s, steps[0], d, v);
        } else {
          FirstOfNodes(s.heap, v, d);
          assert Held(s.heap, a, d)[0] in Held(s.heap, a, d);
        }
        GoneForGood(s1, steps[1..], d, v);
      } else {
        StepSpares(s, steps[0], d, k);
        ContentLasts(s1, steps[1..], k, d);
      }
    }
  }

  /** The same of a run that reads the atom on the way: the handle is what `fl_atom_deref` returned. */
  lemma {:induction false} HandleLasts(s: Store, k: nat, steps: seq<Step>, d: nat)
    requires Good(s, d) && AllAllowed(s, [Deref(k)] + steps, d)
    ensures k < |s.atoms| && OwnsContent(s.heap, s.atoms[k], d)
            && var t, i := Run(s, [Deref(k)] + steps, d), |s.handles|;
               i < |t.handles|
               && (ReadsAs(t.heap, t.handles[i], d, Reads(s.heap, s.atoms[k], d))
                   <==> !Resets(steps, k) || Held(s.heap, s.atoms[k], d) == [])
  {
    var all := [Deref(k)] + steps;
    assert all[0] == Deref(k) && all[1..] == steps;
    assert OwnsContent(s.heap, s.atoms[k], d);
    var s1 := Apply(s, Deref(k), d);
    StepKeeps(s, Deref(k), d);
    HandlesStay(s1, steps, d);
    ContentLasts(s1, steps, k, d);
  }

  lemma {:induction false} HandlesStay(s: Store, steps: seq<Step>, d: nat)
    ensures |s.handles| <= |Run(s, steps, d).handles| && forall i | 0 <= i < |s.handles| :: Run(s, steps, d).handles[i] == s.handles[i]
    decreases |steps|
  {
    if steps != [] {
      HandlesStay(Apply(s, steps[0], d), steps[1..], d);
    }
  }
}
