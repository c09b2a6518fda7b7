/** The socket registry of runtime/net.c: generations, guards, and closing a descriptor exactly once. Each
    step below is one stretch of code run under the registry's mutex, or one system call. */
module NetRegistry {
  import opened Wrappers

  datatype EntryState = Open | Closing | Closed

  datatype Entry = Entry(fd: nat, gen: nat, state: EntryState, refs: nat, claimed: bool)

  /** What the list is searched for. */
  datatype Want = OpenFd(fd: nat) | LiveFd(fd: nat) | Gen(gen: nat)

  predicate Hit(e: Entry, w: Want) {
    match w
    case OpenFd(fd) => e.fd == fd && e.state.Open?
    case LiveFd(fd) => e.fd == fd && (e.state.Open? || e.state.Closing?)
    case Gen(gen) => e.gen == gen
  }

  /** The first match, or the length of the list. */
  function First(es: seq<Entry>, w: Want): (i: nat)
    ensures i <= |es| && (i < |es| ==> Hit(es[i], w))
    ensures forall j | 0 <= j < i :: !Hit(es[j], w)
  {
    if es == [] || Hit(es[0], w) then 0 else 1 + First(es[1..], w)
  }

  function At(es: seq<Entry>, gen: nat): nat {
    First(es, Gen(gen))
  }

  // ---------- What each operation does to the list ----------

  function Registered(es: seq<Entry>, fd: nat, gen: nat): seq<Entry> {
    [Entry(fd, gen, Open, 1, false)] + es
  }

  function Guarded(es: seq<Entry>, i: nat): seq<Entry>
    requires i < |es|
  {
    es[i := es[i].(refs := es[i].refs + 1)]
  }

  function LessRef(e: Entry): Entry {
    if e.refs > 0 then e.(refs := e.refs - 1) else e
  }

  /** An entry leaves the list once it is closed and unreferenced. */
  function Reaped(es: seq<Entry>, i: nat): seq<Entry>
    requires i < |es|
  {
    if es[i].state.Closed? && es[i].refs == 0 then es[..i] + es[i + 1..] else es
  }

  function Unguarded(es: seq<Entry>, i: nat): seq<Entry>
    requires i < |es|
  {
    Reaped(es[i := LessRef(es[i])], i)
  }

  function ClaimedAt(es: seq<Entry>, i: nat): seq<Entry>
    requires i < |es|
  {
    es[i := es[i].(claimed := true, state := Closing)]
  }

  function Finished(es: seq<Entry>, i: nat): seq<Entry>
    requires i < |es|
  {
    Reaped(es[i := LessRef(es[i].(state := Closed))], i)
  }

  // ---------- The protocol ----------

  datatype Phase = Waiting | AboutToClose | OsClosed

  /** A thread inside the close routine, past its claim. */
  datatype Closer = Closer(fd: nat, phase: Phase)

  /** One close call and the generation it hit (0: a descriptor not yet registered). */
  datatype CloseCall = CloseCall(gen: nat, hit: Option<nat>)

  /** `kernel` says which generation owns each open descriptor; `guards` the references threads hold; `strays` the
      descriptors that threads are about to close because the registry had no entry for them. */
  datatype State = State(entries: seq<Entry>, nextGen: nat, guards: multiset<nat>, closers: map<nat, Closer>,
                         strays: multiset<nat>, kernel: map<nat, nat>, calls: seq<CloseCall>)

  const INITIAL := State([], 0, multiset{}, map[], multiset{}, map[], [])

  datatype Step =
    | KernelOpen(fd: nat)
    | Register(fd: nat)
    | Acquire(fd: nat)
    | Release(gen: nat)
    | Claim(fd: nat)
    | Wake(gen: nat)
    | OsClose(gen: nat)
    | Finish(gen: nat)
    | StrayClose(fd: nat)

  /** The kernel hands out only descriptors that are not open; a thread registers a descriptor it was given;
      it releases guards it holds. */
  ghost predicate Enabled(s: State, step: Step) {
    match step
    case KernelOpen(fd) => fd !in s.kernel
    case Register(fd) => fd in s.kernel && s.kernel[fd] == 0
    case Acquire(_) => true
    case Release(gen) => s.guards[gen] > 0
    case Claim(_) => true
    case Wake(gen) =>
      gen in s.closers && s.closers[gen].phase.Waiting?
      && var i := At(s.entries, gen); i < |s.entries| && s.entries[i].refs <= 1
    case OsClose(gen) => gen in s.closers && s.closers[gen].phase.AboutToClose?
    case Finish(gen) => gen in s.closers && s.closers[gen].phase.OsClosed?
    case StrayClose(fd) => s.strays[fd] > 0
  }

  /** A close of a descriptor that was not in the registry when it was looked up hits none that is registered by now:
      each step of such a run is called tame. */
  ghost predicate Tame(s: State, step: Step) {
    Enabled(s, step) && (step.StrayClose? ==> step.fd !in s.kernel || s.kernel[step.fd] == 0)
  }

  function OnKernel(kernel: map<nat, nat>, fd: nat): Option<nat> {
    if fd in kernel then Some(kernel[fd]) else None
  }

  function Next(s: State, step: Step): State {
    match step
    case KernelOpen(fd) => s.(kernel := s.kernel[fd := 0])
    case Register(fd) =>
      var gen := s.nextGen + 1;
      s.(entries := Registered(s.entries, fd, gen), nextGen := gen, kernel := s.kernel[fd := gen])
    case Acquire(fd) =>
      var i := First(s.entries, OpenFd(fd));
      if i == |s.entries| then s
      else s.(entries := Guarded(s.entries, i), guards := s.guards + multiset{s.entries[i].gen})
    case Release(gen) =>
      var i := At(s.entries, gen);
      if i == |s.entries| then s
      else s.(entries := Unguarded(s.entries, i), guards := s.guards - multiset{gen})
    case Claim(fd) =>
      var i := First(s.entries, LiveFd(fd));
      if i == |s.entries| then s.(strays := s.strays + multiset{fd})
      else if s.entries[i].claimed then s
      else s.(entries := ClaimedAt(s.entries, i), closers := s.closers[s.entries[i].gen := Closer(fd, Waiting)])
    case Wake(gen) =>
      if gen !in s.closers then s else s.(closers := s.closers[gen := Closer(s.closers[gen].fd, AboutToClose)])
    case OsClose(gen) =>
      if gen !in s.closers then s
      else
        var fd := s.closers[gen].fd;
        s.(kernel := s.kernel - {fd}, closers := s.closers[gen := Closer(fd, OsClosed)],
           calls := s.calls + [CloseCall(gen, OnKernel(s.kernel, fd))])
    case Finish(gen) =>
      var i := At(s.entries, gen);
      if i == |s.entries| then s
      else s.(entries := Finished(s.entries, i), closers := s.closers - {gen})
    case StrayClose(fd) => s.(kernel := s.kernel - {fd}, strays := s.strays - multiset{fd})
  }

  // ---------- What every interleaving keeps ----------

  ghost predicate Decreasing(es: seq<Entry>, top: nat) {
    (forall i | 0 <= i < |es| :: 0 < es[i].gen <= top)
    && forall i, j | 0 <= i < j < |es| :: es[i].gen > es[j].gen
  }

  /** One entry against the threads and the kernel. */
  ghost predicate EntryOk(s: State, e: Entry) {
    e.refs == s.guards[e.gen] + 1
    && (e.state.Open? || e.state.Closing?)
    && (e.claimed <==> e.state.Closing?) && (e.claimed <==> e.gen in s.closers)
    && (e.gen in s.closers ==> s.closers[e.gen].fd == e.fd && (s.closers[e.gen].phase.Waiting? || s.guards[e.gen] == 0))
    && (OwnsDescriptor(s, e) <==> !(e.gen in s.closers && s.closers[e.gen].phase.OsClosed?))
  }

  ghost predicate OwnsDescriptor(s: State, e: Entry) {
    e.fd in s.kernel && s.kernel[e.fd] == e.gen
  }

  ghost predicate Listed(s: State, gen: nat) {
    At(s.entries, gen) < |s.entries|
  }

  /** A generation still listed is in order; of one that is gone no guard and no closer is left. */
  ghost predicate GenOk(s: State, gen: nat) {
    if Listed(s, gen) then EntryOk(s, s.entries[At(s.entries, gen)])
    else s.guards[gen] == 0 && gen !in s.closers
  }

  /** The owner of an open descriptor is still listed under it. */
  ghost predicate KernelOk(s: State, fd: nat) {
    fd in s.kernel && s.kernel[fd] > 0 ==>
      Listed(s, s.kernel[fd]) && s.entries[At(s.entries, s.kernel[fd])].fd == fd
  }

  /** A close call hit its own generation, which afterwards is either gone or being finished. */
  ghost predicate CallOk(s: State, c: CloseCall) {
    c.hit == Some(c.gen) && 0 < c.gen <= s.nextGen
    && (Listed(s, c.gen) ==> c.gen in s.closers && s.closers[c.gen].phase.OsClosed?)
  }

  ghost predicate CallsOk(s: State) {
    (forall k | 0 <= k < |s.calls| :: CallOk(s, s.calls[k]))
    && forall j, k | 0 <= j < k < |s.calls| :: s.calls[j].gen != s.calls[k].gen
  }

  /** Of two entries under one descriptor, the older has given it back. */
  ghost predicate OlderDone(s: State, newer: Entry, older: Entry) {
    newer.fd == older.fd ==> older.gen in s.closers && s.closers[older.gen].phase.OsClosed?
  }

  ghost predicate NewestOwns(s: State) {
    forall i, j | 0 <= i < j < |s.entries| :: OlderDone(s, s.entries[i], s.entries[j])
  }

  ghost predicate Inv(s: State) {
    Decreasing(s.entries, s.nextGen) && NewestOwns(s)
    && (forall g :: GenOk(s, g)) && (forall fd :: KernelOk(s, fd)) && CallsOk(s)
  }

  /** The list holds at most one entry of a generation, and it is where the search finds it. */
  lemma {:induction false} GenAt(es: seq<Entry>, top: nat, i: nat)
    requires Decreasing(es, top) && i < |es|
    ensures At(es, es[i].gen) == i
  {
  }

  /** Same generations in the same places: searches by generation agree. */
  lemma {:induction false} SameGens(es: seq<Entry>, es': seq<Entry>, gen: nat)
    requires |es| == |es'| && forall i | 0 <= i < |es| :: es'[i].gen == es[i].gen
    ensures At(es', gen) == At(es, gen)
  {
    if es != [] && es[0].gen != gen {
      SameGens(es[1..], es'[1..], gen);
    }
  }

  /** A step that changes at most entry i's count and state, and its generation's guards and closer. */
  lemma {:induction false} OneEntry(s: State, t: State, i: nat)
    requires Inv(s) && t.nextGen == s.nextGen && t.kernel == s.kernel && t.calls == s.calls
    requires i < |s.entries| == |t.entries| && t.entries == s.entries[i := t.entries[i]]
    requires t.entries[i].gen == s.entries[i].gen && t.entries[i].fd == s.entries[i].fd && EntryOk(t, t.entries[i])
    requires forall g | g != s.entries[i].gen ::
               t.guards[g] == s.guards[g] && (g in t.closers <==> g in s.closers) && (g in s.closers ==> t.closers[g] == s.closers[g])
    requires
      var g := s.entries[i].gen;
      g in s.closers && s.closers[g].phase.OsClosed? ==> g in t.closers && t.closers[g].phase.OsClosed?
    ensures Inv(t)
  {
    GenAt(s.entries, s.nextGen, i);
    forall g ensures At(t.entries, g) == At(s.entries, g) {
      SameGens(s.entries, t.entries, g);
    }
    OlderKept(s, t);
    forall g ensures GenOk(t, g) {
      OneEntryGenOk(s, t, i, g);
    }
    forall fd ensures KernelOk(t, fd) {
      assert KernelOk(s, fd);
    }
    CallsKept(s, t);
  }

  /** Whoever has closed in s has closed in t. */
  ghost predicate StillClosed(s: State, t: State) {
    forall g | g in s.closers && s.closers[g].phase.OsClosed? :: g in t.closers && t.closers[g].phase.OsClosed?
  }

  lemma {:induction false} OlderKept(s: State, t: State)
    requires NewestOwns(s) && StillClosed(s, t) && |s.entries| == |t.entries|
    requires forall i | 0 <= i < |s.entries| :: t.entries[i].fd == s.entries[i].fd && t.entries[i].gen == s.entries[i].gen
    ensures NewestOwns(t)
  {
    forall a, b | 0 <= a < b < |t.entries| ensures OlderDone(t, t.entries[a], t.entries[b]) {
      assert OlderDone(s, s.entries[a], s.entries[b]);
    }
  }

  lemma {:induction false} CallsKept(s: State, t: State)
    requires CallsOk(s) && StillClosed(s, t) && t.calls == s.calls && t.nextGen == s.nextGen
    requires forall g | Listed(t, g) :: Listed(s, g)
    ensures CallsOk(t)
  {
    forall k | 0 <= k < |t.calls| ensures CallOk(t, t.calls[k]) {
      assert CallOk(s, s.calls[k]);
    }
  }

  lemma {:induction false} OneEntryGenOk(s: State, t: State, i: nat, g: nat)
    requires Inv(s) && t.nextGen == s.nextGen && t.kernel == s.kernel
    requires i < |s.entries| == |t.entries| && t.entries == s.entries[i := t.entries[i]]
    requires t.entries[i].gen == s.entries[i].gen && EntryOk(t, t.entries[i])
    requires g != s.entries[i].gen ==>
               t.guards[g] == s.guards[g] && (g in t.closers <==> g in s.closers) && (g in s.closers ==> t.closers[g] == s.closers[g])
    requires At(t.entries, g) == At(s.entries, g)
    ensures GenOk(t, g)
  {
    assert GenOk(s, g);
    GenAt(s.entries, s.nextGen, i);
  }

  lemma {:induction false} KernelOpenKeeps(s: State, fd: nat)
    requires Inv(s) && Enabled(s, KernelOpen(fd))
    ensures Inv(Next(s, KernelOpen(fd)))
  {
    var t := Next(s, KernelOpen(fd));
    forall i, j | 0 <= i < j < |t.entries| ensures OlderDone(t, t.entries[i], t.entries[j]) {
      assert OlderDone(s, s.entries[i], s.entries[j]);
    }
    forall g ensures GenOk(t, g) {
      assert GenOk(s, g);
    }
    forall d ensures KernelOk(t, d) {
      assert KernelOk(s, d);
    }
    forall k | 0 <= k < |t.calls| ensures CallOk(t, t.calls[k]) {
      assert CallOk(s, s.calls[k]);
    }
  }

  lemma {:induction false} RegisteredDecreasing(es: seq<Entry>, top: nat, fd: nat)
    requires Decreasing(es, top)
    ensures Decreasing(Registered(es, fd, top + 1), top + 1)
  {
  }

  /** Older entries of a descriptor that is registered anew have given it back: the kernel owned it alone. */
  lemma {:induction false} RegisterOlderDone(s: State, fd: nat)
    requires Inv(s) && Enabled(s, Register(fd))
    ensures NewestOwns(Next(s, Register(fd)))
  {
    var t := Next(s, Register(fd));
    forall a, b | 0 <= a < b < |t.entries| ensures OlderDone(t, t.entries[a], t.entries[b]) {
      if a > 0 {
        assert OlderDone(s, s.entries[a - 1], s.entries[b - 1]);
      } else {
        GenAt(s.entries, s.nextGen, b - 1);
        assert GenOk(s, s.entries[b - 1].gen);
      }
    }
  }

  lemma {:induction false} AtRegistered(es: seq<Entry>, fd: nat, gen: nat, g: nat)
    ensures At(Registered(es, fd, gen), g) == if g == gen then 0 else 1 + At(es, g)
  {
    assert Registered(es, fd, gen)[1..] == es;
  }

  lemma {:induction false} RegisterGenOk(s: State, fd: nat, g: nat)
    requires Inv(s) && Enabled(s, Register(fd))
    ensures GenOk(Next(s, Register(fd)), g)
  {
    if g == s.nextGen + 1 {
      NewGenOk(s, fd);
    } else {
      OldGenOk(s, fd, g);
    }
  }

  lemma {:induction false} NewGenOk(s: State, fd: nat)
    requires Inv(s) && Enabled(s, Register(fd))
    ensures GenOk(Next(s, Register(fd)), s.nextGen + 1)
  {
    AtRegistered(s.entries, fd, s.nextGen + 1, s.nextGen + 1);
    NotYetListed(s, s.nextGen + 1);
  }

  lemma {:induction false} OldGenOk(s: State, fd: nat, g: nat)
    requires Inv(s) && Enabled(s, Register(fd)) && g != s.nextGen + 1
    ensures GenOk(Next(s, Register(fd)), g)
  {
    assert GenOk(s, g);
    AtRegistered(s.entries, fd, s.nextGen + 1, g);
    if Listed(s, g) {
      OldEntryOk(s, fd, s.entries[At(s.entries, g)]);
    }
  }

  lemma {:induction false} OldEntryOk(s: State, fd: nat, e: Entry)
    requires Enabled(s, Register(fd)) && EntryOk(s, e) && 0 < e.gen <= s.nextGen
    ensures EntryOk(Next(s, Register(fd)), e)
  {
  }

  lemma {:induction false} NotYetListed(s: State, g: nat)
    requires Inv(s) && g > s.nextGen
    ensures !Listed(s, g) && s.guards[g] == 0 && g !in s.closers
  {
    assert GenOk(s, g);
  }

  lemma {:induction false} RegisterKernelOk(s: State, fd: nat, d: nat)
    requires Inv(s) && Enabled(s, Register(fd))
    ensures KernelOk(Next(s, Register(fd)), d)
  {
    assert KernelOk(s, d);
    if d == fd {
      AtRegistered(s.entries, fd, s.nextGen + 1, s.nextGen + 1);
    } else if d in s.kernel && s.kernel[d] > 0 {
      NotNew(s, s.kernel[d]);
      AtRegistered(s.entries, fd, s.nextGen + 1, s.kernel[d]);
    }
  }

  lemma {:induction false} NotNew(s: State, g: nat)
    requires Inv(s) && Listed(s, g)
    ensures g <= s.nextGen
  {
  }

  lemma {:induction false} RegisterKeeps(s: State, fd: nat)
    requires Inv(s) && Enabled(s, Register(fd))
    ensures Inv(Next(s, Register(fd)))
  {
    var t := Next(s, Register(fd));
    RegisteredDecreasing(s.entries, s.nextGen, fd);
    RegisterOlderDone(s, fd);
    forall g ensures GenOk(t, g) { RegisterGenOk(s, fd, g); }
    forall d ensures KernelOk(t, d) { RegisterKernelOk(s, fd, d); }
    forall k | 0 <= k < |t.calls| ensures CallOk(t, t.calls[k]) {
      assert CallOk(s, s.calls[k]);
      AtRegistered(s.entries, fd, s.nextGen + 1, s.calls[k].gen);
    }
  }

  lemma {:induction false} AcquireKeeps(s: State, fd: nat)
    requires Inv(s)
    ensures Inv(Next(s, Acquire(fd)))
  {
    var i := First(s.entries, OpenFd(fd));
    if i < |s.entries| {
      GenAt(s.entries, s.nextGen, i);
      assert GenOk(s, s.entries[i].gen);
      OneEntry(s, Next(s, Acquire(fd)), i);
    }
  }

  lemma {:induction false} ReleaseKeeps(s: State, gen: nat)
    requires Inv(s) && Enabled(s, Release(gen))
    ensures Inv(Next(s, Release(gen)))
  {
    assert GenOk(s, gen);
    OneEntry(s, Next(s, Release(gen)), At(s.entries, gen));
  }

  /** Taking away a descriptor that no generation owns, and what threads are about to close, matter to no entry. */
  lemma {:induction false} SameRegistry(s: State, t: State)
    requires Inv(s) && t.entries == s.entries && t.nextGen == s.nextGen && t.guards == s.guards && t.closers == s.closers
    requires t.calls == s.calls && forall fd | fd in t.kernel :: fd in s.kernel && t.kernel[fd] == s.kernel[fd]
    requires forall fd | fd in s.kernel && s.kernel[fd] > 0 :: fd in t.kernel
    ensures Inv(t)
  {
    forall i, j | 0 <= i < j < |t.entries| ensures OlderDone(t, t.entries[i], t.entries[j]) {
      assert OlderDone(s, s.entries[i], s.entries[j]);
    }
    forall g ensures GenOk(t, g) {
      SameGen(s, t, g);
    }
    forall d ensures KernelOk(t, d) {
      assert KernelOk(s, d);
    }
    forall k | 0 <= k < |t.calls| ensures CallOk(t, t.calls[k]) {
      assert CallOk(s, s.calls[k]);
    }
  }

  lemma {:induction false} SameGen(s: State, t: State, g: nat)
    requires Inv(s) && t.entries == s.entries && t.guards == s.guards && t.closers == s.closers
    requires forall fd | fd in t.kernel :: fd in s.kernel && t.kernel[fd] == s.kernel[fd]
    requires forall fd | fd in s.kernel && s.kernel[fd] > 0 :: fd in t.kernel
    ensures GenOk(t, g)
  {
    assert GenOk(s, g);
    if Listed(s, g) {
      assert s.entries[At(s.entries, g)].gen > 0;
    }
  }

  /** A close of a descriptor the registry does not know does no harm if and only if no generation owns it by now. */
  lemma {:induction false} StrayKeepsExactly(s: State, fd: nat)
    requires Inv(s) && Enabled(s, StrayClose(fd))
    ensures Inv(Next(s, StrayClose(fd))) <==> Tame(s, StrayClose(fd))
  {
    var t := Next(s, StrayClose(fd));
    if Tame(s, StrayClose(fd)) {
      SameRegistry(s, t);
    } else {
      var g := s.kernel[fd];
      assert KernelOk(s, fd) && GenOk(s, g);
      assert !GenOk(t, g);
    }
  }

  lemma {:induction false} ClaimKeeps(s: State, fd: nat)
    requires Inv(s) && Enabled(s, Claim(fd))
    ensures Inv(Next(s, Claim(fd)))
  {
    var i := First(s.entries, LiveFd(fd));
    if i == |s.entries| {
      SameRegistry(s, Next(s, Claim(fd)));
    } else if !s.entries[i].claimed {
      GenAt(s.entries, s.nextGen, i);
      assert GenOk(s, s.entries[i].gen);
      OneEntry(s, Next(s, Claim(fd)), i);
    }
  }

  lemma {:induction false} WakeKeeps(s: State, gen: nat)
    requires Inv(s) && Enabled(s, Wake(gen))
    ensures Inv(Next(s, Wake(gen)))
  {
    assert GenOk(s, gen);
    OneEntry(s, Next(s, Wake(gen)), At(s.entries, gen));
  }

  lemma {:induction false} OsCloseKeeps(s: State, gen: nat)
    requires Inv(s) && Enabled(s, OsClose(gen))
    ensures Inv(Next(s, OsClose(gen)))
  {
    var t, fd := Next(s, OsClose(gen)), s.closers[gen].fd;
    assert GenOk(s, gen);
    forall i, j | 0 <= i < j < |t.entries| ensures OlderDone(t, t.entries[i], t.entries[j]) {
      assert OlderDone(s, s.entries[i], s.entries[j]);
    }
    forall g ensures GenOk(t, g) {
      assert GenOk(s, g);
    }
    forall d ensures KernelOk(t, d) {
      assert KernelOk(s, d);
    }
    forall k | 0 <= k < |s.calls| ensures CallOk(t, s.calls[k]) && s.calls[k].gen != gen {
      assert CallOk(s, s.calls[k]);
    }
    assert 0 < gen <= s.nextGen;
    assert CallOk(t, CloseCall(gen, Some(gen)));
  }

  lemma {:induction false} Remove(es: seq<Entry>, top: nat, i: nat, g: nat)
    requires Decreasing(es, top) && i < |es|
    ensures
      var es', j, j' := es[..i] + es[i + 1..], At(es, g), At(es[..i] + es[i + 1..], g);
      (j' < |es'| <==> j < |es| && g != es[i].gen) && (j' < |es'| ==> es'[j'] == es[j])
  {
    var es', j, j' := es[..i] + es[i + 1..], At(es, g), At(es[..i] + es[i + 1..], g);
    if j < |es| && g != es[i].gen {
      assert es'[if j < i then j else j - 1] == es[j];
    }
    if j' < |es'| {
      assert es'[j'] == es[if j' < i then j' else j' + 1];
    }
  }

  lemma {:induction false} RemovedDecreasing(es: seq<Entry>, top: nat, i: nat)
    requires Decreasing(es, top) && i < |es|
    ensures Decreasing(es[..i] + es[i + 1..], top)
  {
  }

  lemma {:induction false} FinishGenOk(s: State, gen: nat, g: nat)
    requires Inv(s) && Enabled(s, Finish(gen)) && Listed(s, gen)
    requires Next(s, Finish(gen)).entries == s.entries[..At(s.entries, gen)] + s.entries[At(s.entries, gen) + 1..]
    ensures GenOk(Next(s, Finish(gen)), g)
  {
    assert GenOk(s, g);
    assert GenOk(s, gen);
    Remove(s.entries, s.nextGen, At(s.entries, gen), g);
  }

  lemma {:induction false} FinishKernelOk(s: State, gen: nat, d: nat)
    requires Inv(s) && Enabled(s, Finish(gen)) && Listed(s, gen)
    requires Next(s, Finish(gen)).entries == s.entries[..At(s.entries, gen)] + s.entries[At(s.entries, gen) + 1..]
    ensures KernelOk(Next(s, Finish(gen)), d)
  {
    assert KernelOk(s, d);
    assert GenOk(s, gen);
    if d in s.kernel {
      Remove(s.entries, s.nextGen, At(s.entries, gen), s.kernel[d]);
    }
  }

  lemma {:induction false} FinishOlderDone(s: State, gen: nat)
    requires Inv(s) && Enabled(s, Finish(gen)) && Listed(s, gen)
    requires Next(s, Finish(gen)).entries == s.entries[..At(s.entries, gen)] + s.entries[At(s.entries, gen) + 1..]
    ensures NewestOwns(Next(s, Finish(gen)))
  {
    var t, i := Next(s, Finish(gen)), At(s.entries, gen);
    forall a, b | 0 <= a < b < |t.entries| ensures OlderDone(t, t.entries[a], t.entries[b]) {
      assert OlderDone(s, s.entries[if a < i then a else a + 1], s.entries[if b < i then b else b + 1]);
    }
  }

  lemma {:induction false} FinishKeeps(s: State, gen: nat)
    requires Inv(s) && Enabled(s, Finish(gen))
    ensures Inv(Next(s, Finish(gen)))
  {
    var t, i := Next(s, Finish(gen)), At(s.entries, gen);
    RemovedList(s, gen);
    RemovedDecreasing(s.entries, s.nextGen, i);
    FinishOlderDone(s, gen);
    forall g ensures GenOk(t, g) { FinishGenOk(s, gen, g); }
    forall d ensures KernelOk(t, d) { FinishKernelOk(s, gen, d); }
    forall k | 0 <= k < |t.calls| ensures CallOk(t, t.calls[k]) {
      assert CallOk(s, s.calls[k]);
      Remove(s.entries, s.nextGen, i, s.calls[k].gen);
    }
  }

  lemma {:induction false} RemovedList(s: State, gen: nat)
    requires Inv(s) && Enabled(s, Finish(gen))
    ensures Listed(s, gen)
    ensures Next(s, Finish(gen)).entries == s.entries[..At(s.entries, gen)] + s.entries[At(s.entries, gen) + 1..]
  {
    assert GenOk(s, gen);
    var i := At(s.entries, gen);
    var e := LessRef(s.entries[i].(state := Closed));
    assert s.entries[i := e][..i] == s.entries[..i] && s.entries[i := e][i + 1..] == s.entries[i + 1..];
  }

  lemma {:induction false} StepKeeps(s: State, step: Step)
    requires Inv(s) && Tame(s, step)
    ensures Inv(Next(s, step))
  {
    match step {
      case KernelOpen(fd) => KernelOpenKeeps(s, fd);
      case Register(fd) => RegisterKeeps(s, fd);
      case Acquire(fd) => AcquireKeeps(s, fd);
      case Release(gen) => ReleaseKeeps(s, gen);
      case Claim(fd) => ClaimKeeps(s, fd);
      case Wake(gen) => WakeKeeps(s, gen);
      case OsClose(gen) => OsCloseKeeps(s, gen);
      case Finish(gen) => FinishKeeps(s, gen);
      case StrayClose(fd) => StrayKeepsExactly(s, fd);
    }
  }

  // ---------- Whole runs ----------

  ghost predicate AllEnabled(s: State, steps: seq<Step>)
    decreases |steps|
  {
    steps == [] || (Enabled(s, steps[0]) && AllEnabled(Next(s, steps[0]), steps[1..]))
  }

  ghost predicate AllTame(s: State, steps: seq<Step>)
    decreases |steps|
  {
    steps == [] || (Tame(s, steps[0]) && AllTame(Next(s, steps[0]), steps[1..]))
  }

  function Run(s: State, steps: seq<Step>): State
    decreases |steps|
  {
    if steps == [] then s else Run(Next(s, steps[0]), steps[1..])
  }

  lemma {:induction false} RunsKeep(s: State, steps: seq<Step>)
    requires Inv(s) && AllTame(s, steps)
    ensures Inv(Run(s, steps))
    decreases |steps|
  {
    if steps != [] {
      StepKeeps(s, steps[0]);
      RunsKeep(Next(s, steps[0]), steps[1..]);
    }
  }

  /** In every interleaving: a listed entry counts its guards and one more; every close call hit its own
      generation and no generation was closed twice; a guard's entry is never freed under it, and its descriptor is
      still the one it was registered for. */
  lemma {:induction false} EveryInterleaving(steps: seq<Step>)
    requires AllTame(INITIAL, steps)
    ensures
      var s := Run(INITIAL, steps);
      Decreasing(s.entries, s.nextGen)
      && (forall i | 0 <= i < |s.entries| :: s.entries[i].refs == s.guards[s.entries[i].gen] + 1)
      && (forall k | 0 <= k < |s.calls| :: s.calls[k].hit == Some(s.calls[k].gen))
      && (forall j, k | 0 <= j < k < |s.calls| :: s.calls[j].gen != s.calls[k].gen)
      && forall g | s.guards[g] > 0 :: Listed(s, g) && OwnsDescriptor(s, s.entries[At(s.entries, g)])
  {
    RunsKeep(INITIAL, steps);
    var s := Run(INITIAL, steps);
    forall i | 0 <= i < |s.entries| ensures s.entries[i].refs == s.guards[s.entries[i].gen] + 1 {
      GenAt(s.entries, s.nextGen, i);
      assert GenOk(s, s.entries[i].gen);
    }
    forall k | 0 <= k < |s.calls| ensures s.calls[k].hit == Some(s.calls[k].gen) {
      assert CallOk(s, s.calls[k]);
    }
    forall g | s.guards[g] > 0 ensures Listed(s, g) && OwnsDescriptor(s, s.entries[At(s.entries, g)]) {
      assert GenOk(s, g);
    }
  }

  /** A run in which every close finds its descriptor registered has nothing stray in it. */
  ghost predicate ClosesRegistered(s: State, steps: seq<Step>)
    decreases |steps|
  {
    steps == []
    || (Enabled(s, steps[0]) && (steps[0].Claim? ==> First(s.entries, LiveFd(steps[0].fd)) < |s.entries|)
        && ClosesRegistered(Next(s, steps[0]), steps[1..]))
  }

  lemma {:induction false} RegisteredIsTame(s: State, steps: seq<Step>)
    requires ClosesRegistered(s, steps) && s.strays == multiset{}
    ensures AllTame(s, steps)
    decreases |steps|
  {
    if steps != [] {
      RegisteredIsTame(Next(s, steps[0]), steps[1..]);
    }
  }

  /** The system call is made with no guard held, on the descriptor the generation still owns. */
  lemma {:induction false} CloseIsUnguarded(s: State, gen: nat)
    requires Inv(s) && Enabled(s, OsClose(gen))
    ensures s.guards[gen] == 0 && OnKernel(s.kernel, s.closers[gen].fd) == Some(gen)
  {
    assert GenOk(s, gen);
  }

  /** A waiting closer may go on exactly when nobody holds a guard. */
  lemma {:induction false} WaitsForGuards(s: State, gen: nat)
    requires Inv(s) && gen in s.closers && s.closers[gen].phase.Waiting?
    ensures Enabled(s, Wake(gen)) <==> s.guards[gen] == 0
  {
    assert GenOk(s, gen);
  }

  lemma {:induction false} Found(es: seq<Entry>, k: nat)
    requires k < |es|
    ensures At(es, es[k].gen) < |es|
  {
    assert Hit(es[k], Gen(es[k].gen));
  }

  /** A generation is not lost where the list keeps its places. */
  lemma {:induction false} SamePlaces(s: State, t: State, gen: nat)
    requires Listed(s, gen) && |t.entries| == |s.entries| && forall i | 0 <= i < |s.entries| :: t.entries[i].gen == s.entries[i].gen
    ensures Listed(t, gen)
  {
    Found(t.entries, At(s.entries, gen));
  }

  lemma {:induction false} StaysAtFinish(s: State, g: nat, gen: nat)
    requires Inv(s) && Enabled(s, Finish(g)) && Listed(s, gen) && gen != g
    ensures Listed(Next(s, Finish(g)), gen)
  {
    RemovedList(s, g);
    Remove(s.entries, s.nextGen, At(s.entries, g), gen);
  }

  lemma {:induction false} StaysAtRelease(s: State, g: nat, gen: nat)
    requires Inv(s) && Enabled(s, Release(g)) && Listed(s, gen)
    ensures Listed(Next(s, Release(g)), gen)
  {
    assert GenOk(s, g);
    SamePlaces(s, Next(s, Release(g)), gen);
  }

  lemma {:induction false} StaysListed(s: State, step: Step, gen: nat)
    requires Inv(s) && Enabled(s, step) && Listed(s, gen) && step != Finish(gen)
    ensures Listed(Next(s, step), gen)
  {
    match step {
      case Register(fd) => AtRegistered(s.entries, fd, s.nextGen + 1, gen);
      case Release(g) => StaysAtRelease(s, g, gen);
      case Finish(g) => StaysAtFinish(s, g, gen);
      case Acquire(fd) => SamePlaces(s, Next(s, step), gen);
      case Claim(fd) => SamePlaces(s, Next(s, step), gen);
      case _ =>
    }
  }

  /** An entry is freed only by its own closer, closed, unreferenced, its descriptor given back. */
  lemma {:induction false} FreedWhenClosed(s: State, step: Step, gen: nat)
    requires Inv(s) && Enabled(s, step) && Listed(s, gen) && !Listed(Next(s, step), gen)
    ensures
      var e := s.entries[At(s.entries, gen)];
      step == Finish(gen) && s.guards[gen] == 0 && s.closers[gen].phase.OsClosed?
      && LessRef(e.(state := Closed)).refs == 0 && !OwnsDescriptor(s, e)
  {
    assert GenOk(s, gen);
    if step != Finish(gen) {
      StaysListed(s, step, gen);
    }
  }

  /** While an old close of descriptor fd is still being finished, fd may be open again under a new
      generation: looking fd up finds the new one, for closing and, until its own close, for use. */
  lemma {:induction false} ReusedDescriptor(s: State, fd: nat)
    requires Inv(s) && fd in s.kernel && s.kernel[fd] > 0
    ensures
      var i := First(s.entries, LiveFd(fd));
      i < |s.entries| && s.entries[i].gen == s.kernel[fd]
      && First(s.entries, OpenFd(fd)) == (if s.entries[i].claimed then |s.entries| else i)
      && forall j | 0 <= j < |s.entries| && j != i && s.entries[j].fd == fd ::
           s.entries[j].gen < s.kernel[fd] && s.entries[j].gen in s.closers && s.closers[s.entries[j].gen].phase.OsClosed?
  {
    var g := s.kernel[fd];
    assert KernelOk(s, fd) && GenOk(s, g);
    var i := At(s.entries, g);
    forall j | 0 <= j < i ensures s.entries[j].fd != fd {
      assert OlderDone(s, s.entries[j], s.entries[i]);
    }
    forall j | 0 <= j < |s.entries| && j != i && s.entries[j].fd == fd
      ensures j > i && s.entries[j].state.Closing?
      ensures s.entries[j].gen != g && s.entries[j].gen in s.closers && s.closers[s.entries[j].gen].phase.OsClosed?
    {
      GenAt(s.entries, s.nextGen, j);
      assert GenOk(s, s.entries[j].gen);
    }
  }

  lemma {:induction false} RunCons(s: State, step: Step, rest: seq<Step>)
    requires Enabled(s, step) && AllEnabled(Next(s, step), rest)
    ensures AllEnabled(s, [step] + rest) && Run(s, [step] + rest) == Run(Next(s, step), rest)
  {
    assert ([step] + rest)[1..] == rest;
  }

  /** Descriptor 3 was registered, closed and handed out again; a second thread that meant the old one has found no
      entry and is about to close 3 itself. */
  function Late(kernel: nat, strays: multiset<nat>): State {
    State([], 1, multiset{}, map[], strays, map[3 := kernel], [CloseCall(1, Some(1))])
  }

  lemma {:induction false} LateState()
    ensures var steps := [KernelOpen(3), Register(3), Claim(3), Wake(1)] + [OsClose(1), Finish(1), KernelOpen(3)];
            AllEnabled(INITIAL, steps) && Run(INITIAL, steps) == Late(0, multiset{})
  {
    var s4 := State([Entry(3, 1, Closing, 1, true)], 1, multiset{}, map[1 := Closer(3, AboutToClose)], multiset{}, map[3 := 1], []);
    FirstFour(s4);
    LastThree(s4);
    RunConcat(INITIAL, [KernelOpen(3), Register(3), Claim(3), Wake(1)], [OsClose(1), Finish(1), KernelOpen(3)]);
  }

  lemma {:induction false} RunConcat(s: State, a: seq<Step>, b: seq<Step>)
    requires AllEnabled(s, a) && AllEnabled(Run(s, a), b)
    ensures AllEnabled(s, a + b) && Run(s, a + b) == Run(Run(s, a), b)
    decreases |a|
  {
    if a == [] {
      assert a + b == b;
    } else {
      RunConcat(Next(s, a[0]), a[1..], b);
      assert (a + b)[0] == a[0] && (a + b)[1..] == a[1..] + b;
    }
  }

  lemma {:induction false} FirstFour(s4: State)
    requires s4 == State([Entry(3, 1, Closing, 1, true)], 1, multiset{}, map[1 := Closer(3, AboutToClose)], multiset{}, map[3 := 1], [])
    ensures var steps := [KernelOpen(3), Register(3), Claim(3), Wake(1)];
            AllEnabled(INITIAL, steps) && Run(INITIAL, steps) == s4
  {
    var s1 := Next(INITIAL, KernelOpen(3));
    var s2 := State([Entry(3, 1, Open, 1, false)], 1, multiset{}, map[], multiset{}, map[3 := 1], []);
    assert Next(s1, Register(3)) == s2;
    var s3 := ClaimThenWake(s2, s4);
    RunCons(s3, Wake(1), []);
    RunCons(s2, Claim(3), [Wake(1)]);
    RunCons(s1, Register(3), [Claim(3), Wake(1)]);
    RunCons(INITIAL, KernelOpen(3), [Register(3), Claim(3), Wake(1)]);
    assert [Wake(1)] + [] == [Wake(1)] && [Claim(3)] + [Wake(1)] == [Claim(3), Wake(1)];
    assert [Register(3)] + [Claim(3), Wake(1)] == [Register(3), Claim(3), Wake(1)];
    assert [KernelOpen(3)] + [Register(3), Claim(3), Wake(1)] == [KernelOpen(3), Register(3), Claim(3), Wake(1)];
  }

  lemma {:induction false} ClaimThenWake(s2: State, s4: State) returns (s3: State)
    requires s2 == State([Entry(3, 1, Open, 1, false)], 1, multiset{}, map[], multiset{}, map[3 := 1], [])
    requires s4 == State([Entry(3, 1, Closing, 1, true)], 1, multiset{}, map[1 := Closer(3, AboutToClose)], multiset{}, map[3 := 1], [])
    ensures s3 == Next(s2, Claim(3)) && Enabled(s3, Wake(1)) && Next(s3, Wake(1)) == s4
  {
    s3 := Next(s2, Claim(3));
    assert s3.entries == [Entry(3, 1, Closing, 1, true)];
  }

  lemma {:induction false} LastThree(s4: State)
    requires s4 == State([Entry(3, 1, Closing, 1, true)], 1, multiset{}, map[1 := Closer(3, AboutToClose)], multiset{}, map[3 := 1], [])
    ensures var steps := [OsClose(1), Finish(1), KernelOpen(3)];
            AllEnabled(s4, steps) && Run(s4, steps) == Late(0, multiset{})
  {
    var s5 := Next(s4, OsClose(1));
    assert s5.calls == [CloseCall(1, Some(1))];
    var s6 := Next(s5, Finish(1));
    assert s6.entries == [] && s6.closers == map[];
    assert Next(s6, KernelOpen(3)) == Late(0, multiset{});
    RunCons(s6, KernelOpen(3), []);
    RunCons(s5, Finish(1), [KernelOpen(3)]);
    RunCons(s4, OsClose(1), [Finish(1), KernelOpen(3)]);
    assert [KernelOpen(3)] + [] == [KernelOpen(3)] && [Finish(1)] + [KernelOpen(3)] == [Finish(1), KernelOpen(3)];
    assert [OsClose(1)] + [Finish(1), KernelOpen(3)] == [OsClose(1), Finish(1), KernelOpen(3)];
  }

  /** Two threads close descriptor 3 and the first finishes; another thread is handed 3 anew. The second closer finds no
      entry and closes 3 itself: the descriptor of a stranger. */
  lemma {:induction false} LateCloserFindsNothing()
    ensures
      var steps := [Claim(3), StrayClose(3)];
      var s := Late(0, multiset{});
      AllEnabled(s, steps) && 3 in s.kernel && 3 !in Run(s, steps).kernel
  {
    var s, t := Late(0, multiset{}), Late(0, multiset{3});
    assert Next(s, Claim(3)) == t;
    RunCons(t, StrayClose(3), []);
    RunCons(s, Claim(3), [StrayClose(3)]);
    assert [StrayClose(3)] + [] == [StrayClose(3)] && [Claim(3)] + [StrayClose(3)] == [Claim(3), StrayClose(3)];
  }

  /** If the stranger registers 3 and takes a guard before that, its descriptor is closed under the guard. */
  lemma {:induction false} LateCloserHitsAGuard()
    ensures
      var steps := [Claim(3), Register(3), Acquire(3), StrayClose(3)];
      var s := Late(0, multiset{});
      var t := Run(s, steps);
      AllEnabled(s, steps) && t.guards[2] == 1 && Listed(t, 2) && !OwnsDescriptor(t, t.entries[At(t.entries, 2)])
  {
    var s, s1 := Late(0, multiset{}), Late(0, multiset{3});
    var s2 := Next(s1, Register(3));
    GuardTaken();
    StrayUnderGuard();
    assert Next(s, Claim(3)) == s1;
    RunCons(AGuard(), StrayClose(3), []);
    RunCons(s2, Acquire(3), [StrayClose(3)]);
    RunCons(s1, Register(3), [Acquire(3), StrayClose(3)]);
    RunCons(s, Claim(3), [Register(3), Acquire(3), StrayClose(3)]);
    assert [StrayClose(3)] + [] == [StrayClose(3)] && [Acquire(3)] + [StrayClose(3)] == [Acquire(3), StrayClose(3)];
    assert [Register(3)] + [Acquire(3), StrayClose(3)] == [Register(3), Acquire(3), StrayClose(3)];
    assert [Claim(3)] + [Register(3), Acquire(3), StrayClose(3)] == [Claim(3), Register(3), Acquire(3), StrayClose(3)];
  }

  /** 3 is registered as generation 2 and guarded once, and a stray close of 3 is pending. */
  function AGuard(): State {
    State([Entry(3, 2, Open, 2, false)], 2, multiset{2}, map[], multiset{3}, map[3 := 2], [CloseCall(1, Some(1))])
  }

  lemma {:induction false} GuardTaken()
    ensures Next(Next(Late(0, multiset{3}), Register(3)), Acquire(3)) == AGuard()
  {
    var s2 := Next(Late(0, multiset{3}), Register(3));
    assert s2.entries == [Entry(3, 2, Open, 1, false)] && s2.kernel == map[3 := 2];
    assert Next(s2, Acquire(3)).entries == AGuard().entries;
  }

  lemma {:induction false} StrayUnderGuard()
    ensures var t := Next(AGuard(), StrayClose(3));
            t.guards[2] == 1 && Listed(t, 2) && !OwnsDescriptor(t, t.entries[At(t.entries, 2)])
  {
    var t := Next(AGuard(), StrayClose(3));
    assert t.entries[0].gen == 2;
  }

  // ---------- The registry itself ----------

  class Registry {
    var entries: seq<Entry>
    var nextGen: nat

    constructor ()
      ensures entries == [] && nextGen == 0
    {
      entries, nextGen := [], 0;
    }

    method Find(w: Want) returns (i: nat)
      ensures i == First(entries, w)
    {
      i := 0;
      while i < |entries| && !Hit(entries[i], w)
        invariant i <= |entries| && First(entries, w) == i + First(entries[i..], w)
      {
        assert entries[i..][1..] == entries[i + 1..];
        i := i + 1;
      }
    }

    /** Zero for a descriptor no kernel hands out. */
    method RegisterFd(fd: int) returns (gen: nat)
      modifies this
      ensures fd < 0 ==> gen == 0 && entries == old(entries) && nextGen == old(nextGen)
      ensures fd >= 0 ==> gen == old(nextGen) + 1 == nextGen && entries == Registered(old(entries), fd, gen)
    {
      if fd < 0 {
        return 0;
      }
      nextGen := nextGen + 1;
      gen := nextGen;
      entries := [Entry(fd, gen, Open, 1, false)] + entries;
    }

    method AcquireFd(fd: nat) returns (guard: Option<nat>)
      modifies this
      ensures nextGen == old(nextGen)
      ensures
        var i := First(old(entries), OpenFd(fd));
        if i == |old(entries)| then guard == None && entries == old(entries)
        else guard == Some(old(entries)[i].gen) && entries == Guarded(old(entries), i)
    {
      var i := Find(OpenFd(fd));
      if i == |entries| {
        return None;
      }
      guard := Some(entries[i].gen);
      entries := entries[i := entries[i].(refs := entries[i].refs + 1)];
    }

    method Reap(i: nat)
      requires i < |entries|
      modifies this
      ensures nextGen == old(nextGen) && entries == Reaped(old(entries), i)
    {
      if entries[i].state.Closed? && entries[i].refs == 0 {
        entries := entries[..i] + entries[i + 1..];
      }
    }

    method ReleaseFd(guard: nat)
      requires At(entries, guard) < |entries|
      modifies this
      ensures nextGen == old(nextGen) && entries == Unguarded(old(entries), At(old(entries), guard))
    {
      var i := Find(Gen(guard));
      if entries[i].refs > 0 {
        entries := entries[i := entries[i].(refs := entries[i].refs - 1)];
      }
      Reap(i);
    }

    /** The first critical section of a close: nothing registered, somebody else's close, or ours to finish. */
    method BeginClose(fd: nat) returns (ours: Option<nat>, registered: bool)
      modifies this
      ensures nextGen == old(nextGen)
      ensures
        var i := First(old(entries), LiveFd(fd));
        registered == (i < |old(entries)|)
        && if registered && !old(entries)[i].claimed
           then ours == Some(old(entries)[i].gen) && entries == ClaimedAt(old(entries), i)
           else ours == None && entries == old(entries)
    {
      var i := Find(LiveFd(fd));
      if i == |entries| {
        return None, false;
      }
      if entries[i].claimed {
        return None, true;
      }
      ours, registered := Some(entries[i].gen), true;
      entries := entries[i := entries[i].(claimed := true, state := Closing)];
    }

    /** The last critical section of a close. */
    method EndClose(gen: nat)
      requires At(entries, gen) < |entries|
      modifies this
      ensures nextGen == old(nextGen) && entries == Finished(old(entries), At(old(entries), gen))
    {
      var i := Find(Gen(gen));
      var e := entries[i].(state := Closed);
      if e.refs > 0 {
        e := e.(refs := e.refs - 1);
      }
      entries := entries[i := e];
      Reap(i);
    }
  }
}
