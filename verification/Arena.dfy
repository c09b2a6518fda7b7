/** The per-thread bump arena of runtime/gc.c: chunks reused in order after every reset. */
module Arena {
  import opened Wrappers

  const ARENA_CHUNK_SIZE := 64 * 1024
  const CHUNK_HEADER := 24

  /** `base` is the address of the chunk's data area. */
  datatype Chunk = Chunk(base: nat, used: nat, cap: nat)

  datatype Block = Block(at: nat, size: nat, chunk: nat)

  /** No chunks: no arena yet. `live` lists the blocks handed out since the last reset. */
  datatype State = State(chunks: seq<Chunk>, head: nat, live: seq<Block>)

  ghost predicate WellFormed(s: State) {
    s.chunks == [] || s.head < |s.chunks|
  }

  function Align8(size: nat): nat {
    (size + 7) / 8 * 8
  }

  function ChunkCap(minSize: nat): nat {
    if minSize + CHUNK_HEADER > ARENA_CHUNK_SIZE then minSize + CHUNK_HEADER else ARENA_CHUNK_SIZE
  }

  function Emptied(chunks: seq<Chunk>): (r: seq<Chunk>)
    ensures |r| == |chunks|
    ensures forall i | 0 <= i < |r| :: r[i] == chunks[i].(used := 0)
  {
    if chunks == [] then [] else [chunks[0].(used := 0)] + Emptied(chunks[1..])
  }

  function Reset(s: State): State {
    State(Emptied(s.chunks), 0, [])
  }

  /** `addr` is the data address malloc hands out, should a chunk be needed. */
  function Begin(s: State, addr: nat): State {
    if s.chunks == [] then State([Chunk(addr, 0, ChunkCap(0))], 0, []) else Reset(s)
  }

  function End(s: State): State {
    if s.chunks == [] then s else Reset(s)
  }

  function Alloc(s: State, size: nat, addr: nat): (r: State)
    requires WellFormed(s)
    ensures WellFormed(r)
  {
    if s.chunks == [] then s
    else
      var n, c := Align8(size), s.chunks[s.head];
      if c.used + n <= c.cap then
        State(s.chunks[s.head := c.(used := c.used + n)], s.head, s.live + [Block(c.base + c.used, n, s.head)])
      else if s.head + 1 < |s.chunks| then
        Enter(s.chunks, s.head + 1, n, s.live)
      else
        Enter(s.chunks + [Chunk(addr, 0, ChunkCap(n))], s.head + 1, n, s.live)
  }

  /** The new head holds nothing but the new block: its capacity is not consulted. */
  function Enter(chunks: seq<Chunk>, k: nat, n: nat, live: seq<Block>): State
    requires k < |chunks|
  {
    State(chunks[k := chunks[k].(used := n)], k, live + [Block(chunks[k].base, n, k)])
  }

  // ---------- What a run keeps ----------

  predicate Apart(a: nat, aLen: nat, b: nat, bLen: nat) {
    aLen == 0 || bLen == 0 || a + aLen <= b || b + bLen <= a
  }

  /** malloc's promise about a new chunk. */
  ghost predicate Fresh(chunks: seq<Chunk>, addr: nat, cap: nat) {
    addr % 8 == 0 && forall i | 0 <= i < |chunks| :: Apart(chunks[i].base, chunks[i].cap, addr, cap)
  }

  ghost predicate Separated(chunks: seq<Chunk>) {
    (forall i | 0 <= i < |chunks| :: chunks[i].base % 8 == 0 && chunks[i].used % 8 == 0 && chunks[i].cap >= ARENA_CHUNK_SIZE)
    && forall i, j | 0 <= i < j < |chunks| :: Apart(chunks[i].base, chunks[i].cap, chunks[j].base, chunks[j].cap)
  }

  ghost predicate WithinCapacity(chunks: seq<Chunk>) {
    forall i | 0 <= i < |chunks| :: chunks[i].used <= chunks[i].cap
  }

  ghost predicate EmptyPastHead(s: State) {
    forall i | s.head < i < |s.chunks| :: s.chunks[i].used == 0
  }

  /** Eight-aligned and inside the used part of one chunk. */
  ghost predicate Placed(chunks: seq<Chunk>, b: Block) {
    b.chunk < |chunks| && b.at % 8 == 0 && b.size % 8 == 0
    && chunks[b.chunk].base <= b.at && b.at + b.size <= chunks[b.chunk].base + chunks[b.chunk].used
  }

  ghost predicate BlocksPlaced(s: State) {
    forall i | 0 <= i < |s.live| :: Placed(s.chunks, s.live[i]) && s.live[i].chunk <= s.head
  }

  ghost predicate BlocksDisjoint(live: seq<Block>) {
    forall i, j | 0 <= i < j < |live| :: Apart(live[i].at, live[i].size, live[j].at, live[j].size)
  }

  ghost predicate Sound(s: State) {
    WellFormed(s) && Separated(s.chunks) && WithinCapacity(s.chunks) && EmptyPastHead(s)
    && BlocksPlaced(s) && BlocksDisjoint(s.live)
  }

  /** A request goes to the head chunk, to a new chunk, or to a chunk kept from before a reset; only the
      last can be too small for it. */
  predicate HasRoom(s: State, size: nat)
    requires WellFormed(s)
  {
    s.chunks == []
    || s.chunks[s.head].used + Align8(size) <= s.chunks[s.head].cap
    || s.head + 1 >= |s.chunks|
    || Align8(size) <= s.chunks[s.head + 1].cap
  }

  lemma {:induction false} ResetSound(s: State)
    requires Sound(s)
    ensures Sound(Reset(s))
  {
  }

  lemma {:induction false} NewBlock(s: State, b: Block, t: State)
    requires Sound(s) && WellFormed(t) && Separated(t.chunks) && WithinCapacity(t.chunks) && s.head <= t.head
    requires t.live == s.live + [b] && |s.chunks| <= |t.chunks| && Placed(t.chunks, b) && b.chunk == t.head
    requires forall i | 0 <= i < |s.chunks| ::
               t.chunks[i].base == s.chunks[i].base && t.chunks[i].cap == s.chunks[i].cap && s.chunks[i].used <= t.chunks[i].used
    requires b.chunk < |s.chunks| ==> b.at >= s.chunks[b.chunk].base + s.chunks[b.chunk].used
    ensures BlocksPlaced(t) && BlocksDisjoint(t.live)
  {
    forall i | 0 <= i < |s.live|
      ensures Placed(t.chunks, s.live[i]) && Apart(s.live[i].at, s.live[i].size, b.at, b.size)
    {
      assert Placed(s.chunks, s.live[i]);
      var c := s.live[i].chunk;
      if c != b.chunk {
        assert Apart(t.chunks[c].base, t.chunks[c].cap, t.chunks[b.chunk].base, t.chunks[b.chunk].cap);
      }
    }
  }

  lemma {:induction false} BumpSound(s: State, n: nat)
    requires Sound(s) && s.chunks != [] && n % 8 == 0 && s.chunks[s.head].used + n <= s.chunks[s.head].cap
    ensures
      var c := s.chunks[s.head];
      Sound(State(s.chunks[s.head := c.(used := c.used + n)], s.head, s.live + [Block(c.base + c.used, n, s.head)]))
  {
    var c := s.chunks[s.head];
    var b := Block(c.base + c.used, n, s.head);
    NewBlock(s, b, State(s.chunks[s.head := c.(used := c.used + n)], s.head, s.live + [b]));
  }

  /** Entering an empty chunk is sound exactly when the block fits in it. */
  lemma {:induction false} EnterSound(s: State, chunks: seq<Chunk>, n: nat)
    requires Sound(s) && s.chunks != [] && n % 8 == 0 && s.head + 1 < |chunks|
    requires s.chunks <= chunks && Separated(chunks) && WithinCapacity(chunks)
    requires forall i | s.head < i < |chunks| :: chunks[i].used == 0
    ensures Sound(Enter(chunks, s.head + 1, n, s.live)) <==> n <= chunks[s.head + 1].cap
  {
    var t := Enter(chunks, s.head + 1, n, s.live);
    if n <= chunks[s.head + 1].cap {
      NewBlock(s, Block(chunks[s.head + 1].base, n, s.head + 1), t);
    } else {
      assert t.chunks[s.head + 1].used > t.chunks[s.head + 1].cap;
    }
  }

  lemma {:induction false} NewChunkSound(s: State, n: nat, addr: nat)
    requires Sound(s) && s.chunks != [] && n % 8 == 0 && s.head + 1 == |s.chunks| && Fresh(s.chunks, addr, ChunkCap(n))
    ensures Sound(Enter(s.chunks + [Chunk(addr, 0, ChunkCap(n))], s.head + 1, n, s.live))
  {
    EnterSound(s, s.chunks + [Chunk(addr, 0, ChunkCap(n))], n);
  }

  /** Soundness survives an allocation exactly when the request has room. */
  lemma {:induction false} AllocSound(s: State, size: nat, addr: nat)
    requires Sound(s) && Fresh(s.chunks, addr, ChunkCap(Align8(size)))
    ensures Sound(Alloc(s, size, addr)) <==> HasRoom(s, size)
  {
    var n := Align8(size);
    if s.chunks != [] {
      if s.chunks[s.head].used + n <= s.chunks[s.head].cap {
        BumpSound(s, n);
      } else if s.head + 1 < |s.chunks| {
        EnterSound(s, s.chunks, n);
        assert Alloc(s, size, addr) == Enter(s.chunks, s.head + 1, n, s.live);
      } else {
        NewChunkSound(s, n, addr);
        assert Alloc(s, size, addr) == Enter(s.chunks + [Chunk(addr, 0, ChunkCap(n))], s.head + 1, n, s.live);
      }
    }
  }

  datatype Event = BeginEvent(addr: nat) | AllocEvent(size: nat, addr: nat) | EndEvent

  function Step(s: State, e: Event): (r: State)
    requires WellFormed(s)
    ensures WellFormed(r)
  {
    match e
    case BeginEvent(addr) => Begin(s, addr)
    case AllocEvent(size, addr) => Alloc(s, size, addr)
    case EndEvent => End(s)
  }

  function Run(s: State, events: seq<Event>): (r: State)
    requires WellFormed(s)
    ensures WellFormed(r)
    decreases |events|
  {
    if events == [] then s else Run(Step(s, events[0]), events[1..])
  }

  /** Every malloc along the run keeps its promise. */
  ghost predicate MallocHonest(s: State, events: seq<Event>)
    requires WellFormed(s)
    decreases |events|
  {
    events == []
    || ((match events[0]
         case BeginEvent(addr) => Fresh(s.chunks, addr, ChunkCap(0))
         case AllocEvent(size, addr) => Fresh(s.chunks, addr, ChunkCap(Align8(size)))
         case EndEvent => true)
        && MallocHonest(Step(s, events[0]), events[1..]))
  }

  ghost predicate SmallRequests(events: seq<Event>) {
    forall i | 0 <= i < |events| :: events[i].AllocEvent? ==> events[i].size <= ARENA_CHUNK_SIZE
  }

  /** Every run of begin, end and requests of at most 64 KiB. */
  lemma {:induction false} RunsSound(s: State, events: seq<Event>)
    requires Sound(s) && MallocHonest(s, events) && SmallRequests(events)
    ensures Sound(Run(s, events))
    decreases |events|
  {
    if events != [] {
      var t := Step(s, events[0]);
      match events[0] {
        case BeginEvent(addr) => if s.chunks != [] { ResetSound(s); }
        case AllocEvent(size, addr) => AllocSound(s, size, addr);
        case EndEvent => ResetSound(s);
      }
      RunsSound(t, events[1..]);
    }
  }

  /** Two chunks of 64 KiB, each nearly full. */
  function Kept(): State {
    State([Chunk(1000, 60000, 65536), Chunk(100000, 60000, 65536)], 1, [Block(1000, 60000, 0), Block(100000, 60000, 1)])
  }

  lemma {:induction false} TwoChunks()
    ensures Alloc(Alloc(Begin(State([], 0, []), 1000), 60000, 0), 60000, 100000) == Kept()
  {
    var s2 := Alloc(Begin(State([], 0, []), 1000), 60000, 0);
    assert s2 == State([Chunk(1000, 60000, 65536)], 0, [Block(1000, 60000, 0)]);
    assert Alloc(s2, 60000, 100000).chunks == Kept().chunks;
  }

  lemma {:induction false} SecondTooSmall()
    ensures
      var s := Alloc(Alloc(Reset(Kept()), 60000, 0), 100000, 200000);
      s.live == [Block(1000, 60000, 0), Block(100000, 100000, 1)] && |s.chunks| == 2 && s.chunks[1].cap == 65536
  {
    var s5 := Alloc(Reset(Kept()), 60000, 0);
    assert s5.live == [Block(1000, 60000, 0)] && s5.chunks[0] == Chunk(1000, 60000, 65536);
    assert s5.chunks[1] == Chunk(100000, 0, 65536);
  }

  lemma {:induction false} RunOne(s: State, e: Event, rest: seq<Event>)
    requires WellFormed(s)
    ensures Run(s, [e] + rest) == Run(Step(s, e), rest)
  {
    assert ([e] + rest)[1..] == rest;
  }

  /** Without the size limit it fails: two chunks are kept from before the reset and the second is entered
      by a request larger than it. */
  lemma {:induction false} LargeRequestOverruns()
    ensures
      var events := [BeginEvent(1000), AllocEvent(60000, 0), AllocEvent(60000, 100000), EndEvent,
                     AllocEvent(60000, 0), AllocEvent(100000, 200000)];
      var s := Run(State([], 0, []), events);
      |s.live| == 2 && s.live[1] == Block(100000, 100000, 1) && s.chunks[1].cap == 65536
  {
    var s1 := Begin(State([], 0, []), 1000);
    var s2 := Alloc(s1, 60000, 0);
    var s3, s4, s5, s6 := Kept(), Reset(Kept()), Alloc(Reset(Kept()), 60000, 0), Alloc(Alloc(Reset(Kept()), 60000, 0), 100000, 200000);
    TwoChunks();
    SecondTooSmall();
    var e5 := [AllocEvent(100000, 200000)];
    var e4 := [AllocEvent(60000, 0), AllocEvent(100000, 200000)];
    var e3 := [EndEvent, AllocEvent(60000, 0), AllocEvent(100000, 200000)];
    var e2 := [AllocEvent(60000, 100000), EndEvent, AllocEvent(60000, 0), AllocEvent(100000, 200000)];
    var e1 := [AllocEvent(60000, 0), AllocEvent(60000, 100000), EndEvent, AllocEvent(60000, 0), AllocEvent(100000, 200000)];
    assert e5 == [AllocEvent(100000, 200000)] + [] && e4 == [AllocEvent(60000, 0)] + e5 && e3 == [EndEvent] + e4;
    assert e2 == [AllocEvent(60000, 100000)] + e3 && e1 == [AllocEvent(60000, 0)] + e2;
    RunOne(s5, AllocEvent(100000, 200000), []);
    RunOne(s4, AllocEvent(60000, 0), e5);
    RunOne(s3, EndEvent, e4);
    RunOne(s2, AllocEvent(60000, 100000), e3);
    RunOne(s1, AllocEvent(60000, 0), e2);
    RunOne(State([], 0, []), BeginEvent(1000), e1);
    assert [BeginEvent(1000)] + e1 == [BeginEvent(1000), AllocEvent(60000, 0), AllocEvent(60000, 100000), EndEvent,
                                       AllocEvent(60000, 0), AllocEvent(100000, 200000)];
  }

  // ---------- Replaying the same requests after a reset ----------

  function AllocAll(s: State, sizes: seq<nat>, addrs: seq<nat>): (r: State)
    requires WellFormed(s) && |sizes| == |addrs|
    ensures WellFormed(r)
    decreases |sizes|
  {
    if sizes == [] then s else AllocAll(Alloc(s, sizes[0], addrs[0]), sizes[1..], addrs[1..])
  }

  /** Chunks are only ever added at the end; places and capacities never change. */
  lemma {:induction false} ChunksOnlyGrow(s: State, sizes: seq<nat>, addrs: seq<nat>)
    requires WellFormed(s) && |sizes| == |addrs|
    ensures Emptied(s.chunks) <= Emptied(AllocAll(s, sizes, addrs).chunks)
    decreases |sizes|
  {
    if sizes != [] {
      GrowStep(s, sizes[0], addrs[0]);
      ChunksOnlyGrow(Alloc(s, sizes[0], addrs[0]), sizes[1..], addrs[1..]);
    }
  }

  lemma {:induction false} GrowStep(s: State, size: nat, addr: nat)
    requires WellFormed(s)
    ensures Emptied(s.chunks) <= Emptied(Alloc(s, size, addr).chunks)
  {
    var t := Alloc(s, size, addr);
    forall i | 0 <= i < |s.chunks|
      ensures t.chunks[i].(used := 0) == s.chunks[i].(used := 0)
    {
    }
  }

  lemma {:induction false} ReplayFrom(s: State, t: State, sizes: seq<nat>, addrs: seq<nat>, addrs': seq<nat>)
    requires WellFormed(s) && s.chunks != [] && |sizes| == |addrs| == |addrs'|
    requires ContinuedBy(s, t, Emptied(AllocAll(s, sizes, addrs).chunks))
    ensures AllocAll(t, sizes, addrs') == AllocAll(s, sizes, addrs)
    decreases |sizes|
  {
    if sizes == [] {
      assert t.chunks == s.chunks;
    } else {
      var s', t' := Alloc(s, sizes[0], addrs[0]), Alloc(t, sizes[0], addrs'[0]);
      ChunksOnlyGrow(s', sizes[1..], addrs[1..]);
      ReplayStep(s, t, Emptied(AllocAll(s, sizes, addrs).chunks), sizes[0], addrs[0], addrs'[0]);
      ReplayFrom(s', t', sizes[1..], addrs[1..], addrs'[1..]);
    }
  }

  /** t has the chunks of s, and behind them those that `all` has there. */
  ghost predicate ContinuedBy(s: State, t: State, all: seq<Chunk>) {
    t.head == s.head && t.live == s.live && |s.chunks| <= |t.chunks| == |all|
    && (forall i | 0 <= i < |s.chunks| :: t.chunks[i] == s.chunks[i])
    && forall i | |s.chunks| <= i < |all| :: t.chunks[i] == all[i]
  }

  lemma {:induction false} ReplayStep(s: State, t: State, all: seq<Chunk>, size: nat, addr: nat, addr': nat)
    requires WellFormed(s) && s.chunks != [] && ContinuedBy(s, t, all) && Emptied(Alloc(s, size, addr).chunks) <= all
    ensures ContinuedBy(Alloc(s, size, addr), Alloc(t, size, addr'), all)
  {
    var n := Align8(size);
    if s.chunks[s.head].used + n > s.chunks[s.head].cap {
      if s.head + 1 < |s.chunks| {
        assert Alloc(t, size, addr') == Enter(t.chunks, s.head + 1, n, s.live);
      } else {
        ReplayNew(s, t, all, size, addr, addr');
      }
    }
  }

  /** A chunk that s has to ask for is there already in t. */
  lemma {:induction false} ReplayNew(s: State, t: State, all: seq<Chunk>, size: nat, addr: nat, addr': nat)
    requires WellFormed(s) && s.chunks != [] && ContinuedBy(s, t, all) && Emptied(Alloc(s, size, addr).chunks) <= all
    requires s.chunks[s.head].used + Align8(size) > s.chunks[s.head].cap && s.head + 1 == |s.chunks|
    ensures ContinuedBy(Alloc(s, size, addr), Alloc(t, size, addr'), all)
  {
    var n, k := Align8(size), s.head + 1;
    var s' := Alloc(s, size, addr);
    assert s' == Enter(s.chunks + [Chunk(addr, 0, ChunkCap(n))], k, n, s.live);
    assert all[k] == Emptied(s'.chunks)[k] == s'.chunks[k].(used := 0) == Chunk(addr, 0, ChunkCap(n));
    assert t.chunks[k] == all[k];
    assert Alloc(t, size, addr') == Enter(t.chunks, k, n, s.live);
  }

  /** After a reset the same requests get the same blocks, from the same chunks, whatever malloc would offer. */
  lemma {:induction false} Replay(s: State, sizes: seq<nat>, addrs: seq<nat>, addrs': seq<nat>)
    requires WellFormed(s) && s.chunks != [] && |sizes| == |addrs| == |addrs'|
    ensures
      var first := AllocAll(Reset(s), sizes, addrs);
      AllocAll(Reset(first), sizes, addrs') == first
  {
    var s0 := Reset(s);
    ChunksOnlyGrow(s0, sizes, addrs);
    assert Emptied(s0.chunks) == s0.chunks;
    ReplayFrom(s0, Reset(AllocAll(s0, sizes, addrs)), sizes, addrs, addrs');
  }

  // ---------- The thread's arena ----------

  class ThreadArena {
    var chunks: seq<Chunk>
    var head: nat
    ghost var live: seq<Block>

    ghost function Abs(): State
      reads this
    {
      State(chunks, head, live)
    }

    constructor ()
      ensures Abs() == State([], 0, [])
    {
      chunks, head, live := [], 0, [];
    }

    method BeginRequest(addr: nat)
      modifies this
      ensures Abs() == Begin(old(Abs()), addr)
    {
      if chunks == [] {
        chunks, head, live := [NewChunk(0, addr)], 0, [];
      } else {
        ClearAll();
      }
    }

    static function NewChunk(minSize: nat, addr: nat): (c: Chunk)
      ensures c.used + minSize <= c.cap && c.base == addr
    {
      Chunk(addr, 0, if minSize + CHUNK_HEADER > ARENA_CHUNK_SIZE then minSize + CHUNK_HEADER else ARENA_CHUNK_SIZE)
    }

    method ClearAll()
      modifies this
      ensures Abs() == Reset(old(Abs()))
    {
      var i := 0;
      while i < |chunks|
        invariant i <= |chunks| == |old(chunks)|
        invariant forall k | 0 <= k < i :: chunks[k] == old(chunks[k]).(used := 0)
        invariant forall k | i <= k < |chunks| :: chunks[k] == old(chunks[k])
      {
        chunks := chunks[i := chunks[i].(used := 0)];
        i := i + 1;
      }
      head, live := 0, [];
      assert chunks == Emptied(old(chunks));
    }

    /** None: no arena, the caller is served by malloc. */
    method Allocate(size: nat, addr: nat) returns (p: Option<nat>)
      requires WellFormed(Abs())
      modifies this
      ensures Abs() == Alloc(old(Abs()), size, addr)
      ensures p.None? <==> old(chunks) == []
      ensures p.Some? ==> |live| > 0 && live[..|live| - 1] == old(live) && live[|live| - 1].at == p.value
    {
      if chunks == [] {
        return None;
      }
      var n := Align8(size);
      var c := chunks[head];
      if c.used + n <= c.cap {
        p := Some(c.base + c.used);
        live := live + [Block(c.base + c.used, n, head)];
        chunks := chunks[head := c.(used := c.used + n)];
        return;
      }
      if head + 1 >= |chunks| {
        chunks := chunks + [NewChunk(n, addr)];
      }
      head := head + 1;
      p := Some(chunks[head].base);
      live := live + [Block(chunks[head].base, n, head)];
      chunks := chunks[head := chunks[head].(used := n)];
    }

    method EndRequest()
      modifies this
      ensures Abs() == End(old(Abs()))
    {
      if chunks != [] {
        ClearAll();
      }
    }
  }
}
