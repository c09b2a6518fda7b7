/** The bounded worker pool of runtime/http.c: the connection queue, the workers, the accept loop and the
    graceful drain. Connections are numbered in the order they are accepted. */
module WorkerPool {
  import opened Wrappers

  const MAX_CONNECTIONS := 512

  datatype Worker = Idle | Handling(conn: nat) | Exited

  datatype Acceptor = AtTop | Accepting | Holding(conn: nat) | Left

  /** `queueLen` and `active` are the runtime's counters. The last five fields are history. `late` lists what
      was queued when no worker was left. */
  datatype State = State(queueCap: nat, queue: seq<nat>, queueLen: int, active: int, shutdown: bool,
                         workers: seq<Worker>, acceptor: Acceptor,
                         accepted: nat, enqueued: seq<nat>, started: seq<nat>, handled: seq<nat>, rejected: seq<nat>,
                         late: seq<nat>)

  function AllIdle(n: nat): (r: seq<Worker>)
    ensures |r| == n && forall i | 0 <= i < n :: r[i] == Idle
  {
    if n == 0 then [] else [Idle] + AllIdle(n - 1)
  }

  function Initial(queueCap: nat, n: nat): State {
    State(queueCap, [], 0, 0, false, AllIdle(n), AtTop, 0, [], [], [], [], [])
  }

  predicate AllExited(workers: seq<Worker>) {
    forall i | 0 <= i < |workers| :: workers[i] == Exited
  }

  /** The limits checked before a connection is queued. */
  predicate Full(queueLen: int, active: int, queueCap: int) {
    queueLen + active >= MAX_CONNECTIONS || queueLen >= queueCap
  }

  // ---------- One critical section, system call or flag test at a time ----------

  datatype Step =
    | CheckFlag
    | AcceptReturns
    | AcceptFails
    | Offer
    | SetShutdown
    | Take(w: nat)
    | Quit(w: nat)
    | Finish(w: nat)

  predicate Enabled(s: State, step: Step) {
    match step
    case CheckFlag => s.acceptor.AtTop?
    case AcceptReturns => s.acceptor.Accepting?
    case AcceptFails => s.acceptor.Accepting?
    case Offer => s.acceptor.Holding?
    case SetShutdown => true
    case Take(w) => w < |s.workers| && s.workers[w].Idle? && s.queue != []
    case Quit(w) => w < |s.workers| && s.workers[w].Idle? && s.queue == [] && s.shutdown
    case Finish(w) => w < |s.workers| && s.workers[w].Handling?
  }

  function Next(s: State, step: Step): State
    requires Enabled(s, step)
  {
    match step
    case CheckFlag => s.(acceptor := if s.shutdown then Left else Accepting)
    case AcceptReturns => s.(acceptor := Holding(s.accepted), accepted := s.accepted + 1)
    case AcceptFails => s.(acceptor := Left)
    case Offer =>
      var c := s.acceptor.conn;
      if Full(s.queueLen, s.active, s.queueCap) then s.(acceptor := AtTop, rejected := s.rejected + [c])
      else
        s.(acceptor := AtTop, queue := s.queue + [c], queueLen := s.queueLen + 1, enqueued := s.enqueued + [c],
           late := if AllExited(s.workers) then s.late + [c] else s.late)
    case SetShutdown => s.(shutdown := true)
    case Take(w) =>
      var c := s.queue[0];
      s.(queue := s.queue[1..], queueLen := s.queueLen - 1, active := s.active + 1,
         workers := s.workers[w := Handling(c)], started := s.started + [c])
    case Quit(w) => s.(workers := s.workers[w := Exited])
    case Finish(w) =>
      s.(active := s.active - 1, workers := s.workers[w := Idle], handled := s.handled + [s.workers[w].conn])
  }

  // ---------- What every reachable state keeps ----------

  function Handles(x: Worker, c: nat): nat {
    if x == Handling(c) then 1 else 0
  }

  function InFlight(workers: seq<Worker>, c: nat): nat {
    if workers == [] then 0 else Handles(workers[0], c) + InFlight(workers[1..], c)
  }

  function Busy(workers: seq<Worker>): nat {
    if workers == [] then 0 else (if workers[0].Handling? then 1 else 0) + Busy(workers[1..])
  }

  /** How often connection c is found, looking everywhere a connection can be. */
  function Places(s: State, c: nat): nat {
    (if s.acceptor == Holding(c) then 1 else 0) + multiset(s.queue)[c] + InFlight(s.workers, c)
    + multiset(s.handled)[c] + multiset(s.rejected)[c]
  }

  /** Each accepted connection is in exactly one place, once. */
  ghost predicate OnePlace(s: State) {
    forall c: nat :: Places(s, c) == if c < s.accepted then 1 else 0
  }

  ghost predicate CountersOk(s: State) {
    s.queueLen == |s.queue| && s.active == Busy(s.workers)
    && s.queueLen + s.active <= MAX_CONNECTIONS && s.queueLen <= s.queueCap
  }

  ghost predicate InOrder(s: State) {
    s.enqueued == s.started + s.queue
  }

  /** Once the last worker is gone the queue holds what came after, and nothing else. */
  ghost predicate DrainOk(s: State) {
    if AllExited(s.workers) then s.queue == s.late else s.late == []
  }

  ghost predicate Inv(s: State) {
    CountersOk(s) && OnePlace(s) && InOrder(s) && DrainOk(s)
  }

  lemma {:induction false} UpdateWorker(workers: seq<Worker>, w: nat, x: Worker, c: nat)
    requires w < |workers|
    ensures InFlight(workers[w := x], c) + Handles(workers[w], c) == InFlight(workers, c) + Handles(x, c)
    ensures Busy(workers[w := x]) + (if workers[w].Handling? then 1 else 0) == Busy(workers) + if x.Handling? then 1 else 0
  {
    if w == 0 {
      assert workers[w := x][1..] == workers[1..];
    } else {
      UpdateWorker(workers[1..], w - 1, x, c);
      assert workers[w := x][1..] == workers[1..][w - 1 := x];
    }
  }

  lemma {:induction false} NoneInFlight(workers: seq<Worker>, c: nat)
    requires forall i | 0 <= i < |workers| :: !workers[i].Handling?
    ensures InFlight(workers, c) == 0 && Busy(workers) == 0
  {
    if workers != [] {
      NoneInFlight(workers[1..], c);
    }
  }

  lemma {:induction false} InitialInv(queueCap: nat, n: nat)
    requires n > 0
    ensures Inv(Initial(queueCap, n))
  {
    forall c: nat ensures Places(Initial(queueCap, n), c) == 0 && Busy(AllIdle(n)) == 0 {
      NoneInFlight(AllIdle(n), c);
    }
    assert Places(Initial(queueCap, n), 0) == 0;
    assert !AllExited(AllIdle(n)) by { assert AllIdle(n)[0] == Idle; }
  }

  lemma {:induction false} HeadCount(q: seq<nat>, c: nat)
    requires q != []
    ensures multiset(q)[c] == multiset(q[1..])[c] + if q[0] == c then 1 else 0
  {
    assert q == [q[0]] + q[1..];
  }

  lemma {:induction false} LastCount(q: seq<nat>, x: nat, c: nat)
    ensures multiset(q + [x])[c] == multiset(q)[c] + if x == c then 1 else 0
  {
  }

  lemma {:induction false} OfferMoves(s: State, c: nat)
    requires Enabled(s, Offer)
    ensures Places(Next(s, Offer), c) == Places(s, c)
  {
    LastCount(s.queue, s.acceptor.conn, c);
    LastCount(s.rejected, s.acceptor.conn, c);
  }

  lemma {:induction false} TakeMoves(s: State, w: nat, c: nat)
    requires Enabled(s, Take(w))
    ensures Places(Next(s, Take(w)), c) == Places(s, c)
  {
    UpdateWorker(s.workers, w, Handling(s.queue[0]), c);
    HeadCount(s.queue, c);
  }

  lemma {:induction false} QuitMoves(s: State, w: nat, c: nat)
    requires Enabled(s, Quit(w))
    ensures Places(Next(s, Quit(w)), c) == Places(s, c)
  {
    UpdateWorker(s.workers, w, Exited, c);
  }

  lemma {:induction false} FinishMoves(s: State, w: nat, c: nat)
    requires Enabled(s, Finish(w))
    ensures Places(Next(s, Finish(w)), c) == Places(s, c)
  {
    UpdateWorker(s.workers, w, Idle, c);
    LastCount(s.handled, s.workers[w].conn, c);
  }

  /** A step moves a connection from one place to another; only accepting brings one in. */
  lemma {:induction false} StepMoves(s: State, step: Step, c: nat)
    requires Enabled(s, step)
    ensures Places(Next(s, step), c) == Places(s, c) + if step.AcceptReturns? && c == s.accepted then 1 else 0
  {
    match step {
      case Offer => OfferMoves(s, c);
      case Take(w) => TakeMoves(s, w, c);
      case Quit(w) => QuitMoves(s, w, c);
      case Finish(w) => FinishMoves(s, w, c);
      case _ =>
    }
  }

  lemma {:induction false} StepCounts(s: State, step: Step)
    requires CountersOk(s) && Enabled(s, step)
    ensures CountersOk(Next(s, step))
  {
    match step {
      case Take(w) => UpdateWorker(s.workers, w, Handling(s.queue[0]), 0);
      case Quit(w) => UpdateWorker(s.workers, w, Exited, 0);
      case Finish(w) => UpdateWorker(s.workers, w, Idle, 0);
      case _ =>
    }
  }

  lemma {:induction false} StepOrder(s: State, step: Step)
    requires InOrder(s) && Enabled(s, step)
    ensures InOrder(Next(s, step))
  {
    if step.Take? {
      assert s.queue == [s.queue[0]] + s.queue[1..];
    }
  }

  lemma {:induction false} StepDrains(s: State, step: Step)
    requires DrainOk(s) && Enabled(s, step)
    ensures DrainOk(Next(s, step))
  {
    var t := Next(s, step);
    match step {
      case Take(w) => assert t.workers[w] != Exited && s.workers[w] != Exited;
      case Quit(w) => assert s.workers[w] != Exited;
      case Finish(w) => assert t.workers[w] != Exited && s.workers[w] != Exited;
      case _ =>
    }
  }

  lemma {:induction false} StepKeeps(s: State, step: Step)
    requires Inv(s) && Enabled(s, step)
    ensures Inv(Next(s, step))
  {
    var t := Next(s, step);
    StepCounts(s, step);
    StepOrder(s, step);
    StepDrains(s, step);
    forall c: nat ensures Places(t, c) == if c < t.accepted then 1 else 0 {
      StepMoves(s, step, c);
      assert Places(s, c) == if c < s.accepted then 1 else 0;
    }
  }

  ghost predicate AllEnabled(s: State, steps: seq<Step>)
    decreases |steps|
  {
    steps == [] || (Enabled(s, steps[0]) && AllEnabled(Next(s, steps[0]), steps[1..]))
  }

  ghost function Run(s: State, steps: seq<Step>): State
    requires AllEnabled(s, steps)
    decreases |steps|
  {
    if steps == [] then s else Run(Next(s, steps[0]), steps[1..])
  }

  lemma {:induction false} RunsKeep(s: State, steps: seq<Step>)
    requires Inv(s) && AllEnabled(s, steps)
    ensures Inv(Run(s, steps)) && |Run(s, steps).workers| == |s.workers|
    decreases |steps|
  {
    if steps != [] {
      StepKeeps(s, steps[0]);
      RunsKeep(Next(s, steps[0]), steps[1..]);
    }
  }

  // ---------- The drain ----------

  ghost predicate Answered(s: State, c: nat) {
    c in s.handled || c in s.rejected
  }

  /** When all workers are gone and the accept loop holds nothing, every accepted connection was handled or
      refused if and only if none was queued after the last worker left. */
  lemma {:induction false} DrainedExactly(queueCap: nat, n: nat, steps: seq<Step>)
    requires n > 0 && AllEnabled(Initial(queueCap, n), steps)
    requires
      var s := Run(Initial(queueCap, n), steps);
      AllExited(s.workers) && !s.acceptor.Holding?
    ensures
      var s := Run(Initial(queueCap, n), steps);
      (forall c | 0 <= c < s.accepted :: Answered(s, c)) <==> s.late == []
  {
    InitialInv(queueCap, n);
    RunsKeep(Initial(queueCap, n), steps);
    var s := Run(Initial(queueCap, n), steps);
    forall c: nat | c < s.accepted ensures Answered(s, c) <==> c !in s.queue {
      NoneInFlight(s.workers, c);
      assert Places(s, c) == 1;
    }
    if s.late != [] {
      var c := s.queue[0];
      assert Places(s, c) > 0;
      assert c < s.accepted && !Answered(s, c);
    }
  }

  /** A run that queues nothing while the flag is set. */
  ghost predicate NoneQueuedLate(s: State, steps: seq<Step>)
    requires AllEnabled(s, steps)
    decreases |steps|
  {
    steps == []
    || ((steps[0].Offer? ==> !s.shutdown || Full(s.queueLen, s.active, s.queueCap))
        && NoneQueuedLate(Next(s, steps[0]), steps[1..]))
  }

  lemma {:induction false} NothingLate(s: State, steps: seq<Step>)
    requires Inv(s) && AllEnabled(s, steps) && NoneQueuedLate(s, steps) && s.late == []
    requires |s.workers| > 0 && (forall i | 0 <= i < |s.workers| :: s.workers[i] == Exited ==> s.shutdown)
    ensures Run(s, steps).late == []
    decreases |steps|
  {
    if steps != [] {
      var t := Next(s, steps[0]);
      StepKeeps(s, steps[0]);
      assert s.workers[0] == Exited ==> s.shutdown;
      NothingLate(t, steps[1..]);
    }
  }

  /** The graceful drain. */
  lemma {:induction false} GracefulDrain(queueCap: nat, n: nat, steps: seq<Step>)
    requires n > 0 && AllEnabled(Initial(queueCap, n), steps) && NoneQueuedLate(Initial(queueCap, n), steps)
    requires
      var s := Run(Initial(queueCap, n), steps);
      AllExited(s.workers) && !s.acceptor.Holding?
    ensures
      var s := Run(Initial(queueCap, n), steps);
      forall c | 0 <= c < s.accepted :: Answered(s, c)
  {
    InitialInv(queueCap, n);
    NothingLate(Initial(queueCap, n), steps);
    DrainedExactly(queueCap, n, steps);
  }

  /** In every reachable state: each accepted connection is waiting to be queued, queued, in a worker's hands,
      handled or refused, and only one of these; workers start connections in the order they were queued; the
      counters are right and within the limits. */
  lemma {:induction false} EveryRun(queueCap: nat, n: nat, steps: seq<Step>)
    requires n > 0 && AllEnabled(Initial(queueCap, n), steps)
    ensures
      var s := Run(Initial(queueCap, n), steps);
      (forall c: nat :: Places(s, c) == if c < s.accepted then 1 else 0)
      && s.started <= s.enqueued && s.enqueued[|s.started|..] == s.queue
      && s.queueLen == |s.queue| && s.active == Busy(s.workers)
      && s.queueLen + s.active <= MAX_CONNECTIONS && s.queueLen <= s.queueCap
  {
    InitialInv(queueCap, n);
    RunsKeep(Initial(queueCap, n), steps);
  }

  lemma {:induction false} Begin(s: State, step: Step, rest: seq<Step>)
    requires Enabled(s, step) && AllEnabled(Next(s, step), rest)
    ensures AllEnabled(s, [step] + rest) && Run(s, [step] + rest) == Run(Next(s, step), rest)
  {
    assert ([step] + rest)[1..] == rest;
  }

  /** The accept loop tests the flag only before it accepts: a connection accepted as the flag goes up can be
      queued after the only worker has left, and is never answered. */
  lemma {:induction false} QueuedTooLate()
    ensures
      var steps := [CheckFlag, AcceptReturns, SetShutdown, Quit(0), Offer];
      AllEnabled(Initial(8, 1), steps)
      && var s := Run(Initial(8, 1), steps); AllExited(s.workers) && s.acceptor.AtTop? && s.accepted == 1 && !Answered(s, 0)
  {
    var s0 := Initial(8, 1);
    assert s0.workers == [Idle];
    var s1 := Next(s0, CheckFlag);
    var s2 := Next(s1, AcceptReturns);
    var s3 := Next(s2, SetShutdown);
    var s4 := Next(s3, Quit(0));
    Begin(s4, Offer, []);
    Begin(s3, Quit(0), [Offer]);
    Begin(s2, SetShutdown, [Quit(0)] + [Offer]);
    Begin(s1, AcceptReturns, [SetShutdown] + ([Quit(0)] + [Offer]));
    Begin(s0, CheckFlag, [AcceptReturns] + ([SetShutdown] + ([Quit(0)] + [Offer])));
    assert [CheckFlag] + ([AcceptReturns] + ([SetShutdown] + ([Quit(0)] + [Offer])))
           == [CheckFlag, AcceptReturns, SetShutdown, Quit(0), Offer];
  }

  // ---------- The queue itself ----------

  class QueueItem {
    const fd: nat
    var next: QueueItem?

    constructor (fd: nat)
      ensures this.fd == fd && next == null
    {
      this.fd := fd;
      next := null;
    }
  }

  ghost function Fds(items: seq<QueueItem>): (r: seq<nat>)
    ensures |r| == |items| && forall i | 0 <= i < |items| :: r[i] == items[i].fd
  {
    if items == [] then [] else [items[0].fd] + Fds(items[1..])
  }

  /** What a worker finds when it looks for work. */
  datatype Work = Wait | Leave | Job(fd: nat)

  class Pool {
    var head: QueueItem?
    var tail: QueueItem?
    var queueLen: int
    const queueCap: int
    var active: int
    var shutdown: bool
    ghost var items: seq<QueueItem>

    ghost predicate Valid()
      reads this, items
    {
      queueLen == |items|
      && (items == [] ==> head == null && tail == null)
      && (items != [] ==> head == items[0] && tail == items[|items| - 1] && items[|items| - 1].next == null)
      && (forall i | 0 <= i < |items| - 1 :: items[i].next == items[i + 1])
      && forall i, j | 0 <= i < j < |items| :: items[i] != items[j]
    }

    ghost function Contents(): seq<nat>
      reads this
    {
      Fds(items)
    }

    constructor (cap: int)
      ensures Valid() && Contents() == [] && active == 0 && !shutdown && queueCap == if cap < 8 then 8 else cap
    {
      head, tail, queueLen, active, shutdown := null, null, 0, 0, false;
      queueCap := if cap < 8 then 8 else cap;
      items := [];
    }

    /** False: the connection is refused at once. */
    method Enqueue(fd: nat) returns (ok: bool)
      requires Valid()
      modifies this, items
      ensures Valid() && ok == !Full(old(queueLen), old(active), queueCap)
      ensures Contents() == if ok then old(Contents()) + [fd] else old(Contents())
      ensures active == old(active) && shutdown == old(shutdown)
      ensures forall x | x in items :: x in old(items) || fresh(x)
    {
      if queueLen + active >= MAX_CONNECTIONS || queueLen >= queueCap {
        return false;
      }
      var item := new QueueItem(fd);
      if tail != null {
        tail.next := item;
      } else {
        head := item;
      }
      tail := item;
      queueLen := queueLen + 1;
      items := items + [item];
      ok := true;
    }

    method TakeWork() returns (work: Work)
      requires Valid()
      modifies this
      ensures Valid() && shutdown == old(shutdown)
      ensures work.Job? <==> old(Contents()) != []
      ensures work.Leave? <==> old(Contents()) == [] && shutdown
      ensures work.Job? ==>
                work.fd == old(Contents())[0] && Contents() == old(Contents())[1..] && active == old(active) + 1
      ensures !work.Job? ==> Contents() == old(Contents()) && active == old(active)
      ensures forall x | x in items :: x in old(items)
    {
      if head == null {
        return if shutdown then Leave else Wait;
      }
      work := Job(head.fd);
      head := head.next;
      if head == null {
        tail := null;
      }
      queueLen := queueLen - 1;
      active := active + 1;
      items := items[1..];
    }

    /** True: the last connection is done and nothing is queued. */
    method Done() returns (drained: bool)
      requires Valid()
      modifies this`active
      ensures Valid() && active == old(active) - 1 && Contents() == old(Contents())
      ensures drained <==> active == 0 && Contents() == []
    {
      active := active - 1;
      drained := active == 0 && queueLen == 0;
    }
  }
}
