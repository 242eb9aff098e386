/**
 The task dispatch protocol of the runner: one poll thread, a counting semaphore, a work queue
 guarded by a mutex with a condition variable, a fixed pool of workers, and the stop/join shutdown.

 Every thread is a program counter and every step is one atomic action of the source.  A run is
 any sequence of steps; a step that is not enabled leaves the state as it is, so quantifying over
 all step sequences quantifies over all interleavings, timeouts, spurious wake-ups and server
 answers.
 */
module Poller {
  import Fairness

  /** The n-th task handed out by the server; distinct fetches get distinct tickets. */
  type Ticket = nat

  /** Where a pool worker is inside its loop. */
  datatype WorkerPc =
    | WLock                  // about to lock the work mutex
    | WTest                  // holds the mutex, about to evaluate the wait predicate
    | WSleep                 // holds the mutex, predicate was false, about to release it and block
    | WBlocked               // in the wait set of the condition variable
    | WTake                  // holds the mutex, predicate was true
    | WItem(task: Ticket)    // popped a task, mutex released
    | WRun(task: Ticket)     // counted as active, executing
    | WRelease(task: Ticket) // execution over, about to release its permit
    | WFinish(task: Ticket)  // permit released, about to leave the active count
    | WExit

  datatype PollPc =
    | PCheck                              // head of the polling loop
    | PFetch                              // inside FetchTask
    | PWant(task: Ticket)                 // head of the loop that acquires a permit
    | PTry(task: Ticket)                  // inside try_acquire_for
    | PDecide(task: Ticket, permit: bool) // after that loop, re-reading the shutdown flag
    | PLock(task: Ticket)
    | PPush(task: Ticket)                 // holds the mutex
    | PNotify                             // holds the mutex, about to notify one worker
    | PExit

  datatype JoinPc = JIdle | JPoll | JActive | JStore | JLock | JDrain | JNotify | JWorkers | JDone

  datatype Owner = Free | ByWorker(id: nat) | ByPoll | ByJoin

  datatype State = State(
    capacity: nat,
    permits: int,              // free permits of the semaphore
    shutdown: bool,
    mutex: Owner,
    queue: seq<Ticket>,
    workers: seq<WorkerPc>,
    poll: PollPc,
    join: JoinPc,
    stoppers: nat,             // stop() calls that have set the flag and not yet notified
    active: int,
    fetched: nat,              // tickets handed out so far
    dispatched: seq<Ticket>,   // pushed on the queue, in order
    executed: seq<Ticket>,     // ran to their end, in order
    discarded: seq<Ticket>,    // removed from the queue by join
    dropped: nat)              // permits that nobody will release again

  datatype Step =
    | StopStore
    | StopNotify
    | Poll(answered: bool, woken: nat)
    | Work(id: nat)
    | Spurious(id: nat)
    | JoinCall
    | JoinStep

  const MAX_PERMITS := 16

  function Capacity(configured: int): (c: nat)
    ensures 1 <= c <= MAX_PERMITS
    ensures c == configured || (c == 1 && !(1 <= configured <= MAX_PERMITS))
    ensures 1 <= configured <= MAX_PERMITS ==> c == configured
  {
    if 0 < configured <= MAX_PERMITS then configured else 1
  }

  /** The state start() leaves: every thread created, none has run yet. */
  function Init(configured: int): (s: State) {
    var c := Capacity(configured);
    State(c, c, false, Free, [], seq(c, _ => WLock), PCheck, JIdle, 0, 0, 0, [], [], [], 0)
  }

  predicate Critical(pc: WorkerPc) { pc.WTest? || pc.WSleep? || pc.WTake? }

  /** Popped a task and has not given its permit back. */
  predicate Holding(pc: WorkerPc) { pc.WItem? || pc.WRun? || pc.WRelease? }

  /** Awake and on the way to look at the queue. */
  predicate Seeking(pc: WorkerPc) { pc.WLock? || pc.WTest? || pc.WTake? }

  predicate Counted(pc: WorkerPc) { pc.WRun? || pc.WRelease? || pc.WFinish? }

  function Count(ws: seq<WorkerPc>, p: WorkerPc -> bool): (n: nat)
    ensures n <= |ws|
  {
    if ws == [] then 0 else Count(ws[..|ws| - 1], p) + if p(ws[|ws| - 1]) then 1 else 0
  }

  /** How many workers have popped task t and not yet executed it. */
  function InHand(ws: seq<WorkerPc>, t: Ticket): (n: nat) {
    if ws == [] then 0
    else InHand(ws[..|ws| - 1], t) + if Has(ws[|ws| - 1], t) then 1 else 0
  }

  predicate Has(pc: WorkerPc, t: Ticket) { (pc.WItem? || pc.WRun?) && pc.task == t }

  predicate SomeoneBlocked(s: State) {
    exists i :: 0 <= i < |s.workers| && s.workers[i].WBlocked?
  }

  function Wake(pc: WorkerPc): WorkerPc { if pc.WBlocked? then WLock else pc }

  function WakeAll(ws: seq<WorkerPc>): (r: seq<WorkerPc>)
    ensures |r| == |ws|
    ensures forall i :: 0 <= i < |ws| ==> r[i] == Wake(ws[i])
  {
    seq(|ws|, i requires 0 <= i < |ws| => Wake(ws[i]))
  }

  function Work1(s: State, i: nat): State
    requires i < |s.workers|
  {
    match s.workers[i]
    case WLock => if s.mutex.Free? then s.(workers := s.workers[i := WTest], mutex := ByWorker(i)) else s
    case WTest => s.(workers := s.workers[i := if s.shutdown || s.queue != [] then WTake else WSleep])
    case WSleep => s.(workers := s.workers[i := WBlocked], mutex := Free)
    case WBlocked => s
    case WTake =>
      if s.shutdown && s.queue == [] then s.(workers := s.workers[i := WExit], mutex := Free)
      else if s.queue != [] then
        s.(workers := s.workers[i := WItem(s.queue[0])], queue := s.queue[1..], mutex := Free)
      else s.(workers := s.workers[i := WLock], mutex := Free)
    case WItem(t) => s.(workers := s.workers[i := WRun(t)], active := s.active + 1)
    case WRun(t) => s.(workers := s.workers[i := WRelease(t)], executed := s.executed + [t])
    case WRelease(t) => s.(workers := s.workers[i := WFinish(t)], permits := s.permits + 1)
    case WFinish(_) => s.(workers := s.workers[i := WLock], active := s.active - 1)
    case WExit => s
  }

  /** One step of the poll thread.  The answer says whether FetchTask returned a task and whether
      try_acquire_for got a permit in time; the worker is the one notify_one picks. */
  function Poll1(s: State, answered: bool, woken: nat): State {
    match s.poll
    case PCheck => s.(poll := if s.shutdown then PExit else PFetch)
    case PFetch =>
      if answered then s.(poll := PWant(s.fetched), fetched := s.fetched + 1) else s.(poll := PCheck)
    case PWant(t) => s.(poll := if s.shutdown then PDecide(t, false) else PTry(t))
    case PTry(t) =>
      if answered && s.permits > 0 then s.(poll := PDecide(t, true), permits := s.permits - 1)
      else s.(poll := PWant(t))
    case PDecide(t, permit) =>
      if s.shutdown then s.(poll := PExit, dropped := s.dropped + if permit then 1 else 0)
      else s.(poll := PLock(t))
    case PLock(t) => if s.mutex.Free? then s.(poll := PPush(t), mutex := ByPoll) else s
    case PPush(t) => s.(poll := PNotify, queue := s.queue + [t], dispatched := s.dispatched + [t])
    case PNotify =>
      if woken < |s.workers| && s.workers[woken].WBlocked? then
        s.(poll := PCheck, mutex := Free, workers := s.workers[woken := WLock])
      else if SomeoneBlocked(s) then s
      else s.(poll := PCheck, mutex := Free)
    case PExit => s
  }

  /** One step of join(); the wait for active tasks may time out, so it never blocks. */
  function Join1(s: State): State {
    match s.join
    case JIdle => s
    case JPoll => if s.poll.PExit? then s.(join := JActive) else s
    case JActive => s.(join := JStore)
    case JStore => s.(join := JLock, shutdown := true)
    case JLock => if s.mutex.Free? then s.(join := JDrain, mutex := ByJoin) else s
    case JDrain =>
      s.(join := JNotify, mutex := Free, queue := [], discarded := s.discarded + s.queue,
         dropped := s.dropped + |s.queue|)
    case JNotify => s.(join := JWorkers, workers := WakeAll(s.workers))
    case JWorkers => if forall i :: 0 <= i < |s.workers| ==> s.workers[i].WExit? then s.(join := JDone) else s
    case JDone => s
  }

  function Apply(s: State, step: Step): State {
    match step
    case StopStore => s.(shutdown := true, stoppers := s.stoppers + 1)
    case StopNotify =>
      if s.stoppers > 0 then s.(stoppers := s.stoppers - 1, workers := WakeAll(s.workers)) else s
    case Poll(answered, woken) => Poll1(s, answered, woken)
    case Work(i) => if i < |s.workers| then Work1(s, i) else s
    case Spurious(i) =>
      if i < |s.workers| && s.workers[i].WBlocked? then s.(workers := s.workers[i := WLock]) else s
    case JoinCall => if s.join.JIdle? then s.(join := JPoll) else s
    case JoinStep => Join1(s)
  }

  function Run(s: State, steps: seq<Step>): State {
    if steps == [] then s else Apply(Run(s, steps[..|steps| - 1]), steps[|steps| - 1])
  }

  // ----- counting ------------------------------------------------------------------------------

  function Bit(b: bool): nat { if b then 1 else 0 }

  /** How often t occurs in q. */
  function Occ(q: seq<Ticket>, t: Ticket): nat {
    if q == [] then 0 else Bit(q[0] == t) + Occ(q[1..], t)
  }

  lemma {:induction false} OccConcat(q: seq<Ticket>, r: seq<Ticket>, t: Ticket)
    ensures Occ(q + r, t) == Occ(q, t) + Occ(r, t)
  {
    if q == [] {
      assert q + r == r;
    } else {
      OccConcat(q[1..], r, t);
      assert (q + r)[1..] == q[1..] + r;
    }
  }

  lemma {:induction false} CountUpdate(ws: seq<WorkerPc>, i: nat, pc: WorkerPc, p: WorkerPc -> bool)
    requires i < |ws|
    ensures Count(ws[i := pc], p) == Count(ws, p) - Bit(p(ws[i])) + Bit(p(pc))
  {
    var n := |ws| - 1;
    if i < n {
      CountUpdate(ws[..n], i, pc, p);
      assert ws[i := pc][..n] == ws[..n][i := pc];
    } else {
      assert ws[i := pc][..n] == ws[..n];
    }
  }

  lemma {:induction false} InHandUpdate(ws: seq<WorkerPc>, i: nat, pc: WorkerPc, t: Ticket)
    requires i < |ws|
    ensures InHand(ws[i := pc], t) == InHand(ws, t) - Bit(Has(ws[i], t)) + Bit(Has(pc, t))
  {
    var n := |ws| - 1;
    if i < n {
      InHandUpdate(ws[..n], i, pc, t);
      assert ws[i := pc][..n] == ws[..n][i := pc];
    } else {
      assert ws[i := pc][..n] == ws[..n];
    }
  }

  lemma {:induction false} CountWakeAll(ws: seq<WorkerPc>, t: Ticket)
    ensures Count(WakeAll(ws), Holding) == Count(ws, Holding)
    ensures Count(WakeAll(ws), Counted) == Count(ws, Counted)
    ensures InHand(WakeAll(ws), t) == InHand(ws, t)
  {
    if ws != [] {
      var n := |ws| - 1;
      CountWakeAll(ws[..n], t);
      assert WakeAll(ws)[..n] == WakeAll(ws[..n]);
    }
  }

  lemma {:induction false} CountFresh(n: nat, t: Ticket)
    ensures Count(seq(n, _ => WLock), Holding) == 0
    ensures Count(seq(n, _ => WLock), Counted) == 0
    ensures InHand(seq(n, _ => WLock), t) == 0
  {
    if n > 0 {
      CountFresh(n - 1, t);
      assert seq(n, _ => WLock)[..n - 1] == seq(n - 1, _ => WLock);
    }
  }

  // ----- the invariant --------------------------------------------------------------------------

  /** Who is inside a critical section is who owns the mutex. */
  ghost predicate MutexOwned(s: State) {
    && (forall i :: 0 <= i < |s.workers| ==> (Critical(s.workers[i]) <==> s.mutex == ByWorker(i)))
    && (s.mutex.ByWorker? ==> s.mutex.id < |s.workers|)
    && (s.mutex == ByPoll <==> s.poll.PPush? || s.poll.PNotify?)
    && (s.mutex == ByJoin <==> s.join.JDrain?)
  }

  predicate Drained(j: JoinPc) { j.JNotify? || j.JWorkers? || j.JDone? }

  predicate Notified(j: JoinPc) { j.JWorkers? || j.JDone? }

  /** What the shutdown flag and join's progress imply for one worker. */
  ghost predicate WorkerPhase(s: State, pc: WorkerPc) {
    && (pc.WExit? ==> s.shutdown)
    && (pc.WSleep? ==> s.queue == [] && !Drained(s.join))
    && (pc.WBlocked? ==> !Notified(s.join))
    && (s.join.JDone? ==> pc.WExit?)
  }

  /** ... and for the poll thread and the queue. */
  ghost predicate Phases(s: State) {
    && (s.poll.PDecide? && !s.poll.permit ==> s.shutdown)
    && (s.poll.PExit? ==> s.shutdown)
    && (!s.join.JIdle? && !s.join.JPoll? ==> s.poll.PExit?)
    && (Drained(s.join) ==> s.queue == [])
    && (s.discarded != [] ==> Drained(s.join))
    && (forall i :: 0 <= i < |s.workers| ==> WorkerPhase(s, s.workers[i]))
  }

  function PollPermit(p: PollPc): nat {
    if (p.PDecide? && p.permit) || p.PLock? || p.PPush? then 1 else 0
  }

  /** Every place a permit can be. */
  function Permits(s: State): int {
    s.permits + PollPermit(s.poll) + |s.queue| + Count(s.workers, Holding) + s.dropped
  }

  /** No permit is created or lost. */
  ghost predicate Conserved(s: State) {
    && |s.workers| == s.capacity <= MAX_PERMITS
    && 0 <= s.permits
    && Permits(s) == s.capacity
    && s.active == Count(s.workers, Counted)
  }

  /** How often task t was dispatched, and how often it is in one of the places a dispatched task
      can be. */
  function Sent(s: State, t: Ticket): nat { Occ(s.dispatched, t) }

  function Found(s: State, t: Ticket): nat {
    Occ(s.queue, t) + InHand(s.workers, t) + Occ(s.executed, t) + Occ(s.discarded, t)
  }

  ghost predicate Accounted(s: State) {
    forall t :: Found(s, t) == Sent(s, t)
  }

  ghost predicate Below(q: seq<Ticket>, bound: nat) {
    forall t :: t in q ==> t < bound
  }

  ghost predicate Ascending(q: seq<Ticket>) {
    forall i, j :: 0 <= i < j < |q| ==> q[i] < q[j]
  }

  /** No ticket is dispatched twice. */
  ghost predicate Tickets(s: State) {
    && Ascending(s.dispatched)
    && Below(s.dispatched, s.fetched)
    && ((s.poll.PWant? || s.poll.PTry? || s.poll.PDecide? || s.poll.PLock? || s.poll.PPush?) ==>
          s.poll.task < s.fetched && Below(s.dispatched, s.poll.task))
  }

  /** A worker sleeps only while enough others are awake for all queued tasks. */
  ghost predicate Awake(s: State) {
    SomeoneBlocked(s) ==> |s.queue| <= Count(s.workers, Seeking) + Bit(s.poll.PNotify?)
  }

  ghost predicate Inv(s: State) {
    MutexOwned(s) && Phases(s) && Conserved(s) && Accounted(s) && Tickets(s) && Awake(s)
  }

  lemma InitInv(configured: int)
    ensures Inv(Init(configured))
  {
    var s := Init(configured);
    forall t ensures Found(s, t) == Sent(s, t) {
      CountFresh(s.capacity, t);
    }
    CountFresh(s.capacity, 0);
  }

  // ----- a worker's step -------------------------------------------------------------------------

  lemma WorkMutex(s: State, i: nat)
    requires MutexOwned(s) && i < |s.workers|
    ensures MutexOwned(Work1(s, i))
  {
  }

  lemma WorkPhases(s: State, i: nat)
    requires MutexOwned(s) && Phases(s) && i < |s.workers|
    ensures Phases(Work1(s, i))
  {
  }

  lemma WorkTickets(s: State, i: nat)
    requires Tickets(s) && i < |s.workers|
    ensures Tickets(Work1(s, i))
  {
  }

  lemma WorkPermits(s: State, i: nat)
    requires i < |s.workers|
    ensures Permits(Work1(s, i)) == Permits(s) && s.permits <= Work1(s, i).permits
  {
    var ws, pc := s.workers, Work1(s, i).workers[i];
    CountUpdate(ws, i, pc, Holding);
    assert Work1(s, i).workers == ws[i := pc];
  }

  lemma WorkActive(s: State, i: nat)
    requires i < |s.workers|
    ensures Work1(s, i).active - Count(Work1(s, i).workers, Counted) == s.active - Count(s.workers, Counted)
    ensures |Work1(s, i).workers| == |s.workers| && Work1(s, i).capacity == s.capacity
  {
    var ws, pc := s.workers, Work1(s, i).workers[i];
    CountUpdate(ws, i, pc, Counted);
    assert Work1(s, i).workers == ws[i := pc];
  }

  lemma TakeFound(s: State, i: nat, t: Ticket)
    requires i < |s.workers| && s.workers[i].WTake?
    ensures Found(Work1(s, i), t) == Found(s, t)
  {
    InHandUpdate(s.workers, i, Work1(s, i).workers[i], t);
  }

  lemma RunFound(s: State, i: nat, t: Ticket)
    requires i < |s.workers| && s.workers[i].WRun?
    ensures Found(Work1(s, i), t) == Found(s, t)
  {
    InHandUpdate(s.workers, i, WRelease(s.workers[i].task), t);
    OccConcat(s.executed, [s.workers[i].task], t);
  }

  lemma WorkFound(s: State, i: nat, t: Ticket)
    requires i < |s.workers|
    ensures Found(Work1(s, i), t) == Found(s, t)
  {
    if s.workers[i].WTake? {
      TakeFound(s, i, t);
    } else if s.workers[i].WRun? {
      RunFound(s, i, t);
    } else {
      var s' := Work1(s, i);
      InHandUpdate(s.workers, i, s'.workers[i], t);
      assert s'.workers == s.workers[i := s'.workers[i]];
      assert s'.executed == s.executed && s'.queue == s.queue && s'.discarded == s.discarded;
    }
  }

  lemma WorkAccounted(s: State, i: nat)
    requires Accounted(s) && i < |s.workers|
    ensures Accounted(Work1(s, i))
  {
    forall t ensures Found(Work1(s, i), t) == Sent(Work1(s, i), t) {
      WorkFound(s, i, t);
      assert Found(s, t) == Sent(s, t);
      assert Work1(s, i).dispatched == s.dispatched;
    }
  }

  lemma WorkAwake(s: State, i: nat)
    requires MutexOwned(s) && Phases(s) && Awake(s) && i < |s.workers|
    ensures Awake(Work1(s, i))
  {
    if s.workers[i].WTake? {
      TakeAwake(s, i);
    } else if s.workers[i].WSleep? {
      SleepAwake(s, i);
    } else {
      MoveAwake(s, i);
    }
  }

  lemma WokenStays(s: State, s': State)
    requires Awake(s) && |s'.workers| == |s.workers| && s'.poll == s.poll
    requires forall i :: 0 <= i < |s.workers| && s'.workers[i].WBlocked? ==> s.workers[i].WBlocked?
    requires |s'.queue| - Count(s'.workers, Seeking) <= |s.queue| - Count(s.workers, Seeking)
    ensures Awake(s')
  {
  }

  lemma TakeAwake(s: State, i: nat)
    requires Awake(s) && i < |s.workers| && s.workers[i].WTake?
    ensures Awake(Work1(s, i))
  {
    var s' := Work1(s, i);
    CountUpdate(s.workers, i, s'.workers[i], Seeking);
    if s.queue != [] {
      WokenStays(s, s');
    }
  }

  lemma SleepAwake(s: State, i: nat)
    requires Phases(s) && i < |s.workers| && s.workers[i].WSleep?
    ensures Awake(Work1(s, i))
  {
    assert WorkerPhase(s, s.workers[i]);
  }

  lemma AwakeUpdate(s: State, s': State, i: nat, pc: WorkerPc)
    requires Awake(s) && i < |s.workers| && s'.workers == s.workers[i := pc] && s'.queue == s.queue && s'.poll == s.poll
    requires !pc.WBlocked? && (Seeking(s.workers[i]) && !Seeking(pc) ==> s.queue == [])
    ensures Awake(s')
  {
    CountUpdate(s.workers, i, pc, Seeking);
    if !(Seeking(s.workers[i]) && !Seeking(pc)) {
      WokenStays(s, s');
    }
  }

  lemma MoveAwake(s: State, i: nat)
    requires Awake(s) && i < |s.workers| && !s.workers[i].WTake? && !s.workers[i].WSleep?
    ensures Awake(Work1(s, i))
  {
    if !s.workers[i].WBlocked? {
      AwakeUpdate(s, Work1(s, i), i, Work1(s, i).workers[i]);
    }
  }

  lemma WorkKeeps(s: State, i: nat)
    requires Inv(s) && i < |s.workers|
    ensures Inv(Work1(s, i))
  {
    WorkMutex(s, i);
    WorkPhases(s, i);
    WorkPermits(s, i);
    WorkActive(s, i);
    WorkAccounted(s, i);
    WorkTickets(s, i);
    WorkAwake(s, i);
  }

  // ----- the poll thread's step ------------------------------------------------------------------

  lemma PollMutex(s: State, answered: bool, woken: nat)
    requires MutexOwned(s)
    ensures MutexOwned(Poll1(s, answered, woken))
  {
  }

  lemma PollPhases(s: State, answered: bool, woken: nat)
    requires MutexOwned(s) && Phases(s)
    ensures Phases(Poll1(s, answered, woken))
  {
  }

  lemma PollPermits(s: State, answered: bool, woken: nat)
    requires Phases(s) && 0 <= s.permits
    ensures Permits(Poll1(s, answered, woken)) == Permits(s) && 0 <= Poll1(s, answered, woken).permits
  {
    if woken < |s.workers| && s.workers[woken].WBlocked? {
      CountUpdate(s.workers, woken, WLock, Holding);
    }
  }

  lemma PollConserved(s: State, answered: bool, woken: nat)
    requires Phases(s) && Conserved(s)
    ensures Conserved(Poll1(s, answered, woken))
  {
    PollPermits(s, answered, woken);
    PollActive(s, answered, woken);
  }

  lemma PollActive(s: State, answered: bool, woken: nat)
    ensures Count(Poll1(s, answered, woken).workers, Counted) == Count(s.workers, Counted)
    ensures var s' := Poll1(s, answered, woken);
            |s'.workers| == |s.workers| && s'.active == s.active && s'.capacity == s.capacity
  {
    if woken < |s.workers| && s.workers[woken].WBlocked? {
      CountUpdate(s.workers, woken, WLock, Counted);
    }
  }

  lemma PushFound(s: State, answered: bool, woken: nat, t: Ticket)
    requires s.poll.PPush?
    ensures Found(Poll1(s, answered, woken), t) - Sent(Poll1(s, answered, woken), t) == Found(s, t) - Sent(s, t)
  {
    OccConcat(s.queue, [s.poll.task], t);
    OccConcat(s.dispatched, [s.poll.task], t);
  }

  lemma PollFound(s: State, answered: bool, woken: nat, t: Ticket)
    ensures Found(Poll1(s, answered, woken), t) - Sent(Poll1(s, answered, woken), t) == Found(s, t) - Sent(s, t)
  {
    if s.poll.PPush? {
      PushFound(s, answered, woken, t);
    } else {
      SameFound(s, Poll1(s, answered, woken), woken, t);
    }
  }

  lemma SameFound(s: State, s': State, woken: nat, t: Ticket)
    requires s'.queue == s.queue && s'.dispatched == s.dispatched && s'.executed == s.executed && s'.discarded == s.discarded
    requires s'.workers == s.workers || (woken < |s.workers| && s.workers[woken].WBlocked? && s'.workers == s.workers[woken := WLock])
    ensures Found(s', t) == Found(s, t) && Sent(s', t) == Sent(s, t)
  {
    if s'.workers != s.workers {
      InHandUpdate(s.workers, woken, WLock, t);
    }
  }

  lemma PollAccounted(s: State, answered: bool, woken: nat)
    requires Accounted(s)
    ensures Accounted(Poll1(s, answered, woken))
  {
    var s' := Poll1(s, answered, woken);
    forall t ensures Found(s', t) == Sent(s', t) {
      PollFound(s, answered, woken, t);
      assert Found(s, t) == Sent(s, t);
    }
  }

  lemma AscendingAppend(q: seq<Ticket>, t: Ticket)
    requires Ascending(q) && Below(q, t)
    ensures Ascending(q + [t]) && Below(q + [t], t + 1)
  {
    assert forall i :: 0 <= i < |q| ==> q[i] in q;
  }

  lemma PollTickets(s: State, answered: bool, woken: nat)
    requires Tickets(s)
    ensures Tickets(Poll1(s, answered, woken))
  {
    if s.poll.PPush? {
      AscendingAppend(s.dispatched, s.poll.task);
    } else {
      assert Poll1(s, answered, woken).dispatched == s.dispatched;
    }
  }

  lemma PollAwake(s: State, answered: bool, woken: nat)
    requires Awake(s)
    ensures Awake(Poll1(s, answered, woken))
  {
    if woken < |s.workers| && s.workers[woken].WBlocked? {
      CountUpdate(s.workers, woken, WLock, Seeking);
    }
  }

  lemma PollKeeps(s: State, answered: bool, woken: nat)
    requires Inv(s)
    ensures Inv(Poll1(s, answered, woken))
  {
    PollMutex(s, answered, woken);
    PollPhases(s, answered, woken);
    PollConserved(s, answered, woken);
    PollAccounted(s, answered, woken);
    PollTickets(s, answered, woken);
    PollAwake(s, answered, woken);
  }

  // ----- join, stop and wake-ups -----------------------------------------------------------------

  lemma WakeKeeps(s: State, s': State)
    requires Inv(s)
    requires s' == s.(workers := WakeAll(s.workers), stoppers := s'.stoppers, join := s'.join)
    requires s'.join == s.join || (s.join.JNotify? && s'.join.JWorkers?)
    ensures Inv(s')
  {
    CountWakeAll(s.workers, 0);
    forall t ensures Found(s', t) == Sent(s', t) {
      CountWakeAll(s.workers, t);
      assert Found(s, t) == Sent(s, t);
    }
  }

  lemma DrainKeeps(s: State)
    requires Inv(s) && s.join.JDrain?
    ensures Inv(Join1(s))
  {
    var s' := Join1(s);
    forall t ensures Found(s', t) == Sent(s', t) {
      OccConcat(s.discarded, s.queue, t);
      assert Found(s, t) == Sent(s, t);
    }
  }

  lemma AdvanceKeeps(s: State, s': State)
    requires Inv(s) && s' == Join1(s) && !s.join.JNotify? && !s.join.JDrain?
    ensures Inv(s')
  {
    assert s' == s.(join := s'.join, mutex := s'.mutex, shutdown := s'.shutdown);
    assert forall t :: Found(s', t) == Found(s, t) && Sent(s', t) == Sent(s, t);
  }

  lemma JoinKeeps(s: State)
    requires Inv(s)
    ensures Inv(Join1(s))
  {
    if s.join.JNotify? {
      WakeKeeps(s, Join1(s));
    } else if s.join.JDrain? {
      DrainKeeps(s);
    } else {
      AdvanceKeeps(s, Join1(s));
    }
  }

  lemma SpuriousKeeps(s: State, i: nat)
    requires Inv(s) && i < |s.workers| && s.workers[i].WBlocked?
    ensures Inv(Apply(s, Spurious(i)))
  {
    var s' := Apply(s, Spurious(i));
    CountUpdate(s.workers, i, WLock, Holding);
    CountUpdate(s.workers, i, WLock, Counted);
    CountUpdate(s.workers, i, WLock, Seeking);
    forall t ensures Found(s', t) == Sent(s', t) {
      InHandUpdate(s.workers, i, WLock, t);
      assert Found(s, t) == Sent(s, t);
    }
  }

  lemma FlagKeeps(s: State, s': State)
    requires Inv(s)
    requires s' == s.(shutdown := true, stoppers := s'.stoppers) || (s.join.JIdle? && s' == s.(join := JPoll))
    ensures Inv(s')
  {
    assert forall t :: Found(s', t) == Found(s, t) && Sent(s', t) == Sent(s, t);
  }

  lemma ApplyKeeps(s: State, step: Step)
    requires Inv(s)
    ensures Inv(Apply(s, step))
  {
    match step
    case StopStore => FlagKeeps(s, Apply(s, step));
    case StopNotify => if s.stoppers > 0 { WakeKeeps(s, Apply(s, step)); }
    case Poll(answered, woken) => PollKeeps(s, answered, woken);
    case Work(i) => if i < |s.workers| { WorkKeeps(s, i); }
    case Spurious(i) => if i < |s.workers| && s.workers[i].WBlocked? { SpuriousKeeps(s, i); }
    case JoinCall => if s.join.JIdle? { FlagKeeps(s, Apply(s, step)); }
    case JoinStep => JoinKeeps(s);
  }

  lemma {:induction false} RunKeeps(configured: int, steps: seq<Step>)
    ensures Inv(Run(Init(configured), steps))
  {
    if steps == [] {
      InitInv(configured);
    } else {
      RunKeeps(configured, steps[..|steps| - 1]);
      ApplyKeeps(Run(Init(configured), steps[..|steps| - 1]), steps[|steps| - 1]);
    }
  }

  // ----- what holds in every reachable state -----------------------------------------------------

  /** Free permits, the poll thread's permit, queued tasks, popped tasks and dropped permits always
      add up to the capacity; so queued plus running never exceeds it and the semaphore never
      exceeds its maximum. */
  lemma CapacityConserved(configured: int, steps: seq<Step>)
    ensures var s := Run(Init(configured), steps);
            && s.capacity == Capacity(configured)
            && s.permits + PollPermit(s.poll) + |s.queue| + Count(s.workers, Holding) + s.dropped == s.capacity
            && |s.queue| + Count(s.workers, Holding) <= s.capacity
            && 0 <= s.permits <= MAX_PERMITS
            && s.active == Count(s.workers, Counted)
  {
    RunKeeps(configured, steps);
    CapacityFixed(Init(configured), steps);
  }

  lemma {:induction false} CapacityFixed(s: State, steps: seq<Step>)
    ensures Run(s, steps).capacity == s.capacity
  {
    if steps != [] {
      CapacityFixed(s, steps[..|steps| - 1]);
    }
  }

  lemma {:induction false} OccIncreasing(q: seq<Ticket>, t: Ticket)
    requires Ascending(q)
    ensures Occ(q, t) == Bit(t in q)
  {
    if q != [] {
      OccIncreasing(q[1..], t);
      assert q == [q[0]] + q[1..];
    }
  }

  /** A dispatched task is in exactly one place: queued, in a worker's hands, executed once, or
      discarded; and only join's drain, after shutdown, discards. */
  lemma ExactlyOnce(configured: int, steps: seq<Step>, t: Ticket)
    ensures var s := Run(Init(configured), steps);
            && Occ(s.queue, t) + InHand(s.workers, t) + Occ(s.executed, t) + Occ(s.discarded, t) == Bit(t in s.dispatched)
            && (s.discarded != [] ==> s.shutdown && Drained(s.join))
  {
    RunKeeps(configured, steps);
    var s := Run(Init(configured), steps);
    OccIncreasing(s.dispatched, t);
    assert Found(s, t) == Sent(s, t);
  }

  lemma {:induction false} NobodyHolds(ws: seq<WorkerPc>, t: Ticket)
    requires forall i :: 0 <= i < |ws| ==> ws[i].WExit?
    ensures InHand(ws, t) == 0 && Count(ws, Counted) == 0
  {
    if ws != [] {
      NobodyHolds(ws[..|ws| - 1], t);
    }
  }

  /** When join returns every worker has exited, nothing is queued or running, and each dispatched
      task was executed or discarded, once. */
  lemma JoinIsComplete(configured: int, steps: seq<Step>, t: Ticket)
    requires Run(Init(configured), steps).join.JDone?
    ensures var s := Run(Init(configured), steps);
            && (forall i :: 0 <= i < |s.workers| ==> s.workers[i].WExit?)
            && s.queue == [] && s.active == 0
            && Occ(s.executed, t) + Occ(s.discarded, t) == Bit(t in s.dispatched)
  {
    RunKeeps(configured, steps);
    ExactlyOnce(configured, steps, t);
    var s := Run(Init(configured), steps);
    assert forall i :: 0 <= i < |s.workers| ==> WorkerPhase(s, s.workers[i]);
    NobodyHolds(s.workers, t);
  }

  /** No wake-up is lost.  While a worker is blocked, at least as many others are awake and heading
      for the queue as there are queued tasks (the poll thread about to notify counts as one); and
      once join has drained and notified, no worker is blocked or can block again. */
  lemma NoLostWakeup(configured: int, steps: seq<Step>)
    ensures var s := Run(Init(configured), steps);
            && (SomeoneBlocked(s) ==> |s.queue| <= Count(s.workers, Seeking) + Bit(s.poll.PNotify?))
            && (Notified(s.join) ==> forall i :: 0 <= i < |s.workers| ==> !s.workers[i].WBlocked? && !s.workers[i].WSleep?)
  {
    RunKeeps(configured, steps);
    var s := Run(Init(configured), steps);
    assert forall i :: 0 <= i < |s.workers| ==> WorkerPhase(s, s.workers[i]);
  }

  /** Steps a worker still has to take before it exits, once the queue is empty for good. */
  function Rank(pc: WorkerPc): nat {
    match pc
    case WExit => 0
    case WTake => 1
    case WTest => 2
    case WLock => 3
    case WFinish(_) => 4
    case WRelease(_) => 5
    case WRun(_) => 6
    case WItem(_) => 7
    case WBlocked => 8
    case WSleep => 9
  }

  function Remaining(ws: seq<WorkerPc>): nat {
    if ws == [] then 0 else Remaining(ws[..|ws| - 1]) + Rank(ws[|ws| - 1])
  }

  lemma {:induction false} RemainingUpdate(ws: seq<WorkerPc>, i: nat, pc: WorkerPc)
    requires i < |ws|
    ensures Remaining(ws[i := pc]) == Remaining(ws) - Rank(ws[i]) + Rank(pc)
  {
    var n := |ws| - 1;
    if i < n {
      RemainingUpdate(ws[..n], i, pc);
      assert ws[i := pc][..n] == ws[..n][i := pc];
    } else {
      assert ws[i := pc][..n] == ws[..n];
    }
  }

  /** While join waits for the workers, some worker that has not exited can always move. */
  lemma SomeoneCanMove(s: State) returns (i: nat)
    requires Inv(s) && s.join.JWorkers?
    requires exists k :: 0 <= k < |s.workers| && !s.workers[k].WExit?
    ensures i < |s.workers| && Rank(Work1(s, i).workers[i]) < Rank(s.workers[i])
  {
    i :| 0 <= i < |s.workers| && !s.workers[i].WExit?;
    if s.mutex.ByWorker? && s.mutex.id < |s.workers| {
      i := s.mutex.id;
    }
    assert WorkerPhase(s, s.workers[i]);
  }

  /** A worker that moves then gets strictly closer to its exit ... */
  lemma MoveShortens(s: State, i: nat)
    requires Inv(s) && s.join.JWorkers? && i < |s.workers| && Work1(s, i) != s
    ensures Remaining(Work1(s, i).workers) < Remaining(s.workers)
  {
    var pc := Work1(s, i).workers[i];
    MoveLowersRank(s, i);
    RemainingUpdate(s.workers, i, pc);
  }

  lemma MoveLowersRank(s: State, i: nat)
    requires Phases(s) && s.join.JWorkers? && i < |s.workers| && Work1(s, i) != s
    ensures Work1(s, i).workers == s.workers[i := Work1(s, i).workers[i]] && Rank(Work1(s, i).workers[i]) < Rank(s.workers[i])
  {
    assert WorkerPhase(s, s.workers[i]);
  }

  /** ... and no other step sets a worker back. */
  lemma OthersKeepWorkers(s: State, step: Step)
    requires Inv(s) && s.join.JWorkers? && !step.Work?
    ensures Apply(s, step).workers == s.workers
  {
    assert forall i :: 0 <= i < |s.workers| ==> WorkerPhase(s, s.workers[i]);
    assert WakeAll(s.workers) == s.workers;
  }

  lemma {:induction false} RunConcat(s: State, a: seq<Step>, b: seq<Step>)
    ensures Run(s, a + b) == Run(Run(s, a), b)
  {
    if b == [] {
      assert a + b == a;
    } else {
      var n := |b| - 1;
      RunConcat(s, a, b[..n]);
      assert (a + b)[..|a + b| - 1] == a + b[..n];
    }
  }

  lemma NextTurn(s: State) returns (step: Step)
    requires Inv(s) && s.join.JWorkers?
    ensures step.Work? || step.JoinStep?
    ensures var s' := Apply(s, step);
            s'.join.JDone? || (s'.join.JWorkers? && Remaining(s'.workers) < Remaining(s.workers))
  {
    step := JoinStep;
    if exists k :: 0 <= k < |s.workers| && !s.workers[k].WExit? {
      var i := SomeoneCanMove(s);
      MoveShortens(s, i);
      step := Work(i);
    }
  }

  lemma JoinReturnsFrom(s: State) returns (more: seq<Step>)
    requires Inv(s) && s.join.JWorkers?
    ensures Run(s, more).join.JDone?
    decreases Remaining(s.workers)
  {
    var step := NextTurn(s);
    var s' := Apply(s, step);
    ApplyKeeps(s, step);
    more := [];
    if !s'.join.JDone? {
      more := JoinReturnsFrom(s');
    }
    RunConcat(s, [step], more);
    assert Run(s, [step]) == s';
    more := [step] + more;
  }

  // ----- join() on its way to the workers ---------------------------------------------------------

  function JoinStage(j: JoinPc): nat {
    match j
    case JIdle => 8 case JPoll => 7 case JActive => 6 case JStore => 5 case JLock => 4
    case JDrain => 3 case JNotify => 2 case JWorkers => 1 case JDone => 0
  }

  /** How far the poll thread is from its exit once the flag is set. */
  function PollStage(p: PollPc): nat {
    match p
    case PExit => 0 case PCheck => 1 case PDecide(_, _) => 1 case PFetch => 2 case PWant(_) => 2
    case PNotify => 2 case PTry(_) => 3 case PPush(_) => 3 case PLock(_) => 4
  }

  /** How far a worker in its critical section is from releasing the mutex. */
  function MutexStage(s: State): nat {
    if s.mutex.ByWorker? && s.mutex.id < |s.workers| then if s.workers[s.mutex.id].WTest? then 2 else 1 else 0
  }

  ghost predicate Closer(s: State, s': State) {
    && s'.shutdown
    && (|| JoinStage(s'.join) < JoinStage(s.join)
        || (s'.join == s.join && PollStage(s'.poll) < PollStage(s.poll))
        || (s'.join == s.join && s'.poll == s.poll && MutexStage(s') < MutexStage(s)))
  }

  /** The mutex is never in the way for long: its owner among the workers can release it. */
  lemma OwnerLetsGo(s: State)
    requires Inv(s) && s.shutdown && s.mutex.ByWorker?
    ensures Closer(s, Apply(s, Work(s.mutex.id)))
  {
    var i := s.mutex.id;
    assert Critical(s.workers[i]);
  }

  lemma PollLetsGo(s: State) returns (step: Step)
    requires Inv(s) && s.shutdown && s.join.JPoll? && !s.poll.PExit?
    ensures (step.Poll? || step.Work?) && Closer(s, Apply(s, step))
  {
    if s.poll.PLock? && s.mutex.ByWorker? {
      OwnerLetsGo(s);
      step := Work(s.mutex.id);
    } else if s.poll.PNotify? && SomeoneBlocked(s) {
      var woken :| 0 <= woken < |s.workers| && s.workers[woken].WBlocked?;
      step := Poll(false, woken);
    } else {
      step := Poll(false, |s.workers|);
    }
  }

  lemma JoinGetsCloser(s: State) returns (step: Step)
    requires Inv(s) && s.shutdown && !s.join.JIdle? && !Notified(s.join)
    ensures (step.Poll? || step.Work? || step.JoinStep?) && Closer(s, Apply(s, step))
  {
    step := JoinStep;
    if s.join.JPoll? && !s.poll.PExit? {
      step := PollLetsGo(s);
    } else if s.join.JLock? && s.mutex.ByWorker? {
      OwnerLetsGo(s);
      step := Work(s.mutex.id);
    }
  }

  lemma RunOne(s: State, step: Step, more: seq<Step>)
    ensures Run(s, [step] + more) == Run(Apply(s, step), more)
  {
    RunConcat(s, [step], more);
    assert Run(s, [step]) == Apply(s, step);
  }

  lemma JoinReachesWorkers(s: State) returns (more: seq<Step>)
    requires Inv(s) && s.shutdown && !s.join.JIdle?
    ensures Notified(Run(s, more).join) && Inv(Run(s, more))
    decreases JoinStage(s.join), PollStage(s.poll), MutexStage(s)
  {
    more := [];
    if !Notified(s.join) {
      var step := JoinGetsCloser(s);
      ApplyKeeps(s, step);
      more := JoinReachesWorkers(Apply(s, step));
      RunOne(s, step, more);
      more := [step] + more;
    }
  }

  /** Once the flag is set, join returns: from every reachable state in which it has been called there
      are steps after which it has, past the poll thread, the mutex and the workers. */
  lemma JoinReturns(configured: int, steps: seq<Step>) returns (more: seq<Step>)
    requires Run(Init(configured), steps).shutdown && !Run(Init(configured), steps).join.JIdle?
    ensures Run(Init(configured), steps + more).join.JDone?
  {
    var s := Run(Init(configured), steps);
    RunKeeps(configured, steps);
    more := JoinReachesWorkers(s);
    if !Run(s, more).join.JDone? {
      var rest := JoinReturnsFrom(Run(s, more));
      RunConcat(s, more, rest);
      more := more + rest;
    }
    RunConcat(Init(configured), steps, more);
  }

  // ----- join() returns under every fair schedule --------------------------------------------------

  /** What the poll thread can still cause once the flag is set, the task it may yet queue included. */
  function PollRank(p: PollPc): nat {
    match p
    case PExit => 0 case PCheck => 1 case PNotify => 2 case PPush(_) => 15 case PLock(_) => 16
    case PDecide(_, _) => 20 case PWant(_) => 21 case PTry(_) => 22 case PFetch => 22
  }

  /** A bound on the steps that all threads together can still take. */
  function Measure(s: State): nat {
    Remaining(s.workers) + PollRank(s.poll) + JoinStage(s.join) + 12 * |s.queue|
  }

  /** A step of some thread that does something. */
  predicate Effective(s: State, step: Step) {
    (step.Poll? || step.Work? || step.JoinStep?) && Apply(s, step) != s
  }

  lemma {:induction false} WakingShortens(ws: seq<WorkerPc>)
    ensures Remaining(WakeAll(ws)) <= Remaining(ws)
  {
    if ws != [] {
      var n := |ws| - 1;
      WakingShortens(ws[..n]);
      assert WakeAll(ws)[..n] == WakeAll(ws[..n]);
    }
  }

  /** One worker moved and perhaps took the front task. */
  lemma WorkerLowers(s: State, s': State, i: nat, pc: WorkerPc)
    requires i < |s.workers| && s'.workers == s.workers[i := pc] && s'.poll == s.poll && s'.join == s.join
    requires |s'.queue| <= |s.queue| && Rank(pc) < Rank(s.workers[i]) + 12 * (|s.queue| - |s'.queue|)
    ensures Measure(s') < Measure(s)
  {
    RemainingUpdate(s.workers, i, pc);
  }

  lemma WorkLowers(s: State, i: nat)
    requires s.shutdown && i < |s.workers| && Work1(s, i) != s
    ensures Measure(Work1(s, i)) < Measure(s)
  {
    WorkerLowers(s, Work1(s, i), i, Work1(s, i).workers[i]);
  }

  lemma PollLowers(s: State, answered: bool, woken: nat)
    requires s.shutdown && Poll1(s, answered, woken) != s
    ensures Measure(Poll1(s, answered, woken)) < Measure(s)
  {
    if s.poll.PNotify? && woken < |s.workers| && s.workers[woken].WBlocked? {
      RemainingUpdate(s.workers, woken, WLock);
    }
  }

  lemma JoinMoves(s: State)
    requires Join1(s) != s
    ensures var s' := Join1(s);
            && JoinStage(s'.join) < JoinStage(s.join) && s'.poll == s.poll && |s'.queue| <= |s.queue|
            && (s'.workers == s.workers || s'.workers == WakeAll(s.workers))
  {
  }

  lemma JoinLowers(s: State)
    requires Join1(s) != s
    ensures Measure(Join1(s)) < Measure(s)
  {
    JoinMoves(s);
    WakingShortens(s.workers);
  }

  /** Once the flag is set no step of anybody raises the measure, and every effective one lowers it. */
  lemma StepLowers(s: State, step: Step)
    requires s.shutdown
    ensures Apply(s, step).shutdown && Measure(Apply(s, step)) <= Measure(s)
    ensures Effective(s, step) ==> Measure(Apply(s, step)) < Measure(s)
  {
    match step
    case Work(i) =>
      if i < |s.workers| && Work1(s, i) != s {
        WorkLowers(s, i);
      }
    case Poll(answered, woken) =>
      if Poll1(s, answered, woken) != s {
        PollLowers(s, answered, woken);
      }
    case JoinStep =>
      if Join1(s) != s {
        JoinLowers(s);
      }
    case Spurious(i) =>
      if i < |s.workers| && s.workers[i].WBlocked? {
        RemainingUpdate(s.workers, i, WLock);
      }
    case StopNotify => WakingShortens(s.workers);
    case _ =>
  }

  /** How many steps of a run do something. */
  function Moves(s: State, steps: seq<Step>): nat {
    if steps == [] then 0
    else
      var n := |steps| - 1;
      Moves(s, steps[..n]) + if Effective(Run(s, steps[..n]), steps[n]) then 1 else 0
  }

  /** So after stop the threads can only take a bounded number of steps, in whatever order. */
  lemma {:induction false} MovesAreBounded(s: State, steps: seq<Step>)
    requires s.shutdown
    ensures Run(s, steps).shutdown && Moves(s, steps) + Measure(Run(s, steps)) <= Measure(s)
  {
    if steps != [] {
      var n := |steps| - 1;
      MovesAreBounded(s, steps[..n]);
      StepLowers(Run(s, steps[..n]), steps[n]);
    }
  }

  /** The flag is set and join has been called. */
  ghost predicate Closing(s: State) {
    Inv(s) && s.shutdown && !s.join.JIdle?
  }

  predicate Returned(s: State) { s.join.JDone? }

  /** Until join has returned there is always a thread that can move: nobody waits for ever. */
  lemma NobodyIsStuck(s: State)
    requires Closing(s) && !Returned(s)
    ensures Fairness.CanMove(Effective, s)
  {
    if Notified(s.join) {
      var step := NextTurn(s);
      assert Effective(s, step);
    } else {
      var step := JoinGetsCloser(s);
      assert Effective(s, step);
    }
  }

  lemma StaysShut(s: State, step: Step)
    requires s.shutdown && !s.join.JIdle?
    ensures Apply(s, step).shutdown && !Apply(s, step).join.JIdle?
  {
  }

  lemma ClosingDescends()
    ensures Fairness.Descends(Apply, Effective, Measure, Closing)
    ensures Fairness.NeverStuck(Effective, Closing, Returned)
  {
    forall s, step | Closing(s)
      ensures Closing(Apply(s, step)) && Measure(Apply(s, step)) <= Measure(s)
      ensures Effective(s, step) ==> Measure(Apply(s, step)) < Measure(s)
    {
      ApplyKeeps(s, step);
      StaysShut(s, step);
      StepLowers(s, step);
    }
    forall s | Closing(s) && !Returned(s) ensures Fairness.CanMove(Effective, s) {
      NobodyIsStuck(s);
    }
  }

  /** From every reachable state in which the flag is set and join has been called, join returns under
      every schedule in which, whenever some thread can move, some thread sooner or later does. */
  lemma JoinReturnsFairly(configured: int, steps: seq<Step>, schedule: nat -> Step) returns (m: nat)
    requires Run(Init(configured), steps).shutdown && !Run(Init(configured), steps).join.JIdle?
    requires Fairness.Fair(Apply, Effective, Run(Init(configured), steps), schedule)
    ensures Returned(Fairness.At(Apply, Run(Init(configured), steps), schedule, m))
  {
    var s := Run(Init(configured), steps);
    RunKeeps(configured, steps);
    ClosingDescends();
    assert Fairness.At(Apply, s, schedule, 0) == s;
    m := Fairness.EndsAfter(Apply, Effective, Measure, Closing, Returned, s, schedule, 0);
  }

  // ----- what is fetched is dispatched ------------------------------------------------------------

  /** How many tasks the server handed out in a run: the answers that FetchTask got. */
  function Fetches(s: State, steps: seq<Step>): nat {
    if steps == [] then 0
    else
      var n := |steps| - 1;
      Fetches(s, steps[..n]) +
      if steps[n].Poll? && steps[n].answered && Run(s, steps[..n]).poll.PFetch? then 1 else 0
  }

  predicate InPollHands(p: PollPc) {
    p.PWant? || p.PTry? || p.PDecide? || p.PLock? || p.PPush?
  }

  /** Tasks are dispatched in the order in which they are fetched, without a gap.  At most the last one is
      missing: it is in the poll thread's hands, or the thread has exited with it. */
  ghost predicate Dispatches(s: State) {
    && (forall i :: 0 <= i < |s.dispatched| ==> s.dispatched[i] == i)
    && (InPollHands(s.poll) ==> s.poll.task == |s.dispatched| && s.fetched == |s.dispatched| + 1)
    && (!InPollHands(s.poll) && !s.poll.PExit? ==> s.fetched == |s.dispatched|)
    && (s.poll.PExit? ==> s.shutdown && |s.dispatched| <= s.fetched <= |s.dispatched| + 1)
    && (s.dropped > 0 ==> s.shutdown)
  }

  lemma StepDispatches(s: State, step: Step)
    requires Dispatches(s) && Phases(s)
    ensures Dispatches(Apply(s, step))
  {
    if step.JoinStep? && s.join.JDrain? {
      assert s.poll.PExit?;
    }
  }

  lemma {:induction false} RunDispatches(configured: int, steps: seq<Step>)
    ensures Dispatches(Run(Init(configured), steps))
  {
    if steps != [] {
      var n := |steps| - 1;
      RunDispatches(configured, steps[..n]);
      RunKeeps(configured, steps[..n]);
      StepDispatches(Run(Init(configured), steps[..n]), steps[n]);
    }
  }

  lemma StepFetches(s: State, step: Step)
    ensures Apply(s, step).fetched == s.fetched + Bit(step.Poll? && step.answered && s.poll.PFetch?)
  {
  }

  lemma {:induction false} FetchedIsCounted(configured: int, steps: seq<Step>)
    ensures Run(Init(configured), steps).fetched == Fetches(Init(configured), steps)
  {
    if steps != [] {
      var n := |steps| - 1;
      FetchedIsCounted(configured, steps[..n]);
      StepFetches(Run(Init(configured), steps[..n]), steps[n]);
    }
  }

  /** Every task that FetchTask returned is dispatched, in order, or still in the poll thread's hands, or
      the one with which the thread exited; and a task or a permit is lost only after shutdown. */
  lemma EveryFetchedTaskIsDispatched(configured: int, steps: seq<Step>, t: Ticket)
    requires t < Fetches(Init(configured), steps)
    ensures var s := Run(Init(configured), steps);
            && s.fetched == Fetches(Init(configured), steps)
            && (|| (t < |s.dispatched| && s.dispatched[t] == t)
                || (InPollHands(s.poll) && s.poll.task == t)
                || (s.poll.PExit? && s.shutdown && t == s.fetched - 1))
            && (s.dropped > 0 ==> s.shutdown)
  {
    RunDispatches(configured, steps);
    FetchedIsCounted(configured, steps);
  }

  /** The same thread n times in a row. */
  function Again(s: State, step: Step, n: nat): State {
    if n == 0 then s else Apply(Again(s, step, n - 1), step)
  }

  lemma {:induction false} AgainIsRun(s: State, step: Step, n: nat)
    ensures Again(s, step, n) == Run(s, seq(n, i => step))
  {
    if n > 0 {
      AgainIsRun(s, step, n - 1);
      assert seq(n, i => step)[..n - 1] == seq(n - 1, i => step);
    }
  }

  /** From the head of its loop, with no shutdown, the poll thread asks for a task and takes it ... */
  lemma PollFetches(s: State, woken: nat)
    requires s.poll.PCheck? && !s.shutdown
    ensures Again(s, Poll(true, woken), 2) == s.(poll := PWant(s.fetched), fetched := s.fetched + 1)
  {
    assert Again(s, Poll(true, woken), 1) == s.(poll := PFetch);
  }

  /** ... with a free permit gets one for it ... */
  lemma PollAcquires(s: State, woken: nat)
    requires s.poll.PWant? && !s.shutdown && s.permits > 0
    ensures Again(s, Poll(true, woken), 3) == s.(poll := PLock(s.poll.task), permits := s.permits - 1)
  {
    assert Again(s, Poll(true, woken), 1) == s.(poll := PTry(s.poll.task));
    assert Again(s, Poll(true, woken), 2) == s.(poll := PDecide(s.poll.task, true), permits := s.permits - 1);
  }

  /** ... and, once the mutex is free, queues it. */
  lemma PollQueues(s: State, woken: nat)
    requires s.poll.PLock? && s.mutex.Free?
    ensures Again(s, Poll(true, woken), 2) ==
            s.(poll := PNotify, mutex := ByPoll, queue := s.queue + [s.poll.task], dispatched := s.dispatched + [s.poll.task])
  {
    assert Again(s, Poll(true, woken), 1) == s.(poll := PPush(s.poll.task), mutex := ByPoll);
  }

  /** So with no shutdown, a free permit and a free mutex, seven of its steps bring the next task into the
      queue. */
  lemma PollThreadDelivers(s: State, woken: nat)
    requires s.poll.PCheck? && !s.shutdown && s.permits > 0 && s.mutex.Free?
    ensures var p := Poll(true, woken);
            var s' := Again(Again(Again(s, p, 2), p, 3), p, 2);
            && s'.queue == s.queue + [s.fetched] && s'.dispatched == s.dispatched + [s.fetched]
            && s'.fetched == s.fetched + 1 && s'.permits == s.permits - 1
  {
    var p := Poll(true, woken);
    PollFetches(s, woken);
    var s2 := Again(s, p, 2);
    PollAcquires(s2, woken);
    var s5 := Again(s2, p, 3);
    PollQueues(s5, woken);
  }

  /** With the mutex free and a task queued, three steps of a worker take the front task ... */
  lemma WorkerTakes(s: State, i: nat)
    requires i < |s.workers| && s.workers[i].WLock? && s.mutex.Free? && s.queue != []
    ensures Again(s, Work(i), 3) == s.(workers := s.workers[i := WItem(s.queue[0])], queue := s.queue[1..])
  {
    var s1 := s.(workers := s.workers[i := WTest], mutex := ByWorker(i));
    assert Again(s, Work(i), 1) == s1;
    var s2 := s.(workers := s.workers[i := WTake], mutex := ByWorker(i));
    assert s1.workers[i := WTake] == s2.workers;
    assert Again(s, Work(i), 2) == s2;
    assert s2.workers[i := WItem(s.queue[0])] == s.workers[i := WItem(s.queue[0])];
  }

  /** ... and four more run it to its end, give the permit back and leave the active count as it was. */
  lemma WorkerExecutes(s: State, i: nat)
    requires i < |s.workers| && s.workers[i].WItem?
    ensures Again(s, Work(i), 4) ==
            s.(workers := s.workers[i := WLock], executed := s.executed + [s.workers[i].task], permits := s.permits + 1)
  {
    var t := s.workers[i].task;
    var s1 := s.(workers := s.workers[i := WRun(t)], active := s.active + 1);
    assert Again(s, Work(i), 1) == s1;
    assert s1.workers[i := WRelease(t)] == s.workers[i := WRelease(t)];
    var s2 := s1.(workers := s.workers[i := WRelease(t)], executed := s.executed + [t]);
    assert Again(s, Work(i), 2) == s2;
    assert s2.workers[i := WFinish(t)] == s.workers[i := WFinish(t)];
    var s3 := s2.(workers := s.workers[i := WFinish(t)], permits := s.permits + 1);
    assert Again(s, Work(i), 3) == s3;
    assert s3.workers[i := WLock] == s.workers[i := WLock];
  }

  // ----- whom stop() wakes ------------------------------------------------------------------------

  ghost predicate Up(s: State, i: nat) {
    s.shutdown && i < |s.workers| && !s.workers[i].WSleep? && !s.workers[i].WBlocked?
  }

  lemma StepKeepsUp(s: State, step: Step, i: nat)
    requires Up(s, i)
    ensures Up(Apply(s, step), i)
  {
  }

  /** Once the flag is set, a worker that is neither blocked nor about to block never will be. */
  lemma {:induction false} StaysUp(s: State, more: seq<Step>, i: nat)
    requires Up(s, i)
    ensures Up(Run(s, more), i)
  {
    if more != [] {
      StaysUp(s, more[..|more| - 1], i);
      StepKeepsUp(Run(s, more[..|more| - 1]), more[|more| - 1], i);
    }
  }

  /** Some continuation finds worker i blocked. */
  ghost predicate CanBlock(s: State, i: nat) {
    exists more :: i < |Run(s, more).workers| && Run(s, more).workers[i].WBlocked?
  }

  /** stop()'s notification is lost on a worker exactly if that worker has found nothing to do and is
      about to release the mutex and block. */
  lemma StopLosesIff(s: State, i: nat)
    requires s.shutdown && s.stoppers > 0 && i < |s.workers|
    ensures CanBlock(Apply(s, StopNotify), i) <==> s.workers[i].WSleep?
  {
    var s' := Apply(s, StopNotify);
    if s.workers[i].WSleep? {
      var more := [Work(i)];
      RunOne(s', Work(i), []);
      assert [Work(i)] + [] == more;
      assert Run(s', more).workers[i].WBlocked?;
    } else {
      forall more ensures Up(Run(s', more), i) {
        StaysUp(s', more, i);
      }
    }
  }

  /** So in every reachable state stop() loses nothing if no worker holds the mutex: it would be enough to
      notify with the mutex held. */
  lemma StopLosesNothingUnlocked(configured: int, steps: seq<Step>, i: nat)
    requires var s := Run(Init(configured), steps); s.shutdown && s.stoppers > 0 && i < |s.workers|
    ensures var s := Run(Init(configured), steps);
            && (CanBlock(Apply(s, StopNotify), i) ==> s.mutex == ByWorker(i))
            && (!s.mutex.ByWorker? ==> !CanBlock(Apply(s, StopNotify), i))
  {
    RunKeeps(configured, steps);
    StopLosesIff(Run(Init(configured), steps), i);
  }

  /** stop() alone does lose a wake-up: it notifies without the mutex, so a worker that has already
      evaluated its predicate blocks afterwards although the flag is set.  Only join's locked drain
      followed by its own notification covers that worker. */
  lemma StopAloneLosesWakeup()
    ensures var s := Run(Init(1), [Work(0), Work(0), StopStore, StopNotify, Work(0)]);
            s.shutdown && s.stoppers == 0 && s.workers == [WBlocked]
  {
    var s0 := Init(1);
    assert s0.workers == [WLock];
    var s1 := Apply(s0, Work(0));
    var s2 := Apply(s1, Work(0));
    assert s2.workers == [WSleep];
    var s3 := Apply(s2, StopStore);
    var s4 := Apply(s3, StopNotify);
    assert s4.workers == [WSleep];
    var s5 := Apply(s4, Work(0));
    assert s5.workers == [WBlocked];
    var steps := [Work(0), Work(0), StopStore, StopNotify, Work(0)];
    assert steps[..4] == [Work(0), Work(0), StopStore, StopNotify];
    assert steps[..4][..3] == [Work(0), Work(0), StopStore];
    assert steps[..4][..3][..2] == [Work(0), Work(0)];
    assert steps[..4][..3][..2][..1] == [Work(0)];
    assert Run(s0, [Work(0)]) == s1;
    assert Run(s0, [Work(0), Work(0)]) == s2;
    assert Run(s0, [Work(0), Work(0), StopStore]) == s3;
    assert Run(s0, [Work(0), Work(0), StopStore, StopNotify]) == s4;
  }

  // ----- the shared object ----------------------------------------------------------------------

  datatype Taken = Exit | Nothing | Item(task: Ticket)

  /** The fields the threads share.  Each method is a stretch of one thread's code that the mutex or
      an atomic operation makes indivisible; it is proved to be the steps of the protocol it names,
      taken from whatever state the other threads have produced. */
  class Shared {
    var permits: int
    var shutdown: bool
    var queue: seq<Ticket>
    var active: int

    ghost predicate Matches(s: State)
      reads this
    {
      permits == s.permits && shutdown == s.shutdown && queue == s.queue && active == s.active
    }

    constructor (configured: int)
      ensures Matches(Init(configured))
    {
      permits, shutdown, queue, active := Capacity(configured), false, [], 0;
    }

    method StoreShutdown(ghost s: State)
      requires Matches(s)
      modifies this`shutdown
      ensures Matches(Apply(s, StopStore))
      ensures s.join.JStore? ==> Matches(Join1(s))
    {
      shutdown := true;
    }

    /** Try to get a permit in time; the caller's patience is the answer. */
    method TryAcquire(ghost s: State, patient: bool, woken: nat) returns (got: bool)
      requires Matches(s) && s.poll.PTry?
      modifies this`permits
      ensures got <==> patient && old(permits) > 0
      ensures Matches(Poll1(s, patient, woken))
      ensures Poll1(s, patient, woken).poll == if got then PDecide(s.poll.task, true) else PWant(s.poll.task)
    {
      got := patient && permits > 0;
      if got {
        permits := permits - 1;
      }
    }

    /** Push under the lock and notify one worker before the lock is released: the waiting worker the system picks, or
        nobody when none waits. */
    method DispatchTask(task: Ticket, ghost s: State, ghost woken: nat)
      requires Matches(s) && s.poll == PPush(task)
      requires SomeoneBlocked(s) ==> woken < |s.workers| && s.workers[woken].WBlocked?
      modifies this`queue
      ensures queue == old(queue) + [task]
      ensures var s' := Poll1(Poll1(s, true, woken), true, woken);
              && Matches(s') && s'.poll.PCheck? && s'.mutex.Free? && s'.dispatched == s.dispatched + [task]
              && s'.workers == (if SomeoneBlocked(s) then s.workers[woken := WLock] else s.workers)
    {
      queue := queue + [task];
    }

    /** The worker's locked section, once its wait is over. */
    method TakeTask(ghost s: State, ghost i: nat) returns (taken: Taken)
      requires Matches(s) && i < |s.workers| && s.workers[i].WTake?
      modifies this`queue
      ensures Matches(Work1(s, i))
      ensures taken.Exit? <==> shutdown && old(queue) == []
      ensures taken.Item? <==> old(queue) != []
      ensures taken.Item? ==> old(queue) == [taken.task] + queue
      ensures Work1(s, i).workers[i] == match taken case Exit => WExit case Nothing => WLock case Item(t) => WItem(t)
    {
      if shutdown && queue == [] {
        return Exit;
      }
      taken := Nothing;
      if queue != [] {
        taken := Item(queue[0]);
        queue := queue[1..];
      }
    }

    /** After a task, in this order: the permit, then the active count. */
    method ReleasePermit(ghost s: State, ghost i: nat)
      requires Matches(s) && i < |s.workers| && s.workers[i].WRelease?
      modifies this`permits
      ensures Matches(Work1(s, i))
    {
      permits := permits + 1;
    }

    method LeaveActive(ghost s: State, ghost i: nat)
      requires Matches(s) && i < |s.workers| && s.workers[i].WFinish?
      modifies this`active
      ensures Matches(Work1(s, i))
    {
      active := active - 1;
    }

    /** join's locked drain pops until nothing is left. */
    method DrainQueue(ghost s: State)
      requires Matches(s) && s.join.JDrain?
      modifies this`queue
      ensures queue == [] && Matches(Join1(s)) && Join1(s).discarded == s.discarded + old(queue)
    {
      while queue != []
        decreases |queue|
      {
        queue := queue[1..];
      }
    }
  }
}
