/**
 The log delivery protocol.  Appended lines wait in a queue, a worker drains them in batches and
 sends each batch with at most three UpdateLog calls, resending from the index the server asks for.

 The server accepts any prefix of the rows it has not seen, and acknowledges with its log length;
 a reply may be lost or come back empty.  A run is any sequence of steps; a step that is not enabled
 leaves the state as it is.
 */
module LogForwarder {
  import opened Masking

  datatype Line = Line(timeS: int, timeNs: int, content: string)

  /** What the client sees of one call: the acknowledged index, an exception, or an empty body,
      which it takes for a full acknowledgement. */
  datatype Reply = Acked | Failed | Empty

  /** One call: how many new rows the server takes, and what the client hears back. */
  datatype Attempt = Attempt(accept: nat, reply: Reply)

  const MAX_TRIES := 3

  function Min(a: nat, b: nat): nat { if a < b then a else b }

  /** The server's log after it received rows labelled from index on.  It never accepts a row past a
      gap and never a position it already has. */
  function Serve(log: seq<Line>, index: nat, rows: seq<Line>, accept: nat): (log': seq<Line>)
    ensures log <= log'
  {
    if index <= |log| <= index + |rows| then
      var seen := |log| - index;
      log + rows[seen..Min(seen + accept, |rows|)]
    else log
  }

  /** The log grows only by rows at their own positions, continuing it, and by as many as are accepted. */
  lemma ServeContinues(log: seq<Line>, index: nat, rows: seq<Line>, accept: nat)
    ensures var log' := Serve(log, index, rows, accept);
            && log <= log'
            && (forall i :: |log| <= i < |log'| ==> index <= i < index + |rows| && log'[i] == rows[i - index])
            && |log'| == if index <= |log| <= index + |rows| then Min(|log| + accept, index + |rows|) else |log|
  {
  }

  /** A batch on its way: the rows still to send, their index, the server's log, and whether the
      client considers the batch delivered. */
  datatype Transit = Transit(log: seq<Line>, rows: seq<Line>, index: nat, settled: bool)

  function Try(t: Transit, a: Attempt): Transit {
    var log := Serve(t.log, t.index, t.rows, a.accept);
    match a.reply
    case Failed => t.(log := log)
    case Empty => t.(log := log, settled := true)
    case Acked =>
      if |log| < t.index + |t.rows| then
        var rows := if 0 < |log| - t.index <= |t.rows| then t.rows[|log| - t.index..] else t.rows;
        Transit(log, rows, |log|, false)
      else t.(log := log, settled := true)
  }

  /** ts is the history of one batch: each try starts where the one before it ended, and there is a
      next try exactly as long as the batch is not settled and tries are left. */
  ghost predicate Tries(ts: seq<Transit>, script: seq<Attempt>, retries: nat) {
    && 1 <= |ts| <= retries + 1 <= |script| + 1
    && (forall i :: 0 <= i < |ts| - 1 ==> !ts[i].settled && ts[i + 1] == Try(ts[i], script[i]))
    && (ts[|ts| - 1].settled || |ts| == retries + 1)
  }

  /** The index after a batch: past its last row, or, when the client gave up, further by the rows
      it still had. */
  function NextIndex(t: Transit, nextIndex: nat): nat {
    if t.settled then t.index + |t.rows| else nextIndex + |t.rows|
  }

  // ----- the object ------------------------------------------------------------------------------

  /** The forwarder's fields and the bodies of its methods, one thread at a time.  The replies of the
      server are given as a script. */
  class Forwarder {
    const batchSize: nat
    var secrets: seq<string>
    var queue: seq<Line>
    var done: bool
    var nextIndex: nat
    var totalSent: nat

    /** No empty secret is registered: masking a line with one would not end. */
    ghost predicate Valid()
      reads this
    {
      "" !in secrets
    }

    /** The initial secrets are taken as they are; keeping empty ones out is left to the caller. */
    constructor (batchSize: nat, initialSecrets: seq<string>)
      ensures this.batchSize == batchSize && secrets == initialSecrets
      ensures Valid() <==> "" !in initialSecrets
      ensures queue == [] && !done && nextIndex == 0 && totalSent == 0
    {
      this.batchSize := batchSize;
      secrets, queue, done, nextIndex, totalSent := initialSecrets, [], false, 0, 0;
    }

    method AddSecret(value: string)
      requires Valid()
      modifies this`secrets
      ensures Valid()
      ensures secrets == if value == "" || value in old(secrets) then old(secrets) else old(secrets) + [value]
    {
      if value == "" {
        return;
      }
      for i := 0 to |secrets|
        invariant value !in secrets[..i] && secrets == old(secrets)
      {
        if secrets[i] == value {
          return;
        }
      }
      assert secrets[..|secrets|] == secrets;
      secrets := secrets + [value];
    }

    /** The stored line is the masked one. */
    method AppendWithTime(timeS: int, timeNs: int, line: string)
      requires Valid()
      modifies this`queue
      ensures Valid()
      ensures queue == old(queue) + [Line(timeS, timeNs, MaskAll(secrets, line))]
    {
      var masked := MaskSecrets(line, secrets);
      queue := queue + [Line(timeS, timeNs, masked)];
    }

    /** The locked part of the worker loop. */
    method Drain() returns (batch: seq<Line>)
      modifies this`queue
      ensures batch + queue == old(queue)
      ensures |batch| == Min(batchSize, |old(queue)|)
    {
      batch := [];
      while queue != [] && |batch| < batchSize
        invariant batch + queue == old(queue)
        invariant |batch| <= batchSize
        decreases |queue|
      {
        var front := queue[0];
        assert batch + queue == (batch + [front]) + queue[1..];
        batch := batch + [front];
        queue := queue[1..];
      }
    }

    method SendBatch(batch: seq<Line>, noMore: bool, serverLog: seq<Line>, script: seq<Attempt>)
      returns (log: seq<Line>, ghost ts: seq<Transit>)
      requires |script| >= MAX_TRIES
      modifies this`nextIndex, this`totalSent
      ensures batch == [] && !noMore ==> log == serverLog && nextIndex == old(nextIndex) && totalSent == old(totalSent)
      ensures batch != [] || noMore ==>
                && Tries(ts, script, MAX_TRIES)
                && ts[0] == Transit(serverLog, batch, old(nextIndex), false)
                && log == ts[|ts| - 1].log
                && nextIndex == NextIndex(ts[|ts| - 1], old(nextIndex))
                && totalSent == old(totalSent) + if ts[|ts| - 1].settled then |batch| else 0
    {
      log, ts := serverLog, [Transit(serverLog, batch, nextIndex, false)];
      if batch == [] && !noMore {
        return;
      }
      var rows: seq<Line>, index: nat, settled := batch, nextIndex, false;
      var used := 0;
      while used < MAX_TRIES && !settled
        invariant 0 <= used <= MAX_TRIES && |ts| == used + 1
        invariant ts[0] == Transit(serverLog, batch, nextIndex, false) && ts[used] == Transit(log, rows, index, settled)
        invariant Tried(ts, script, used)
        invariant nextIndex == old(nextIndex) && totalSent == old(totalSent)
      {
        TriedMore(ts, script, used);
        ts := ts + [Try(ts[used], script[used])];
        log, rows, index, settled := OneTry(log, rows, index, script[used]);
        used := used + 1;
      }
      if settled {
        nextIndex := index + |rows|;
        totalSent := totalSent + |batch|;
      } else {
        nextIndex := nextIndex + |rows|;
      }
    }
  }

  /** One round of the retry loop. */
  method OneTry(serverLog: seq<Line>, rows0: seq<Line>, index0: nat, a: Attempt)
    returns (log: seq<Line>, rows: seq<Line>, index: nat, settled: bool)
    ensures Transit(log, rows, index, settled) == Try(Transit(serverLog, rows0, index0, false), a)
  {
    log, rows, index, settled := Serve(serverLog, index0, rows0, a.accept), rows0, index0, false;
    if a.reply == Failed {
      return;
    }
    var ack := if a.reply == Empty then index + |rows| else |log|;
    if ack < index + |rows| {
      var skip := ack - index;
      if 0 < skip <= |rows| {
        rows := rows[skip..];
      }
      index := ack;
    } else {
      settled := true;
    }
  }

  /** The first tries, none of which settled the batch before the last. */
  ghost predicate Tried(ts: seq<Transit>, script: seq<Attempt>, used: nat) {
    && |ts| == used + 1 && used <= |script|
    && forall i :: 0 <= i < used ==> !ts[i].settled && ts[i + 1] == Try(ts[i], script[i])
  }

  lemma TriedMore(ts: seq<Transit>, script: seq<Attempt>, used: nat)
    requires Tried(ts, script, used) && used < |script| && !ts[used].settled
    ensures Tried(ts + [Try(ts[used], script[used])], script, used + 1)
  {
  }

  // ----- the protocol as a transition system -----------------------------------------------------

  datatype Phase =
    | Idle
    | Loaded(batch: seq<Line>)                                          // drained, about to read the done flag
    | Sending(batch: seq<Line>, rows: seq<Line>, index: nat, tries: nat, noMore: bool)
    | Over

  datatype Request = Request(batchNo: nat, index: nat, rows: seq<Line>, noMore: bool)

  datatype State = State(
    batchSize: nat,
    queue: seq<Line>,
    done: bool,
    phase: Phase,
    nextIndex: nat,
    log: seq<Line>,           // the server's
    appended: seq<Line>,      // every line ever appended
    drained: seq<Line>,       // every line ever taken from the queue
    batches: nat,             // batches begun
    requests: seq<Request>,   // every call made
    gaveUp: bool,             // some batch used up its tries
    silent: bool)             // some reply was empty

  datatype Step =
    | Append(line: Line)
    | Finish
    | DrainQueue
    | Decide
    | Call(attempt: Attempt)

  function Init(batchSize: nat): State {
    State(batchSize, [], false, Idle, 0, [], [], [], 0, [], false, false)
  }

  function AfterBatch(noMore: bool): Phase { if noMore then Over else Idle }

  function Apply(s: State, step: Step): State {
    match step
    case Append(line) => s.(appended := s.appended + [line], queue := s.queue + [line])
    case Finish => s.(done := true)
    case DrainQueue =>
      if s.phase.Idle? then
        var n := Min(s.batchSize, |s.queue|);
        s.(phase := Loaded(s.queue[..n]), queue := s.queue[n..], drained := s.drained + s.queue[..n])
      else s
    case Decide =>
      if !s.phase.Loaded? then s
      else if s.phase.batch == [] && !s.done then s.(phase := Idle)
      else s.(phase := Sending(s.phase.batch, s.phase.batch, s.nextIndex, MAX_TRIES, s.done), batches := s.batches + 1)
    case Call(a) => if s.phase.Sending? then CallStep(s, a) else s
  }

  function CallStep(s: State, a: Attempt): State
    requires s.phase.Sending?
  {
    var p := s.phase;
    var t := Try(Transit(s.log, p.rows, p.index, false), a);
    var s' := s.(log := t.log, silent := s.silent || a.reply.Empty?,
                 requests := s.requests + [Request(s.batches, p.index, p.rows, p.noMore)]);
    if t.settled || p.tries <= 1 then
      s'.(phase := AfterBatch(p.noMore), nextIndex := NextIndex(t, s.nextIndex), gaveUp := s.gaveUp || !t.settled)
    else s'.(phase := Sending(p.batch, t.rows, t.index, p.tries - 1, p.noMore))
  }

  function Run(s: State, steps: seq<Step>): State {
    if steps == [] then s else Apply(Run(s, steps[..|steps| - 1]), steps[|steps| - 1])
  }

  // ----- subsequences ----------------------------------------------------------------------------

  /** f names, in increasing order, the positions of b whose lines are a. */
  ghost predicate Picks(f: seq<nat>, a: seq<Line>, b: seq<Line>) {
    && |f| == |a|
    && (forall i :: 0 <= i < |f| ==> f[i] < |b| && a[i] == b[f[i]])
    && (forall i, j :: 0 <= i < j < |f| ==> f[i] < f[j])
  }

  /** a keeps the order of b and takes no position of b twice. */
  ghost predicate Subsequence(a: seq<Line>, b: seq<Line>) {
    exists f :: Picks(f, a, b)
  }

  lemma SubsequenceOfMore(a: seq<Line>, b: seq<Line>, c: seq<Line>)
    requires Subsequence(a, b) && b <= c
    ensures Subsequence(a, c)
  {
    var f :| Picks(f, a, b);
    assert Picks(f, a, c);
  }

  lemma SubsequenceExtended(a: seq<Line>, b: seq<Line>, x: seq<Line>)
    requires Subsequence(a, b)
    ensures Subsequence(a + x, b + x)
  {
    var f :| Picks(f, a, b);
    var g := f + seq(|x|, i => |b| + i);
    assert Picks(g, a + x, b + x);
  }

  // ----- safety in every run ---------------------------------------------------------------------

  ghost predicate SuffixOf(a: seq<Line>, b: seq<Line>) {
    |a| <= |b| && b[|b| - |a|..] == a
  }

  function Clamp(x: int, hi: nat): nat { if x < 0 then 0 else if x > hi then hi else x }

  /** How many drained lines the server may already hold. */
  function Reached(s: State): int {
    match s.phase
    case Loaded(batch) => |s.drained| - |batch|
    case Sending(_, rows, index, _, _) => |s.drained| - |rows| + Clamp(|s.log| - index, |rows|)
    case _ => |s.drained|
  }

  ghost predicate Shape(s: State) {
    && s.appended == s.drained + s.queue
    && (s.phase.Loaded? ==> SuffixOf(s.phase.batch, s.drained))
    && (s.phase.Sending? ==> SuffixOf(s.phase.batch, s.drained) && SuffixOf(s.phase.rows, s.phase.batch) && 1 <= s.phase.tries)
  }

  ghost predicate Safe(s: State) {
    0 <= Reached(s) <= |s.drained| && Subsequence(s.log, s.drained[..Reached(s)])
  }

  /** Only the last batch carries the final flag. */
  ghost predicate Closing(s: State) {
    && (forall i :: 0 <= i < |s.requests| ==> s.requests[i].batchNo <= s.batches)
    && (forall i, j :: 0 <= i < j < |s.requests| ==> s.requests[i].batchNo <= s.requests[j].batchNo)
    && (forall i :: 0 <= i < |s.requests| && s.requests[i].noMore ==>
          s.requests[i].batchNo == s.batches && (s.phase.Over? || (s.phase.Sending? && s.phase.noMore)))
  }

  ghost predicate Inv(s: State) {
    Shape(s) && Safe(s) && Closing(s)
  }

  /** How far into all the log may reach, when rows, the end of all, are labelled from index on. */
  function Frontier(all: seq<Line>, t: Transit): int {
    |all| - |t.rows| + Clamp(|t.log| - t.index, |t.rows|)
  }

  ghost predicate TransitSafe(all: seq<Line>, t: Transit) {
    SuffixOf(t.rows, all) && Subsequence(t.log, all[..Frontier(all, t)])
  }

  lemma SliceOfSuffix(all: seq<Line>, k: nat, i: nat, j: nat)
    requires k <= |all| && i <= j <= |all| - k
    ensures all[k..][i..j] == all[k + i..k + j]
  {
  }

  lemma ServeSafe(all: seq<Line>, t: Transit, accept: nat)
    requires TransitSafe(all, t)
    ensures TransitSafe(all, t.(log := Serve(t.log, t.index, t.rows, accept)))
  {
    if t.index <= |t.log| <= t.index + |t.rows| {
      var from, seen := Frontier(all, t), |t.log| - t.index;
      var taken := t.rows[seen..Min(seen + accept, |t.rows|)];
      SubsequenceExtended(t.log, all[..from], taken);
      SliceOfSuffix(all, |all| - |t.rows|, seen, seen + |taken|);
      assert all[..from] + taken == all[..from + |taken|];
    }
  }

  lemma TrySafe(all: seq<Line>, t: Transit, a: Attempt)
    requires TransitSafe(all, t)
    ensures TransitSafe(all, Try(t, a))
  {
    ServeSafe(all, t, a.accept);
    var t' := Try(t, a);
    var skip := |t.rows| - |t'.rows|;
    assert SuffixOf(t'.rows, all) by {
      assert t'.rows == t.rows[skip..];
      assert all[|all| - |t'.rows|..] == all[|all| - |t.rows|..][skip..];
    }
  }

  lemma CallSafe(s: State, a: Attempt)
    requires Shape(s) && Safe(s) && s.phase.Sending?
    ensures Safe(CallStep(s, a))
  {
    var p := s.phase;
    var t := Transit(s.log, p.rows, p.index, false);
    SuffixTransitive(p.rows, p.batch, s.drained);
    TrySafe(s.drained, t, a);
    var t' := Try(t, a);
    var s' := CallStep(s, a);
    assert s'.log == t'.log && s'.drained == s.drained;
    if !s'.phase.Sending? {
      SubsequenceOfMore(t'.log, s.drained[..Frontier(s.drained, t')], s.drained[..|s.drained|]);
    }
  }

  lemma SuffixTransitive(a: seq<Line>, b: seq<Line>, c: seq<Line>)
    requires SuffixOf(a, b) && SuffixOf(b, c)
    ensures SuffixOf(a, c)
  {
    assert c[|c| - |a|..] == c[|c| - |b|..][|b| - |a|..];
  }

  lemma CallShape(s: State, a: Attempt)
    requires Shape(s) && s.phase.Sending?
    ensures Shape(CallStep(s, a))
  {
    var p := s.phase;
    var t := Try(Transit(s.log, p.rows, p.index, false), a);
    var skip := |p.rows| - |t.rows|;
    assert t.rows == p.rows[skip..];
    SuffixTransitive(t.rows, p.rows, p.batch);
  }

  lemma DrainShape(s: State)
    requires Shape(s)
    ensures Shape(Apply(s, DrainQueue))
  {
    var n := Min(s.batchSize, |s.queue|);
    assert s.queue == s.queue[..n] + s.queue[n..];
    assert s.drained + (s.queue[..n] + s.queue[n..]) == (s.drained + s.queue[..n]) + s.queue[n..];
  }

  lemma DrainSafe(s: State)
    requires Safe(s) && s.phase.Idle?
    ensures Safe(Apply(s, DrainQueue))
  {
    var s' := Apply(s, DrainQueue);
    assert s'.drained[..Reached(s')] == s.drained[..Reached(s)];
  }

  lemma DecideSafe(s: State)
    requires Shape(s) && Safe(s) && s.phase.Loaded?
    ensures Safe(Apply(s, Decide))
  {
    var s' := Apply(s, Decide);
    SubsequenceOfMore(s.log, s.drained[..Reached(s)], s.drained[..Reached(s')]);
  }

  lemma ApplyShape(s: State, step: Step)
    requires Shape(s)
    ensures Shape(Apply(s, step))
  {
    match step
    case Append(line) =>
      assert s.drained + s.queue + [line] == s.drained + (s.queue + [line]);
    case DrainQueue =>
      if s.phase.Idle? {
        DrainShape(s);
      }
    case Call(a) =>
      if s.phase.Sending? {
        CallShape(s, a);
      }
    case _ =>
  }

  lemma ApplySafe(s: State, step: Step)
    requires Shape(s) && Safe(s)
    ensures Safe(Apply(s, step))
  {
    match step
    case DrainQueue =>
      if s.phase.Idle? {
        DrainSafe(s);
      }
    case Decide =>
      if s.phase.Loaded? {
        DecideSafe(s);
      }
    case Call(a) =>
      if s.phase.Sending? {
        CallSafe(s, a);
      }
    case _ =>
  }

  lemma CallClosing(s: State, a: Attempt)
    requires Closing(s) && s.phase.Sending?
    ensures Closing(CallStep(s, a))
  {
    var s', p := CallStep(s, a), s.phase;
    assert s'.requests == s.requests + [Request(s.batches, p.index, p.rows, p.noMore)];
    assert s'.batches == s.batches;
    assert s'.phase == AfterBatch(p.noMore) || (s'.phase.Sending? && s'.phase.noMore == p.noMore);
  }

  lemma ApplyClosing(s: State, step: Step)
    requires Closing(s)
    ensures Closing(Apply(s, step))
  {
    if step.Call? && s.phase.Sending? {
      CallClosing(s, step.attempt);
    } else {
      assert Apply(s, step).requests == s.requests;
    }
  }

  lemma ApplyKeeps(s: State, step: Step)
    requires Inv(s)
    ensures Inv(Apply(s, step))
  {
    ApplyShape(s, step);
    ApplySafe(s, step);
    ApplyClosing(s, step);
  }

  lemma {:induction false} RunKeeps(batchSize: nat, steps: seq<Step>)
    ensures Inv(Run(Init(batchSize), steps))
  {
    if steps == [] {
      assert Picks([], [], []);
    } else {
      RunKeeps(batchSize, steps[..|steps| - 1]);
      ApplyKeeps(Run(Init(batchSize), steps[..|steps| - 1]), steps[|steps| - 1]);
    }
  }

  /** Whatever is lost, given up or falsely acknowledged: the server's log keeps the order of the
      appended lines and holds none twice, no line leaves the client's books, and after the first
      call with the final flag only calls for the same batch follow. */
  lemma DeliveryIsSafe(batchSize: nat, steps: seq<Step>)
    ensures var s := Run(Init(batchSize), steps);
            && Subsequence(s.log, s.appended)
            && s.appended == s.drained + s.queue
            && forall i, j :: 0 <= i < j < |s.requests| && s.requests[i].noMore ==> s.requests[j].batchNo == s.requests[i].batchNo
  {
    RunKeeps(batchSize, steps);
    var s := Run(Init(batchSize), steps);
    SubsequenceOfMore(s.log, s.drained[..Reached(s)], s.appended);
  }

  // ----- exactness without give-up ---------------------------------------------------------------

  /** The server holds exactly the first lines drained, and the labels are their positions. */
  ghost predicate Exact(s: State) {
    && s.log <= s.drained
    && (match s.phase
        case Loaded(batch) => s.nextIndex == |s.log| == |s.drained| - |batch|
        case Sending(batch, rows, index, _, _) =>
          index == |s.drained| - |rows| && index <= |s.log| && s.nextIndex == |s.drained| - |batch|
        case _ => s.nextIndex == |s.log| == |s.drained|)
  }

  lemma ServeExact(all: seq<Line>, t: Transit, accept: nat)
    requires SuffixOf(t.rows, all) && t.log <= all && t.index == |all| - |t.rows| && t.index <= |t.log|
    ensures var log := Serve(t.log, t.index, t.rows, accept);
            log <= all && t.index <= |log| && |log| == Min(|t.log| + accept, |all|)
  {
    var log := Serve(t.log, t.index, t.rows, accept);
    ServeContinues(t.log, t.index, t.rows, accept);
    assert forall i :: 0 <= i < |t.rows| ==> t.rows[i] == all[t.index + i];
    forall i | 0 <= i < |log| ensures log[i] == all[i] {
      assert i < |t.log| ==> log[i] == t.log[i];
      assert i >= |t.log| ==> log[i] == t.rows[i - t.index];
    }
  }

  lemma TryExact(all: seq<Line>, t: Transit, a: Attempt)
    requires SuffixOf(t.rows, all) && t.log <= all && t.index == |all| - |t.rows| && t.index <= |t.log|
    requires !a.reply.Empty? && !t.settled
    ensures var t' := Try(t, a);
            && t'.log <= all && t'.index == |all| - |t'.rows| && t'.index <= |t'.log|
            && (t'.settled ==> t'.log == all)
  {
    ServeExact(all, t, a.accept);
  }

  lemma CallExact(s: State, a: Attempt)
    requires Shape(s) && Exact(s) && s.phase.Sending?
    requires !CallStep(s, a).gaveUp && !CallStep(s, a).silent
    ensures Exact(CallStep(s, a))
  {
    var p := s.phase;
    SuffixTransitive(p.rows, p.batch, s.drained);
    TryExact(s.drained, Transit(s.log, p.rows, p.index, false), a);
  }

  lemma ApplyExact(s: State, step: Step)
    requires Shape(s) && Exact(s)
    requires !Apply(s, step).gaveUp && !Apply(s, step).silent
    ensures Exact(Apply(s, step))
  {
    if step.Call? && s.phase.Sending? {
      CallExact(s, step.attempt);
    }
  }

  lemma {:induction false} RunExact(batchSize: nat, steps: seq<Step>)
    requires !Run(Init(batchSize), steps).gaveUp && !Run(Init(batchSize), steps).silent
    ensures Exact(Run(Init(batchSize), steps))
  {
    if steps != [] {
      var s, step := Run(Init(batchSize), steps[..|steps| - 1]), steps[|steps| - 1];
      RunExact(batchSize, steps[..|steps| - 1]);
      RunKeeps(batchSize, steps[..|steps| - 1]);
      assert Apply(s, step).gaveUp == false == Apply(s, step).silent;
      ApplyExact(s, step);
    }
  }

  /** In every run in which no batch used up its tries and no reply was empty, the server's log is at
      every moment a prefix of the drained lines, so each row sits at its own index, and after every
      batch it is all of them with next_index_ their number. */
  lemma DeliveryIsExact(batchSize: nat, steps: seq<Step>)
    requires !Run(Init(batchSize), steps).gaveUp && !Run(Init(batchSize), steps).silent
    ensures var s := Run(Init(batchSize), steps);
            && s.log <= s.drained <= s.appended
            && (s.phase.Idle? || s.phase.Over? ==> s.log == s.drained && s.nextIndex == |s.drained|)
            && (s.phase.Over? && s.queue == [] ==> s.log == s.appended)
  {
    RunExact(batchSize, steps);
    RunKeeps(batchSize, steps);
  }

  // ----- give-up and finish ----------------------------------------------------------------------

  /** When exactness survives a call, for every reply and every number of tries left, from what is known
      before it: a reply that ends the batch without an acknowledgement needs the server to take all of
      it, and giving up needs besides that no row of the batch has been acknowledged away. */
  lemma ExactSurvivesIff(s: State, a: Attempt)
    requires Shape(s) && Exact(s) && s.phase.Sending?
    ensures Exact(CallStep(s, a)) <==>
            && (s.phase.tries == 1 || a.reply.Empty? ==> |s.log| + a.accept >= |s.drained|)
            && (s.phase.tries == 1 && a.reply.Failed? ==> |s.phase.rows| == |s.phase.batch|)
  {
    var p := s.phase;
    var t := Transit(s.log, p.rows, p.index, false);
    SuffixTransitive(p.rows, p.batch, s.drained);
    TryOutcome(s.drained, t, a);
    if Try(t, a).settled || p.tries == 1 {
      EndsExactIff(s, Try(t, a), CallStep(s, a));
    }
  }

  /** All there is to know of a try from an exact state. */
  lemma TryOutcome(all: seq<Line>, t: Transit, a: Attempt)
    requires SuffixOf(t.rows, all) && t.log <= all && t.index == |all| - |t.rows| && t.index <= |t.log| && !t.settled
    ensures var t' := Try(t, a);
            && t'.log <= all && |t'.log| == Min(|t.log| + a.accept, |all|)
            && (t'.settled <==> a.reply.Empty? || (a.reply.Acked? && |t.log| + a.accept >= |all|))
            && t'.index == |all| - |t'.rows| && t'.index <= |t'.log|
            && |t'.rows| == (if a.reply.Acked? && !t'.settled then |all| - |t'.log| else |t.rows|)
  {
    ServeExact(all, t, a.accept);
  }

  /** A batch that has just ended: what is left to compare is the length of the log and the label. */
  lemma EndsExactIff(s: State, t: Transit, s': State)
    requires Exact(s) && s.phase.Sending? && t.log <= s.drained && t.index == |s.drained| - |t.rows|
    requires s'.log == t.log && s'.drained == s.drained && s'.nextIndex == NextIndex(t, s.nextIndex)
    requires !s'.phase.Loaded? && !s'.phase.Sending?
    ensures Exact(s') <==> |t.log| == |s.drained| && (t.settled || |t.rows| == |s.phase.batch|)
  {
  }

  /** The last try gives up exactly on a lost reply or a partial acknowledgement.  It then leaves the
      next label short by the rows acknowledged away from the batch, and exactness survives if and only
      if the reply was lost, no row was acknowledged away and the server took all the rest. */
  lemma GiveUpShortfall(s: State, a: Attempt)
    requires Shape(s) && Exact(s) && s.phase.Sending? && s.phase.tries == 1
    ensures var gaveUp := !Try(Transit(s.log, s.phase.rows, s.phase.index, false), a).settled;
            && (gaveUp <==> a.reply.Failed? || (a.reply.Acked? && |s.log| + a.accept < |s.drained|))
            && (gaveUp ==>
                  var kept := if a.reply.Failed? then |s.phase.rows| else |s.drained| - (|s.log| + a.accept);
                  && CallStep(s, a).nextIndex == |s.drained| - (|s.phase.batch| - kept)
                  && (Exact(CallStep(s, a)) <==>
                        a.reply.Failed? && |s.phase.rows| == |s.phase.batch| && |s.log| + a.accept >= |s.drained|))
  {
    var p := s.phase;
    ExactSurvivesIff(s, a);
    SuffixTransitive(p.rows, p.batch, s.drained);
    TryOutcome(s.drained, Transit(s.log, p.rows, p.index, false), a);
  }

  // ----- acknowledged and stored -----------------------------------------------------------------

  /** The log has grown by the first lines of the batch, and the rows left are labelled with their own
      positions; or nothing was taken yet and the label is ahead. */
  ghost predicate InStep(log: seq<Line>, batch: seq<Line>, t: Transit) {
    var taken, past := |t.log| - |log|, |batch| - |t.rows|;
    && 0 <= taken <= |batch| && 0 <= past
    && t.log == log + batch[..taken]
    && t.rows == batch[past..]
    && ((t.index == |log| + past && past <= taken) || (taken == 0 && past == 0 && t.index >= |log|))
  }

  lemma Glue(log: seq<Line>, batch: seq<Line>, i: nat, j: nat)
    requires i <= j <= |batch|
    ensures (log + batch[..i]) + batch[i..j] == log + batch[..j]
  {
  }

  lemma ServeInStep(log: seq<Line>, batch: seq<Line>, t: Transit, accept: nat)
    requires InStep(log, batch, t)
    ensures InStep(log, batch, t.(log := Serve(t.log, t.index, t.rows, accept)))
  {
    if t.index <= |t.log| <= t.index + |t.rows| {
      var taken, past, seen := |t.log| - |log|, |batch| - |t.rows|, |t.log| - t.index;
      var end := Min(seen + accept, |t.rows|);
      SliceOfSuffix(batch, past, seen, end);
      Glue(log, batch, taken, past + end);
    }
  }

  /** A reply heard in step: `u` is the batch with the rows that the server has just taken. */
  lemma HearInStep(log: seq<Line>, batch: seq<Line>, u: Transit, t: Transit)
    requires InStep(log, batch, u) && t.log == u.log
    requires || (t.rows == u.rows && t.index == u.index)
             || (t.index == |u.log| && |u.log| < u.index + |u.rows| &&
                 t.rows == if 0 < |u.log| - u.index <= |u.rows| then u.rows[|u.log| - u.index..] else u.rows)
    ensures InStep(log, batch, t)
  {
    assert t.rows == batch[|batch| - |t.rows|..];
  }

  lemma AllInStep(log: seq<Line>, batch: seq<Line>, u: Transit)
    requires InStep(log, batch, u) && |u.log| >= u.index + |u.rows|
    ensures u.log == log + batch
  {
    assert batch[..|batch|] == batch;
  }

  lemma TryInStep(log: seq<Line>, batch: seq<Line>, t: Transit, a: Attempt)
    requires InStep(log, batch, t) && !a.reply.Empty? && !t.settled
    ensures InStep(log, batch, Try(t, a))
    ensures Try(t, a).settled ==> Try(t, a).log == log + batch
  {
    var u := t.(log := Serve(t.log, t.index, t.rows, a.accept));
    ServeInStep(log, batch, t, a.accept);
    HearInStep(log, batch, u, Try(t, a));
    if Try(t, a).settled {
      AllInStep(log, batch, u);
    }
  }

  /** The label is behind the log: the rows that the server takes for known are never stored. */
  ghost predicate IsBehind(log: seq<Line>, batch: seq<Line>, index: nat, t: Transit) {
    && t.index <= |t.log| && t.index + |t.rows| == index + |batch|
    && |t.log| < |log| + |batch|
  }

  lemma TryBehind(log: seq<Line>, batch: seq<Line>, index: nat, t: Transit, a: Attempt)
    requires index < |log| && IsBehind(log, batch, index, t)
    ensures IsBehind(log, batch, index, Try(t, a))
  {
  }

  /** As long as the batch is not settled: an empty reply would have settled it. */
  lemma {:induction false} TriesInStep(log: seq<Line>, batch: seq<Line>, ts: seq<Transit>, script: seq<Attempt>, retries: nat, i: nat)
    requires Tries(ts, script, retries) && InStep(log, batch, ts[0]) && i < |ts| - 1
    ensures InStep(log, batch, ts[i])
  {
    if i > 0 {
      TriesInStep(log, batch, ts, script, retries, i - 1);
      assert ts[i - 1 + 1] == Try(ts[i - 1], script[i - 1]) && !ts[i - 1].settled && !ts[i].settled;
      TryInStep(log, batch, ts[i - 1], script[i - 1]);
    }
  }

  /** An empty reply settles the batch whatever the server took: all of it only from its own position on. */
  lemma EmptyStoresIff(log: seq<Line>, batch: seq<Line>, u: Transit, accept: nat)
    requires InStep(log, batch, u) && batch != []
    ensures Serve(u.log, u.index, u.rows, accept) == log + batch <==>
            u.index <= |u.log| && |u.log| + accept >= u.index + |u.rows|
  {
    ServeInStep(log, batch, u, accept);
    ServeContinues(u.log, u.index, u.rows, accept);
    assert batch[..|batch|] == batch;
  }

  lemma {:induction false} TriesBehind(log: seq<Line>, batch: seq<Line>, index: nat, ts: seq<Transit>, script: seq<Attempt>, retries: nat, i: nat)
    requires Tries(ts, script, retries) && index < |log| && IsBehind(log, batch, index, ts[0]) && i < |ts|
    ensures IsBehind(log, batch, index, ts[i])
  {
    if i > 0 {
      TriesBehind(log, batch, index, ts, script, retries, i - 1);
      assert ts[i - 1 + 1] == Try(ts[i - 1], script[i - 1]);
      TryBehind(log, batch, index, ts[i - 1], script[i - 1]);
    }
  }

  /** When a batch that the client takes for acknowledged is stored: however many tries it took, the
      server has appended all of it if and only if its first label was not behind the server's log and,
      if the last reply was an empty one, the server could take all that was still missing. */
  lemma AcknowledgedIsStoredIff(ts: seq<Transit>, script: seq<Attempt>, retries: nat)
    requires Tries(ts, script, retries) && ts[0].rows != [] && !ts[0].settled && ts[|ts| - 1].settled
    ensures var u, a := ts[|ts| - 2], script[|ts| - 2];
            ts[|ts| - 1].log == ts[0].log + ts[0].rows <==>
              && |ts[0].log| <= ts[0].index
              && (a.reply.Empty? ==> u.index <= |u.log| && |u.log| + a.accept >= u.index + |u.rows|)
  {
    var t, last := ts[0], |ts| - 1;
    var u, a := ts[last - 1], script[last - 1];
    assert ts[last - 1 + 1] == Try(u, a) && !u.settled;
    if |t.log| <= t.index {
      assert t.log + t.rows[..0] == t.log;
      TriesInStep(t.log, t.rows, ts, script, retries, last - 1);
      if a.reply.Empty? {
        EmptyStoresIff(t.log, t.rows, u, a.accept);
      } else {
        TryInStep(t.log, t.rows, u, a);
      }
    } else {
      TriesBehind(t.log, t.rows, t.index, ts, script, retries, last);
    }
  }

  lemma {:induction false} RunConcat(s: State, a: seq<Step>, b: seq<Step>)
    ensures Run(s, a + b) == Run(Run(s, a), b)
  {
    if b == [] {
      assert a + b == a;
    } else {
      var n := |b| - 1;
      RunConcat(s, a, b[..n]);
      assert (a + b)[..|a + b| - 1] == a + b[..n];
    }
  }

  lemma RunFirst(s: State, step: Step, rest: seq<Step>)
    ensures Run(s, [step] + rest) == Run(Apply(s, step), rest)
  {
    RunConcat(s, [step], rest);
    assert Run(s, [step]) == Apply(s, step);
  }

  function Calls(script: seq<Attempt>): seq<Step> {
    seq(|script|, i requires 0 <= i < |script| => Call(script[i]))
  }

  lemma {:induction false} CallsWhenIdle(s: State, script: seq<Attempt>)
    requires !s.phase.Sending?
    ensures Run(s, Calls(script)) == s
  {
    if script != [] {
      var n := |script| - 1;
      CallsWhenIdle(s, script[..n]);
      assert Calls(script)[..n] == Calls(script[..n]);
    }
  }

  /** A batch ends after at most its tries, with the next phase and the queue untouched. */
  lemma {:induction false} CallsEnd(s: State, script: seq<Attempt>)
    requires s.phase.Sending? && 1 <= s.phase.tries <= |script|
    ensures var s' := Run(s, Calls(script));
            s'.phase == AfterBatch(s.phase.noMore) && s'.queue == s.queue && s'.drained == s.drained
    decreases s.phase.tries
  {
    var s1 := Apply(s, Call(script[0]));
    assert Calls(script) == [Call(script[0])] + Calls(script[1..]);
    RunFirst(s, Call(script[0]), Calls(script[1..]));
    if s1.phase.Sending? {
      CallsEnd(s1, script[1..]);
    } else {
      CallsWhenIdle(s1, script[1..]);
    }
  }

  function Failure(s: State, accept: nat): State { Apply(s, Call(Attempt(accept, Failed))) }

  /** A batch whose every call fails is sent unchanged three times and no more, then given up, and the
      next index passes it although nothing is known of it. */
  lemma ThreeFailures(s: State, a: nat, b: nat, c: nat)
    requires s.phase.Loaded? && (s.phase.batch != [] || s.done)
    ensures var s0 := Apply(s, Decide);
            var s2 := Failure(Failure(s0, a), b);
            var s3 := Failure(s2, c);
            && s2.phase.Sending? && s2.phase.rows == s.phase.batch && s2.phase.index == s.nextIndex == s2.nextIndex
            && s3.phase == (if s.done then Over else Idle) && s3.gaveUp && s3.nextIndex == s.nextIndex + |s.phase.batch|
            && s3.requests == s.requests + seq(3, i => Request(s.batches + 1, s.nextIndex, s.phase.batch, s.done))
  {
    var s0 := Apply(s, Decide);
    var s1 := Failure(s0, a);
    var s2 := Failure(s1, b);
    var r := Request(s.batches + 1, s.nextIndex, s.phase.batch, s.done);
    assert s1.requests == s.requests + [r] && s2.requests == s1.requests + [r] && Failure(s2, c).requests == s2.requests + [r];
    assert seq(3, i => r) == [r] + [r] + [r];
  }

  /** The calls of the transition system are the retry loop of the object: after the i-th call the
      batch stands where the i-th try left it. */
  lemma {:induction false} CallsAreTries(s: State, script: seq<Attempt>, ts: seq<Transit>, retries: nat, i: nat)
    requires s.phase.Sending? && s.phase.tries == retries && Tries(ts, script, retries)
    requires ts[0] == Transit(s.log, s.phase.rows, s.phase.index, false)
    requires 0 < i < |ts|
    ensures var s' := Run(s, Calls(script[..i]));
            && s'.log == ts[i].log
            && (i < |ts| - 1 ==> s'.phase == Sending(s.phase.batch, ts[i].rows, ts[i].index, retries - i, s.phase.noMore))
            && (i == |ts| - 1 ==> s'.phase == AfterBatch(s.phase.noMore) && s'.nextIndex == NextIndex(ts[i], s.nextIndex))
            && (i < |ts| - 1 ==> s'.nextIndex == s.nextIndex)
  {
    assert Calls(script[..i])[..i - 1] == Calls(script[..i - 1]);
    assert ts[i - 1 + 1] == Try(ts[i - 1], script[i - 1]) && !ts[i - 1].settled;
    if i > 1 {
      CallsAreTries(s, script, ts, retries, i - 1);
    } else {
      assert Run(s, Calls(script[..0])) == s;
    }
  }

  // ----- what finish() leaves behind -------------------------------------------------------------

  /** Once the flag is set: the lines that will still be queued when the worker ends.  A worker that has
      drained, or is sending its last batch, does not come back to the queue; any other drains once. */
  function WillLeave(s: State): seq<Line> {
    if s.phase.Idle? || (s.phase.Sending? && !s.phase.noMore) then s.queue[Min(s.batchSize, |s.queue|)..] else s.queue
  }

  lemma StepKeepsLeaving(s: State, step: Step)
    requires s.done && !step.Append?
    ensures Apply(s, step).done && WillLeave(Apply(s, step)) == WillLeave(s)
  {
  }

  predicate NoAppend(steps: seq<Step>) {
    forall i :: 0 <= i < |steps| ==> !steps[i].Append?
  }

  lemma {:induction false} RunKeepsLeaving(s: State, steps: seq<Step>)
    requires s.done && NoAppend(steps)
    ensures Run(s, steps).done && WillLeave(Run(s, steps)) == WillLeave(s)
  {
    if steps != [] {
      RunKeepsLeaving(s, steps[..|steps| - 1]);
      StepKeepsLeaving(Run(s, steps[..|steps| - 1]), steps[|steps| - 1]);
    }
  }

  /** Before finish() no batch is the last one and the worker has not ended. */
  lemma {:induction false} NothingLastYet(batchSize: nat, steps: seq<Step>)
    ensures var s := Run(Init(batchSize), steps); !s.done ==> !s.phase.Over? && (s.phase.Sending? ==> !s.phase.noMore)
  {
    if steps != [] {
      NothingLastYet(batchSize, steps[..|steps| - 1]);
      StillNothingLast(Run(Init(batchSize), steps[..|steps| - 1]), steps[|steps| - 1]);
    }
  }

  lemma StillNothingLast(s: State, step: Step)
    requires !s.done ==> !s.phase.Over? && (s.phase.Sending? ==> !s.phase.noMore)
    ensures var s' := Apply(s, step); !s'.done ==> !s'.phase.Over? && (s'.phase.Sending? ==> !s'.phase.noMore)
  {
  }

  /** What finish() leaves.  Called at any moment of any run, with nothing appended later: when the worker
      ends, the queue holds all that was queued if the worker had drained and not yet read the flag, and
      otherwise what did not fit into one batch.  So it is empty exactly when nothing was queued, or when
      the worker had not just drained and what was queued fits into a batch. */
  lemma FinishFlushesOneBatch(batchSize: nat, before: seq<Step>, after: seq<Step>)
    requires !Run(Init(batchSize), before).done && NoAppend(after)
    requires Run(Init(batchSize), before + [Finish] + after).phase.Over?
    ensures var s, left := Run(Init(batchSize), before), Run(Init(batchSize), before + [Finish] + after).queue;
            && left == (if s.phase.Loaded? then s.queue else s.queue[Min(s.batchSize, |s.queue|)..])
            && (left == [] <==> s.queue == [] || (!s.phase.Loaded? && |s.queue| <= s.batchSize))
  {
    var s0, s := Init(batchSize), Run(Init(batchSize), before);
    NothingLastYet(batchSize, before);
    RunConcat(s0, before + [Finish], after);
    RunConcat(s0, before, [Finish]);
    assert Run(s, [Finish]) == Apply(s, Finish);
    RunKeepsLeaving(Apply(s, Finish), after);
  }

  /** How many steps of its own the worker is from its end, once the flag is set. */
  function ToGo(s: State): nat {
    match s.phase
    case Over => 0
    case Sending(_, _, _, tries, noMore) => if noMore then tries else tries + MAX_TRIES + 2
    case Loaded(_) => MAX_TRIES + 1
    case Idle => MAX_TRIES + 2
  }

  predicate Counting(s: State) { s.phase.Sending? ==> 1 <= s.phase.tries <= MAX_TRIES }

  predicate Moves(s: State, step: Step) {
    (step.DrainQueue? && s.phase.Idle?) || (step.Decide? && s.phase.Loaded?) || (step.Call? && s.phase.Sending?)
  }

  /** Every step of the worker after finish() brings it closer to its end, whatever the replies, and no
      other step sets it back: so it ends. */
  lemma WorkerGetsCloser(s: State, step: Step)
    requires s.done && Counting(s)
    ensures Counting(Apply(s, step)) && Apply(s, step).done
    ensures if Moves(s, step) then ToGo(Apply(s, step)) < ToGo(s) else ToGo(Apply(s, step)) == ToGo(s)
    ensures !s.phase.Over? ==> exists next :: Moves(s, next)
  {
    if !s.phase.Over? {
      assert Moves(s, if s.phase.Idle? then DrainQueue else if s.phase.Loaded? then Decide else Call(Attempt(0, Failed)));
    }
  }

  lemma Consecutive(a: Step, b: Step, c: Step, rest: seq<Step>)
    ensures [a, b, c] + rest == [a] + ([b] + ([c] + rest))
  {
  }

  lemma RunThree(s: State, a: Step, b: Step, c: Step, rest: seq<Step>)
    ensures Run(s, [a, b, c] + rest) == Run(Apply(Apply(Apply(s, a), b), c), rest)
  {
    var last := [c] + rest;
    var later := [b] + last;
    Consecutive(a, b, c, rest);
    RunFirst(s, a, later);
    RunFirst(Apply(s, a), b, last);
    RunFirst(Apply(Apply(s, a), b), c, rest);
  }

  lemma RunSix(s: State, a: Step, b: Step, c: Step, d: Step, e: Step, f: Step)
    ensures Run(s, [a, b, c, d, e, f]) == Apply(Apply(Apply(Apply(Apply(Apply(s, a), b), c), d), e), f)
  {
    var rest: seq<Step> := [];
    RunThree(s, a, b, c, [d, e, f] + rest);
    RunThree(Apply(Apply(Apply(s, a), b), c), d, e, f, rest);
    assert [a, b, c] + ([d, e, f] + rest) == [a, b, c, d, e, f];
  }

  /** A queue larger than a batch: the second line is never sent, although no reply is lost or empty. */
  lemma FinishCanLeaveTheRest(x: Line, y: Line)
    ensures var s := Run(Init(1), [Append(x), Append(y), Finish, DrainQueue, Decide, Call(Attempt(1, Acked))]);
            s.phase.Over? && s.queue == [y] && s.log == [x] && !s.gaveUp && !s.silent
  {
    RunSix(Init(1), Append(x), Append(y), Finish, DrainQueue, Decide, Call(Attempt(1, Acked)));
    var s := Apply(Apply(Apply(Init(1), Append(x)), Append(y)), Finish);
    assert s.queue == [x, y];
    var t := Apply(Apply(s, DrainQueue), Decide);
    assert t.phase.rows == [x] && t.queue == [y];
    assert Serve([], 0, [x], 1) == [x];
  }

  /** A queue that fits, filled between the worker's drain and its look at the flag: it is never sent. */
  lemma FinishCanLeaveAllOfIt(x: Line, y: Line)
    ensures var s := Run(Init(5), [Append(x), DrainQueue, Append(y), Finish, Decide, Call(Attempt(1, Acked))]);
            s.phase.Over? && s.queue == [y] && s.log == [x] && !s.gaveUp && !s.silent
  {
    RunSix(Init(5), Append(x), DrainQueue, Append(y), Finish, Decide, Call(Attempt(1, Acked)));
    var s := Apply(Apply(Init(5), Append(x)), DrainQueue);
    assert s.phase.batch == [x] && s.queue == [];
    var t := Apply(Apply(Apply(s, Append(y)), Finish), Decide);
    assert t.phase.rows == [x] && t.queue == [y];
    assert Serve([], 0, [x], 1) == [x];
  }

  /** An empty reply counts as a full acknowledgement: here the server took nothing, and the line is gone
      for good, with its position given to the next one. */
  lemma EmptyReplyCanLoseALine(x: Line)
    ensures var s := Run(Init(1), [Append(x), DrainQueue, Decide, Call(Attempt(0, Empty))]);
            && s.phase.Idle? && s.queue == [] && !s.gaveUp
            && s.drained == [x] && s.nextIndex == 1
            && s.log == []
  {
    var call := Call(Attempt(0, Empty));
    RunThree(Init(1), Append(x), DrainQueue, Decide, [call]);
    assert [Append(x), DrainQueue, Decide] + [call] == [Append(x), DrainQueue, Decide, call];
    var s := Apply(Apply(Apply(Init(1), Append(x)), DrainQueue), Decide);
    assert s.phase == Sending([x], [x], 0, 3, false) && s.queue == [] && s.drained == [x];
    assert Run(s, [call]) == Apply(s, call);
    assert Serve([], 0, [x], 0) == [];
  }

  // ----- what the requests say -------------------------------------------------------------------

  /** The last batch is being sent, or has been. */
  predicate Final(s: State) {
    s.phase.Over? || (s.phase.Sending? && s.phase.noMore)
  }

  /** A request carries the final flag exactly if it belongs to the last batch. */
  ghost predicate Flagged(s: State) {
    && (forall i :: 0 <= i < |s.requests| ==> s.requests[i].batchNo <= s.batches)
    && (forall i :: 0 <= i < |s.requests| ==> (s.requests[i].noMore <==> Final(s) && s.requests[i].batchNo == s.batches))
    && (s.phase.Over? ==> s.requests != [] && s.requests[|s.requests| - 1].batchNo == s.batches)
  }

  lemma CallFlagged(s: State, a: Attempt)
    requires Flagged(s) && s.phase.Sending?
    ensures Flagged(CallStep(s, a))
  {
    var s', p := CallStep(s, a), s.phase;
    assert s'.requests == s.requests + [Request(s.batches, p.index, p.rows, p.noMore)];
    assert s'.batches == s.batches && (Final(s') <==> p.noMore);
  }

  lemma StepFlagged(s: State, step: Step)
    requires Flagged(s)
    ensures Flagged(Apply(s, step))
  {
    if step.Call? && s.phase.Sending? {
      CallFlagged(s, step.attempt);
    } else {
      assert Apply(s, step).requests == s.requests;
    }
  }

  lemma {:induction false} RunFlagged(batchSize: nat, steps: seq<Step>)
    ensures Flagged(Run(Init(batchSize), steps))
  {
    if steps != [] {
      RunFlagged(batchSize, steps[..|steps| - 1]);
      StepFlagged(Run(Init(batchSize), steps[..|steps| - 1]), steps[|steps| - 1]);
    }
  }

  /** The server learns that the log is complete: when the worker has ended, its last request carried the
      final flag, and so did every request of that batch and no other. */
  lemma LastBatchIsFlagged(batchSize: nat, steps: seq<Step>)
    requires Run(Init(batchSize), steps).phase.Over?
    ensures var r := Run(Init(batchSize), steps).requests;
            && r != [] && r[|r| - 1].noMore
            && forall i :: 0 <= i < |r| ==> (r[i].noMore <==> r[i].batchNo == r[|r| - 1].batchNo)
  {
    RunFlagged(batchSize, steps);
  }

  /** How many rows the server was willing to take in each call of a run. */
  function Accepted(batchSize: nat, steps: seq<Step>): seq<nat> {
    if steps == [] then []
    else
      var n := |steps| - 1;
      Accepted(batchSize, steps[..n]) +
      if steps[n].Call? && Run(Init(batchSize), steps[..n]).phase.Sending? then [steps[n].attempt.accept] else []
  }

  /** A server that is given the requests alone, from an empty log. */
  function Served(requests: seq<Request>, accepted: seq<nat>): seq<Line>
    requires |requests| == |accepted|
  {
    if requests == [] then []
    else
      var n := |requests| - 1;
      Serve(Served(requests[..n], accepted[..n]), requests[n].index, requests[n].rows, accepted[n])
  }

  lemma ServedOneMore(requests: seq<Request>, accepted: seq<nat>, r: Request, accept: nat)
    requires |requests| == |accepted|
    ensures Served(requests + [r], accepted + [accept]) == Serve(Served(requests, accepted), r.index, r.rows, accept)
  {
    var rs, counts := requests + [r], accepted + [accept];
    assert rs[..|requests|] == requests && counts[..|requests|] == accepted;
  }

  lemma CallServes(s: State, a: Attempt)
    requires s.phase.Sending?
    ensures CallStep(s, a).requests == s.requests + [Request(s.batches, s.phase.index, s.phase.rows, s.phase.noMore)]
    ensures CallStep(s, a).log == Serve(s.log, s.phase.index, s.phase.rows, a.accept)
  {
  }

  lemma QuietStep(s: State, step: Step)
    requires !(step.Call? && s.phase.Sending?)
    ensures Apply(s, step).requests == s.requests && Apply(s, step).log == s.log
  {
  }

  /** The server's log is what the requests themselves, by their labels and rows, build up. */
  lemma {:induction false} RequestsBuildTheLog(batchSize: nat, steps: seq<Step>)
    ensures var s := Run(Init(batchSize), steps);
            |s.requests| == |Accepted(batchSize, steps)| && s.log == Served(s.requests, Accepted(batchSize, steps))
  {
    if steps != [] {
      var n := |steps| - 1;
      var s, step := Run(Init(batchSize), steps[..n]), steps[n];
      RequestsBuildTheLog(batchSize, steps[..n]);
      if step.Call? && s.phase.Sending? {
        CallServes(s, step.attempt);
        ServedOneMore(s.requests, Accepted(batchSize, steps[..n]), Request(s.batches, s.phase.index, s.phase.rows, s.phase.noMore), step.attempt.accept);
      } else {
        QuietStep(s, step);
        assert Accepted(batchSize, steps[..n]) + [] == Accepted(batchSize, steps[..n]);
      }
    }
  }

  // ----- no secret is delivered ------------------------------------------------------------------

  /** Every appended line was appended by a step. */
  lemma {:induction false} AppendedByStep(batchSize: nat, steps: seq<Step>, line: Line)
    requires line in Run(Init(batchSize), steps).appended
    ensures exists i :: 0 <= i < |steps| && steps[i] == Append(line)
  {
    var n := |steps| - 1;
    if steps[n] != Append(line) {
      var before := Run(Init(batchSize), steps[..n]);
      assert Apply(before, steps[n]).appended == before.appended
          || (steps[n].Append? && Apply(before, steps[n]).appended == before.appended + [steps[n].line]);
      AppendedByStep(batchSize, steps[..n], line);
      var i :| 0 <= i < n && steps[..n][i] == Append(line);
      assert steps[i] == Append(line);
    }
  }

  /** Step i appended what masking with the secrets registered then made of some line. */
  ghost predicate MaskedAt(steps: seq<Step>, i: nat, secrets: seq<string>, raw: string) {
    i < |steps| && steps[i].Append? ==>
      "" !in secrets && (forall s :: s in secrets ==> Solid(s)) && steps[i].line.content == MaskAll(secrets, raw)
  }

  /** In every run whose lines were masked with the solid secrets registered when they were appended, each
      line of the server's log was appended, and contains none of the secrets registered at any step that
      appended it. */
  lemma NoSecretIsDelivered(batchSize: nat, steps: seq<Step>, secrets: nat -> seq<string>, raw: nat -> string, line: Line)
    requires forall i :: 0 <= i < |steps| ==> MaskedAt(steps, i, secrets(i), raw(i))
    requires line in Run(Init(batchSize), steps).log
    ensures exists i :: 0 <= i < |steps| && steps[i] == Append(line)
    ensures forall i, s :: 0 <= i < |steps| && steps[i] == Append(line) && s in secrets(i) ==> !Contains(line.content, s)
  {
    var state := Run(Init(batchSize), steps);
    DeliveryIsSafe(batchSize, steps);
    var f :| Picks(f, state.log, state.appended);
    var k :| 0 <= k < |state.log| && state.log[k] == line;
    assert state.appended[f[k]] == line;
    AppendedByStep(batchSize, steps, line);
    forall i, s | 0 <= i < |steps| && steps[i] == Append(line) && s in secrets(i) ensures !Contains(line.content, s) {
      assert MaskedAt(steps, i, secrets(i), raw(i));
      MaskingIsComplete(secrets(i), raw(i));
    }
  }

  /** ... and what is left in the queue then is never sent. */
  lemma {:induction false} OverIsFinal(s: State, steps: seq<Step>)
    requires s.phase.Over?
    ensures Run(s, steps).phase.Over? && Run(s, steps).log == s.log && Run(s, steps).requests == s.requests
  {
    if steps != [] {
      OverIsFinal(s, steps[..|steps| - 1]);
    }
  }

  /** After a give-up the labels can be so far behind that a later line is acknowledged although the
      server never took it.  Here the server takes a and says so, then takes b but its reply and the
      last one are lost; the client labels c with the position b already has. */
  lemma GiveUpCanLoseAnAcknowledgedLine(a: Line, b: Line, c: Line)
    ensures var s := Run(Init(2), [Append(a), Append(b), DrainQueue, Decide, Call(Attempt(1, Acked)), Call(Attempt(1, Failed))]
                                + [Call(Attempt(0, Failed)), Append(c), DrainQueue, Decide, Call(Attempt(1, Acked))]);
            && s.phase.Idle? && s.queue == [] && !s.silent
            && s.drained == [a, b, c] && s.nextIndex == 2
            && s.log == [a, b]
  {
    var first := [Append(a), Append(b), DrainQueue, Decide, Call(Attempt(1, Acked)), Call(Attempt(1, Failed))];
    var rest := [Call(Attempt(0, Failed)), Append(c), DrainQueue, Decide, Call(Attempt(1, Acked))];
    RunConcat(Init(2), first, rest);
    RunSix(Init(2), Append(a), Append(b), DrainQueue, Decide, Call(Attempt(1, Acked)), Call(Attempt(1, Failed)));
    TwoTries(a, b);
    ThirdTry(Run(Init(2), first), a, b, c);
  }

  lemma ThirdTry(s: State, a: Line, b: Line, c: Line)
    requires s.phase == Sending([a, b], [b], 1, 1, false) && s.log == s.drained == [a, b] && s.nextIndex == 0
    requires s.queue == [] && !s.silent && !s.done && s.batchSize == 2
    ensures var t := Run(s, [Call(Attempt(0, Failed)), Append(c), DrainQueue, Decide, Call(Attempt(1, Acked))]);
            t.phase.Idle? && t.queue == [] && !t.silent && t.drained == [a, b, c] && t.nextIndex == 2 && t.log == [a, b]
  {
    var t := Apply(Apply(Apply(s, Call(Attempt(0, Failed))), Append(c)), DrainQueue);
    RunThree(s, Call(Attempt(0, Failed)), Append(c), DrainQueue, [Decide, Call(Attempt(1, Acked))]);
    assert [Call(Attempt(0, Failed)), Append(c), DrainQueue] + [Decide, Call(Attempt(1, Acked))] ==
           [Call(Attempt(0, Failed)), Append(c), DrainQueue, Decide, Call(Attempt(1, Acked))];
    assert t.phase == Loaded([c]) && t.nextIndex == 1 && t.log == [a, b] && t.drained == [a, b, c] && t.queue == [];
    KnownPosition(t, a, b, c);
  }

  lemma KnownPosition(t: State, a: Line, b: Line, c: Line)
    requires t.phase == Loaded([c]) && t.nextIndex == 1 && t.log == [a, b] && !t.silent && !t.done
    ensures var u := Run(t, [Decide, Call(Attempt(1, Acked))]);
            u.phase.Idle? && u.queue == t.queue && !u.silent && u.drained == t.drained && u.nextIndex == 2 && u.log == [a, b]
  {
    var call := Call(Attempt(1, Acked));
    RunFirst(t, Decide, [call]);
    assert [Decide] + [call] == [Decide, call];
    assert Run(Apply(t, Decide), [call]) == Apply(Apply(t, Decide), call);
    assert Serve([a, b], 1, [c], 1) == [a, b];
  }

  lemma TwoTries(a: Line, b: Line)
    ensures var s := Apply(Apply(Apply(Apply(Apply(Apply(Init(2), Append(a)), Append(b)), DrainQueue), Decide), Call(Attempt(1, Acked))), Call(Attempt(1, Failed)));
            && s.phase == Sending([a, b], [b], 1, 1, false)
            && s.log == s.drained == [a, b] && s.nextIndex == 0 && s.queue == [] && !s.silent && !s.done && s.batchSize == 2
  {
    var s := Apply(Apply(Init(2), Append(a)), Append(b));
    assert s.queue == [a, b];
    var t := Apply(Apply(s, DrainQueue), Decide);
    assert t.phase == Sending([a, b], [a, b], 0, 3, false) && t.queue == [] && t.drained == [a, b];
    FirstTry(t, a, b);
    SecondTry(Apply(t, Call(Attempt(1, Acked))), a, b);
  }

  lemma FirstTry(t: State, a: Line, b: Line)
    requires t.phase == Sending([a, b], [a, b], 0, 3, false) && t.log == []
    ensures var u := Apply(t, Call(Attempt(1, Acked)));
            u.phase == Sending([a, b], [b], 1, 2, false) && u == t.(phase := u.phase, log := [a], requests := u.requests)
  {
    assert Serve([], 0, [a, b], 1) == [a];
    assert [a, b][1..] == [b];
    assert Try(Transit([], [a, b], 0, false), Attempt(1, Acked)) == Transit([a], [b], 1, false);
  }

  lemma SecondTry(t: State, a: Line, b: Line)
    requires t.phase == Sending([a, b], [b], 1, 2, false) && t.log == [a]
    ensures var u := Apply(t, Call(Attempt(1, Failed)));
            u.phase == Sending([a, b], [b], 1, 1, false) && u == t.(phase := u.phase, log := [a, b], requests := u.requests)
  {
    assert Serve([a], 1, [b], 1) == [a, b];
    assert Try(Transit([a], [b], 1, false), Attempt(1, Failed)) == Transit([a, b], [b], 1, false);
  }
}
