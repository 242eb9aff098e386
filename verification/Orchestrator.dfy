/**
 Local execution of a whole workflow: waves one after another, each wave in batches of threads,
 with max-parallel, fail-fast and cancellation.

 A job is an oracle: its result may be any function of the job and of the results it is shown.  The
 threads of a batch end in any order.  Cancellation is seen from any wave on.
 */
module Orchestrator {
  import opened JobGraph

  datatype JobResult = JobResult(success: bool, outputs: map<string, string>)
  type Results = map<string, JobResult>

  /** What happens to a job's thread: it is created with the results recorded so far, it ends. */
  datatype Event =
    | Start(job: string, wave: nat, seen: Results)
    | End(job: string, result: JobResult)

  type Trace = seq<Event>

  function Live(tr: Trace): set<string> {
    if tr == [] then {}
    else
      match tr[|tr| - 1]
      case Start(j, _, _) => Live(tr[..|tr| - 1]) + {j}
      case End(j, _) => Live(tr[..|tr| - 1]) - {j}
  }

  function Finished(tr: Trace): Results {
    if tr == [] then map[]
    else
      match tr[|tr| - 1]
      case Start(_, _, _) => Finished(tr[..|tr| - 1])
      case End(j, r) => Finished(tr[..|tr| - 1])[j := r]
  }

  ghost predicate Agrees(a: Results, b: Results) {
    forall j :: j in a ==> j in b && a[j] == b[j]
  }

  predicate Within(limits: seq<string>, jobs: Jobs, n: nat) {
    forall j :: j in limits && j in jobs && jobs[j].maxParallel > 0 ==> n <= jobs[j].maxParallel
  }

  /** A job may start once, in its own wave, with a recorded result for each of its needs, while only
      jobs of that wave are running and the wave's limits leave room for one more. */
  ghost predicate MayStart(jobs: Jobs, waves: seq<seq<string>>, live: set<string>, finished: Results, e: Event)
    requires e.Start?
  {
    && e.job in jobs && e.job !in live && e.job !in finished
    && e.wave < |waves| && e.job in waves[e.wave]
    && (forall n :: n in jobs[e.job].needs ==> n in e.seen)
    && Agrees(e.seen, finished)
    && (forall j :: j in live ==> j in waves[e.wave])
    && Within(waves[e.wave], jobs, |live| + 1)
  }

  ghost predicate Lawful(jobs: Jobs, waves: seq<seq<string>>, before: Trace, e: Event) {
    match e
    case Start(_, _, _) => MayStart(jobs, waves, Live(before), Finished(before), e)
    case End(j, _) => j in Live(before)
  }

  ghost predicate Good(jobs: Jobs, waves: seq<seq<string>>, tr: Trace) {
    tr == [] || (Good(jobs, waves, tr[..|tr| - 1]) && Lawful(jobs, waves, tr[..|tr| - 1], tr[|tr| - 1]))
  }

  lemma Extend(jobs: Jobs, waves: seq<seq<string>>, tr: Trace, e: Event)
    requires Good(jobs, waves, tr) && Lawful(jobs, waves, tr, e)
    ensures Good(jobs, waves, tr + [e])
    ensures Live(tr + [e]) == if e.Start? then Live(tr) + {e.job} else Live(tr) - {e.job}
    ensures Finished(tr + [e]) == if e.Start? then Finished(tr) else Finished(tr)[e.job := e.result]
  {
    assert (tr + [e])[..|tr|] == tr;
  }

  // ----- one batch -------------------------------------------------------------------------------

  /** What a batch, the jobs lo..hi of wave w, may rely on. */
  ghost predicate BatchFits(jobs: Jobs, waves: seq<seq<string>>, w: nat, lo: nat, hi: nat, seen: Results, finished: Results) {
    && w < |waves| && lo <= hi <= |waves[w]|
    && NoDuplicates(waves[w])
    && Within(waves[w], jobs, hi - lo)
    && Agrees(seen, finished)
    && (forall b :: lo <= b < hi ==> Unstarted(jobs, waves[w][b], seen, finished))
  }

  ghost predicate Unstarted(jobs: Jobs, j: string, seen: Results, finished: Results) {
    && j in jobs && j !in finished
    && (forall n :: n in jobs[j].needs ==> n in seen)
  }

  /** Between two events of a batch: of the started jobs exactly the live ones are unfinished. */
  ghost predicate InBatch(wave: seq<string>, lo: nat, next: nat, started: set<string>, live: set<string>, before: Results, finished: Results) {
    && lo <= next <= |wave| && |started| == next - lo
    && (forall b :: lo <= b < next ==> wave[b] in started)
    && (forall b :: next <= b < |wave| ==> wave[b] !in started)
    && (forall j :: j in started ==> j in wave && j !in before)
    && live <= started && live !! finished.Keys
    && finished.Keys == before.Keys + (started - live)
    && Agrees(before, finished)
  }

  lemma SmallerSet(a: set<string>, b: set<string>)
    requires a <= b
    ensures |a| <= |b|
  {
    Subset(a, b);
  }

  lemma StartIsLawful(jobs: Jobs, waves: seq<seq<string>>, w: nat, lo: nat, hi: nat, next: nat, seen: Results,
                      started: set<string>, live: set<string>, before: Results, finished: Results)
    requires BatchFits(jobs, waves, w, lo, hi, seen, before) && next < hi
    requires InBatch(waves[w], lo, next, started, live, before, finished)
    ensures MayStart(jobs, waves, live, finished, Start(waves[w][next], w, seen))
  {
    SmallerSet(live, started);
    assert Unstarted(jobs, waves[w][next], seen, before);
  }

  lemma StartKeeps(wave: seq<string>, lo: nat, next: nat, started: set<string>, live: set<string>, before: Results, finished: Results)
    requires InBatch(wave, lo, next, started, live, before, finished) && next < |wave|
    requires NoDuplicates(wave) && wave[next] !in before
    ensures InBatch(wave, lo, next + 1, started + {wave[next]}, live + {wave[next]}, before, finished)
  {
    assert started + {wave[next]} - (live + {wave[next]}) == started - live;
  }

  lemma EndKeeps(wave: seq<string>, lo: nat, next: nat, started: set<string>, live: set<string>, before: Results, finished: Results,
                 j: string, r: JobResult)
    requires InBatch(wave, lo, next, started, live, before, finished) && j in live
    ensures InBatch(wave, lo, next, started, live - {j}, before, finished[j := r])
  {
    assert started - (live - {j}) == (started - live) + {j};
  }

  /** The slot of every finished job of the batch holds its result. */
  ghost predicate Recorded(wave: seq<string>, lo: nat, next: nat, finished: Results, slots: seq<JobResult>) {
    && next <= |wave| == |slots|
    && (forall b :: lo <= b < next && wave[b] in finished ==> slots[b] == finished[wave[b]])
  }

  /** The results added are what the jobs answered when shown the results seen. */
  ghost predicate Answered(oracle: (string, Results) -> JobResult, seen: Results, before: Results, finished: Results) {
    forall j :: j in finished && j !in before ==> finished[j] == oracle(j, seen)
  }

  /** Where the job of a live thread has its slot. */
  method SlotOf(wave: seq<string>, j: string) returns (b: nat)
    requires j in wave
    ensures b < |wave| && wave[b] == j
  {
    b :| 0 <= b < |wave| && wave[b] == j;
  }

  method RunBatch(jobs: Jobs, waves: seq<seq<string>>, w: nat, lo: nat, hi: nat, seen: Results,
                  oracle: (string, Results) -> JobResult, trace: Trace, results: seq<JobResult>)
    returns (tr: Trace, slots: seq<JobResult>)
    requires Good(jobs, waves, trace) && Live(trace) == {}
    requires BatchFits(jobs, waves, w, lo, hi, seen, Finished(trace))
    requires |results| == |waves[w]|
    requires Recorded(waves[w], 0, lo, Finished(trace), results)
    ensures Good(jobs, waves, tr) && Live(tr) == {}
    ensures Agrees(Finished(trace), Finished(tr))
    ensures forall j :: j in Finished(tr) ==> j in Finished(trace) || j in waves[w]
    ensures forall b :: lo <= b < hi ==> waves[w][b] in Finished(tr)
    ensures forall b :: hi <= b < |waves[w]| && waves[w][b] !in Finished(trace) ==> waves[w][b] !in Finished(tr)
    ensures Recorded(waves[w], 0, hi, Finished(tr), slots)
    ensures Answered(oracle, seen, Finished(trace), Finished(tr))
  {
    tr, slots := trace, results;
    var wave, next, live := waves[w], lo, {};
    ghost var before, finished, started := Finished(trace), Finished(trace), {};
    while next < hi || live != {}
      invariant lo <= next <= hi && Live(tr) == live && Finished(tr) == finished
      invariant Good(jobs, waves, tr)
      invariant InBatch(wave, lo, next, started, live, before, finished)
      invariant Recorded(wave, 0, next, finished, slots)
      invariant Answered(oracle, seen, before, finished)
      decreases 2 * (hi - next) + |live|
    {
      if {
      case next < hi =>
        var e := Start(wave[next], w, seen);
        StartRecords(wave, lo, next, started, live, before, finished, slots);
        StartIsLawful(jobs, waves, w, lo, hi, next, seen, started, live, before, finished);
        StartKeeps(wave, lo, next, started, live, before, finished);
        Extend(jobs, waves, tr, e);
        tr, live, started, next := tr + [e], live + {wave[next]}, started + {wave[next]}, next + 1;
      case live != {} =>
        var j :| j in live;
        var b := SlotOf(wave, j);
        var r := oracle(j, seen);
        EndKeeps(wave, lo, next, started, live, before, finished, j, r);
        EndRecords(wave, next, finished, slots, b, r);
        EndAnswers(oracle, seen, before, finished, j);
        Extend(jobs, waves, tr, End(j, r));
        tr, live, slots, finished := tr + [End(j, r)], live - {j}, slots[b := r], finished[j := r];
      }
    }
    BatchDone(wave, lo, hi, started, before, finished);
  }

  lemma EndAnswers(oracle: (string, Results) -> JobResult, seen: Results, before: Results, finished: Results, j: string)
    requires Answered(oracle, seen, before, finished)
    ensures Answered(oracle, seen, before, finished[j := oracle(j, seen)])
  {
  }

  lemma BatchDone(wave: seq<string>, lo: nat, hi: nat, started: set<string>, before: Results, finished: Results)
    requires InBatch(wave, lo, hi, started, {}, before, finished)
    ensures forall j :: j in finished ==> j in before || j in wave
    ensures forall b :: lo <= b < hi ==> wave[b] in finished
    ensures forall b :: hi <= b < |wave| && wave[b] !in before ==> wave[b] !in finished
  {
  }

  lemma StartRecords(wave: seq<string>, lo: nat, next: nat, started: set<string>, live: set<string>, before: Results, finished: Results,
                     slots: seq<JobResult>)
    requires InBatch(wave, lo, next, started, live, before, finished) && next < |wave| && wave[next] !in before
    requires Recorded(wave, 0, next, finished, slots)
    ensures Recorded(wave, 0, next + 1, finished, slots)
  {
  }

  lemma EndRecords(wave: seq<string>, next: nat, finished: Results, slots: seq<JobResult>, b: nat, r: JobResult)
    requires Recorded(wave, 0, next, finished, slots) && NoDuplicates(wave) && b < |wave|
    ensures Recorded(wave, 0, next, finished[wave[b] := r], slots[b := r])
  {
  }

  // ----- one wave --------------------------------------------------------------------------------

  ghost predicate FailFast(jobs: Jobs, wave: seq<string>) {
    forall j :: j in wave && j in jobs ==> jobs[j].failFast
  }

  /** The wave's limit is the smallest positive max-parallel in it, or 0 when there is none. */
  method WaveLimits(jobs: Jobs, wave: seq<string>) returns (failFast: bool, limit: nat)
    ensures failFast <==> FailFast(jobs, wave)
    ensures limit == 0 ==> forall j :: j in wave && j in jobs ==> jobs[j].maxParallel <= 0
    ensures Within(wave, jobs, limit)
    ensures limit > 0 ==> exists j :: j in wave && j in jobs && jobs[j].maxParallel == limit
  {
    failFast, limit := true, 0;
    for i := 0 to |wave|
      invariant failFast <==> FailFast(jobs, wave[..i])
      invariant limit == 0 ==> forall j :: j in wave[..i] && j in jobs ==> jobs[j].maxParallel <= 0
      invariant Within(wave[..i], jobs, limit)
      invariant limit > 0 ==> exists j :: j in wave[..i] && j in jobs && jobs[j].maxParallel == limit
    {
      var id := wave[i];
      if id in jobs {
        if !jobs[id].failFast {
          failFast := false;
        }
        if jobs[id].maxParallel > 0 && (limit == 0 || jobs[id].maxParallel < limit) {
          limit := jobs[id].maxParallel;
        }
      }
      assert wave[..i + 1] == wave[..i] + [id];
    }
    assert wave[..|wave|] == wave;
  }

  /** What a whole wave may rely on. */
  ghost predicate WaveFits(jobs: Jobs, waves: seq<seq<string>>, w: nat, finished: Results) {
    && w < |waves| && NoDuplicates(waves[w])
    && (forall b :: 0 <= b < |waves[w]| ==> Unstarted(jobs, waves[w][b], finished, finished))
  }

  /** The first jobs of the wave have run, the others not. */
  ghost predicate RanUpTo(wave: seq<string>, at: nat, before: Results, finished: Results) {
    && at <= |wave|
    && Agrees(before, finished)
    && (forall j :: j in finished ==> j in before || j in wave)
    && (forall b :: 0 <= b < at ==> wave[b] in finished)
    && (forall b :: at <= b < |wave| ==> wave[b] !in finished)
  }

  lemma NextBatchFits(jobs: Jobs, waves: seq<seq<string>>, w: nat, at: nat, end: nat, limit: nat, before: Results, finished: Results)
    requires WaveFits(jobs, waves, w, before) && RanUpTo(waves[w], at, before, finished)
    requires at <= end <= |waves[w]| && Within(waves[w], jobs, limit)
    requires limit > 0 ==> end - at <= limit
    requires limit == 0 ==> forall j :: j in waves[w] && j in jobs ==> jobs[j].maxParallel <= 0
    ensures BatchFits(jobs, waves, w, at, end, before, finished)
  {
    forall b | at <= b < end ensures Unstarted(jobs, waves[w][b], before, finished) {
      assert Unstarted(jobs, waves[w][b], before, before);
    }
  }

  method RunWave(jobs: Jobs, waves: seq<seq<string>>, w: nat, completed: Results,
                 oracle: (string, Results) -> JobResult, trace: Trace, limit: nat)
    returns (tr: Trace, slots: seq<JobResult>, cuts: seq<nat>)
    requires Good(jobs, waves, trace) && Live(trace) == {} && completed == Finished(trace)
    requires WaveFits(jobs, waves, w, completed)
    requires Within(waves[w], jobs, limit)
    requires limit == 0 ==> forall j :: j in waves[w] && j in jobs ==> jobs[j].maxParallel <= 0
    ensures Good(jobs, waves, tr) && Live(tr) == {}
    ensures RanUpTo(waves[w], |waves[w]|, completed, Finished(tr))
    ensures Recorded(waves[w], 0, |waves[w]|, Finished(tr), slots)
    ensures Answered(oracle, completed, completed, Finished(tr))
    ensures FullBatches(cuts, if limit > 0 then limit else |waves[w]|, |waves[w]|) && cuts[|cuts| - 1] == |waves[w]|
  {
    var wave := waves[w];
    tr, slots, cuts := trace, seq(|wave|, _ => JobResult(false, map[])), [0];
    var batchSize := if limit > 0 then limit else |wave|;
    var at := 0;
    while at < |wave|
      invariant Good(jobs, waves, tr) && Live(tr) == {}
      invariant RanUpTo(wave, at, completed, Finished(tr))
      invariant Recorded(wave, 0, at, Finished(tr), slots)
      invariant Answered(oracle, completed, completed, Finished(tr))
      invariant FullBatches(cuts, batchSize, |wave|) && cuts[|cuts| - 1] == at
    {
      NextCut(cuts, batchSize, |wave|);
      var end := if at + batchSize < |wave| then at + batchSize else |wave|;
      NextBatchFits(jobs, waves, w, at, end, limit, completed, Finished(tr));
      ghost var before := Finished(tr);
      tr, slots := RunBatch(jobs, waves, w, at, end, completed, oracle, tr, slots);
      BatchAdds(wave, at, end, completed, before, Finished(tr));
      at, cuts := end, cuts + [end];
    }
  }

  /** Where the batches of a wave begin and end: each takes as many jobs as the size allows, or all that
      are left. */
  ghost predicate FullBatches(cuts: seq<nat>, size: nat, length: nat) {
    && cuts != [] && cuts[0] == 0
    && forall i :: 0 <= i < |cuts| - 1 ==> cuts[i] < length && cuts[i + 1] == if cuts[i] + size < length then cuts[i] + size else length
  }

  lemma NextCut(cuts: seq<nat>, size: nat, length: nat)
    requires FullBatches(cuts, size, length) && cuts[|cuts| - 1] < length
    ensures FullBatches(cuts + [if cuts[|cuts| - 1] + size < length then cuts[|cuts| - 1] + size else length], size, length)
  {
  }

  lemma BatchAdds(wave: seq<string>, at: nat, end: nat, start: Results, before: Results, finished: Results)
    requires RanUpTo(wave, at, start, before) && at <= end <= |wave| && Agrees(before, finished)
    requires forall j :: j in finished ==> j in before || j in wave
    requires forall b :: at <= b < end ==> wave[b] in finished
    requires forall b :: end <= b < |wave| && wave[b] !in before ==> wave[b] !in finished
    ensures RanUpTo(wave, end, start, finished)
  {
  }

  // ----- the whole run ---------------------------------------------------------------------------

  type Report = seq<(string, JobResult)>

  /** The report names every finished job once, with its result. */
  ghost predicate Reports(report: Report, finished: Results) {
    && (forall i :: 0 <= i < |report| ==> report[i].0 in finished && report[i].1 == finished[report[i].0])
    && (forall i, k :: 0 <= i < k < |report| ==> report[i].0 != report[k].0)
    && |report| == |finished|
  }

  ghost predicate AllGood(finished: Results) {
    forall j :: j in finished ==> finished[j].success
  }

  ghost predicate WaveFailed(wave: seq<string>, finished: Results) {
    exists j :: j in wave && j in finished && !finished[j].success
  }

  /** After a wave: its results join the report and the results shown to later waves. */
  method Collect(wave: seq<string>, slots: seq<JobResult>, before: Results, report0: Report, ghost finished: Results)
    returns (report: Report, completed: Results, failed: bool)
    requires NoDuplicates(wave) && RanUpTo(wave, |wave|, before, finished) && Recorded(wave, 0, |wave|, finished, slots)
    requires forall b :: 0 <= b < |wave| ==> wave[b] !in before
    requires Reports(report0, before)
    ensures completed == finished && Reports(report, finished)
    ensures failed <==> WaveFailed(wave, finished)
  {
    report, completed, failed := report0, before, false;
    for b := 0 to |wave|
      invariant Reports(report, completed)
      invariant RanUpTo(wave, b, before, completed) && Agrees(completed, finished)
      invariant failed <==> exists c :: 0 <= c < b && !slots[c].success
    {
      ReportOne(report, completed, wave[b], slots[b]);
      CollectOne(wave, b, before, completed, finished, slots[b]);
      report := report + [(wave[b], slots[b])];
      completed := completed[wave[b] := slots[b]];
      failed := failed || !slots[b].success;
    }
    SameResults(wave, before, completed, finished);
    SlotsTell(wave, slots, finished);
  }

  lemma CollectOne(wave: seq<string>, b: nat, before: Results, completed: Results, finished: Results, r: JobResult)
    requires NoDuplicates(wave) && b < |wave| && RanUpTo(wave, b, before, completed) && Agrees(completed, finished)
    requires wave[b] in finished && r == finished[wave[b]] && wave[b] !in before
    ensures RanUpTo(wave, b + 1, before, completed[wave[b] := r]) && Agrees(completed[wave[b] := r], finished)
  {
  }

  lemma SameResults(wave: seq<string>, before: Results, a: Results, b: Results)
    requires RanUpTo(wave, |wave|, before, a) && RanUpTo(wave, |wave|, before, b) && Agrees(a, b)
    ensures a == b
  {
    forall j | j in b ensures j in a {
      if j in wave {
        var c :| 0 <= c < |wave| && wave[c] == j;
      }
    }
  }

  lemma SlotsTell(wave: seq<string>, slots: seq<JobResult>, finished: Results)
    requires |slots| == |wave| && forall c :: 0 <= c < |wave| ==> wave[c] in finished && slots[c] == finished[wave[c]]
    ensures WaveFailed(wave, finished) <==> exists c :: 0 <= c < |wave| && !slots[c].success
  {
    if WaveFailed(wave, finished) {
      var j :| j in wave && j in finished && !finished[j].success;
      var c :| 0 <= c < |wave| && wave[c] == j;
      assert !slots[c].success;
    }
  }

  lemma ReportOne(report: Report, completed: Results, j: string, r: JobResult)
    requires Reports(report, completed) && j !in completed
    ensures Reports(report + [(j, r)], completed[j := r])
  {
    assert completed[j := r].Keys == completed.Keys + {j};
  }

  method AllSucceeded(report: Report) returns (ok: bool)
    ensures ok <==> forall i :: 0 <= i < |report| ==> report[i].1.success
  {
    for i := 0 to |report|
      invariant forall k :: 0 <= k < i ==> report[k].1.success
    {
      if !report[i].1.success {
        return false;
      }
    }
    return true;
  }

  /** Exactly the jobs of the first waves have run. */
  ghost predicate RanWaves(waves: seq<seq<string>>, w: nat, finished: Results) {
    forall j :: j in finished <==> exists k :: 0 <= k < w <= |waves| && j in waves[k]
  }

  /** What the schedule guarantees to the run. */
  ghost predicate Scheduled(jobs: Jobs, waves: seq<seq<string>>) {
    && ByDepth(jobs, waves) && NoneEmpty(waves) && Defined(jobs)
    && (forall k :: 0 <= k < |waves| ==> NoDuplicates(waves[k]))
  }

  lemma {:induction false} LayerKeepsDistinct(order: seq<string>, wave: map<string, int>, k: int)
    requires NoDuplicates(order)
    ensures NoDuplicates(Layer(order, wave, k))
  {
    if order != [] {
      var n := |order| - 1;
      LayerKeepsDistinct(order[..n], wave, k);
      LayerMembers(order[..n], wave, k, order[n]);
      NoDuplicatesConcat(Layer(order[..n], wave, k), if order[n] in wave && wave[order[n]] == k then [order[n]] else []);
    }
  }

  lemma NeedIsEarlier(jobs: Jobs, waves: seq<seq<string>>, w: nat, j: string, n: string)
    requires ByDepth(jobs, waves) && w < |waves| && j in waves[w] && n in jobs && Needs(jobs, j, n)
    ensures exists k :: 0 <= k < w && n in waves[k]
  {
    var k :| 0 <= k < |waves| && n in waves[k];
    var q :| Chain(jobs, q) && q[0] == n && |q| == k + 1;
    LongerChain(jobs, j, q);
    assert Longest(jobs, j, w) && ([j] + q)[0] == j;
  }

  lemma NextWaveFits(jobs: Jobs, waves: seq<seq<string>>, w: nat, finished: Results)
    requires Scheduled(jobs, waves) && w < |waves| && RanWaves(waves, w, finished)
    ensures WaveFits(jobs, waves, w, finished)
  {
    forall b | 0 <= b < |waves[w]| ensures Unstarted(jobs, waves[w][b], finished, finished) {
      var j := waves[w][b];
      assert j in waves[w] && j in jobs;
      forall k | 0 <= k < w ensures j !in waves[k] {
        if j in waves[k] {
          LongestIsUnique(jobs, j, k, w);
        }
      }
      forall n | n in jobs[j].needs ensures n in finished {
        assert AllIn(jobs[j].needs, jobs);
        NeedIsEarlier(jobs, waves, w, j, n);
      }
    }
  }

  lemma OneMoreWave(waves: seq<seq<string>>, w: nat, before: Results, finished: Results)
    requires w < |waves| && RanWaves(waves, w, before) && RanUpTo(waves[w], |waves[w]|, before, finished)
    ensures RanWaves(waves, w + 1, finished)
  {
    forall j ensures j in finished <==> exists k :: 0 <= k < w + 1 && j in waves[k] {
      if j in waves[w] {
        var b :| 0 <= b < |waves[w]| && waves[w][b] == j;
      }
    }
  }

  /** Why the run stopped after wave `ran`: the schedule was done, cancellation was seen, or the last
      wave failed with fail-fast. */
  ghost predicate StoppedAt(jobs: Jobs, waves: seq<seq<string>>, ran: nat, cancelFrom: nat, finished: Results) {
    && ran <= |waves| && ran <= cancelFrom
    && (forall k :: 0 <= k < ran - 1 ==> !(WaveFailed(waves[k], finished) && FailFast(jobs, waves[k])))
    && (ran < |waves| ==> ran == cancelFrom || (ran > 0 && WaveFailed(waves[ran - 1], finished) && FailFast(jobs, waves[ran - 1])))
  }

  ghost predicate Progress(jobs: Jobs, waves: seq<seq<string>>, w: nat, tr: Trace, completed: Results, report: Report) {
    && Good(jobs, waves, tr) && Live(tr) == {} && completed == Finished(tr)
    && Reports(report, completed) && RanWaves(waves, w, completed)
  }

  /** One round of the loop over the waves. */
  method NextWave(jobs: Jobs, waves: seq<seq<string>>, w: nat, oracle: (string, Results) -> JobResult,
                  trace: Trace, before: Results, report0: Report)
    returns (tr: Trace, completed: Results, report: Report, failed: bool, failFast: bool)
    requires Scheduled(jobs, waves) && w < |waves| && Progress(jobs, waves, w, trace, before, report0)
    requires NoFastFailure(jobs, waves, w, before) && AnsweredUpTo(oracle, waves, w, before)
    ensures Progress(jobs, waves, w + 1, tr, completed, report)
    ensures NoFastFailure(jobs, waves, w, completed)
    ensures failed <==> WaveFailed(waves[w], completed)
    ensures failFast <==> FailFast(jobs, waves[w])
    ensures AllGood(completed) <==> AllGood(before) && !failed
    ensures AnsweredUpTo(oracle, waves, w + 1, completed)
  {
    var limit;
    failFast, limit := WaveLimits(jobs, waves[w]);
    NextWaveFits(jobs, waves, w, before);
    var slots, cuts;
    tr, slots, cuts := RunWave(jobs, waves, w, before, oracle, trace, limit);
    report, completed, failed := Collect(waves[w], slots, before, report0, Finished(tr));
    OneMoreWave(waves, w, before, completed);
    StillNoFastFailure(jobs, waves, w, before, completed);
    GoodAfter(waves[w], before, completed);
    WaveAnswered(jobs, waves, w, oracle, before, completed);
    AnsweredGrows(oracle, waves, w, before, completed);
  }

  lemma WaveAnswered(jobs: Jobs, waves: seq<seq<string>>, w: nat, oracle: (string, Results) -> JobResult, before: Results, completed: Results)
    requires WaveFits(jobs, waves, w, before) && RanUpTo(waves[w], |waves[w]|, before, completed)
    requires Answered(oracle, before, before, completed)
    ensures forall j :: j in waves[w] ==> j in completed && completed[j] == oracle(j, before)
  {
    forall j | j in waves[w] ensures j in completed && completed[j] == oracle(j, before) {
      var b :| 0 <= b < |waves[w]| && waves[w][b] == j;
      assert Unstarted(jobs, waves[w][b], before, before);
    }
  }

  predicate InEarlierWave(waves: seq<seq<string>>, k: nat, j: string) {
    exists i :: 0 <= i < k <= |waves| && j in waves[i]
  }

  /** The results of the waves before wave k. */
  function Earlier(finished: Results, waves: seq<seq<string>>, k: nat): Results {
    map j | j in finished && InEarlierWave(waves, k, j) :: finished[j]
  }

  /** Every job of the first waves has the result that it gives when shown the results of the waves before its own. */
  ghost predicate AnsweredUpTo(oracle: (string, Results) -> JobResult, waves: seq<seq<string>>, w: nat, finished: Results) {
    w <= |waves| && forall k, j :: 0 <= k < w && j in waves[k] ==> j in finished && finished[j] == oracle(j, Earlier(finished, waves, k))
  }

  /** Later waves do not change what earlier ones were shown. */
  lemma EarlierIsFixed(waves: seq<seq<string>>, w: nat, k: nat, before: Results, finished: Results)
    requires k <= w <= |waves| && RanWaves(waves, w, before) && Agrees(before, finished)
    ensures Earlier(finished, waves, k) == Earlier(before, waves, k)
    ensures k == w ==> Earlier(before, waves, k) == before
  {
    forall j | InEarlierWave(waves, k, j) ensures j in before && j in finished && finished[j] == before[j] {
      var i :| 0 <= i < k <= |waves| && j in waves[i];
      assert j in before;
    }
    if k == w {
      forall j | j in before ensures InEarlierWave(waves, k, j) {
        var i :| 0 <= i < w <= |waves| && j in waves[i];
      }
    }
  }

  lemma AnsweredGrows(oracle: (string, Results) -> JobResult, waves: seq<seq<string>>, w: nat, before: Results, finished: Results)
    requires AnsweredUpTo(oracle, waves, w, before) && w < |waves| && RanWaves(waves, w, before) && Agrees(before, finished)
    requires forall j :: j in waves[w] ==> j in finished && finished[j] == oracle(j, before)
    ensures AnsweredUpTo(oracle, waves, w + 1, finished)
  {
    forall k, j | 0 <= k < w + 1 && j in waves[k] ensures j in finished && finished[j] == oracle(j, Earlier(finished, waves, k)) {
      EarlierIsFixed(waves, w, k, before, finished);
    }
  }

  /** The loop over the waves. */
  method RunWaves(jobs: Jobs, waves: seq<seq<string>>, oracle: (string, Results) -> JobResult, cancelFrom: nat)
    returns (success: bool, report: Report, tr: Trace, ran: nat, completed: Results)
    requires Scheduled(jobs, waves)
    ensures Progress(jobs, waves, ran, tr, completed, report)
    ensures StoppedAt(jobs, waves, ran, cancelFrom, completed)
    ensures success <==> ran == |waves| && AllGood(completed)
    ensures AnsweredUpTo(oracle, waves, ran, completed)
  {
    success, report, tr, ran, completed := true, [], [], 0, map[];
    NothingRan(jobs, waves);
    StopsHere(jobs, waves, 0, cancelFrom, completed);
    var more := 0 < |waves|;
    while more
      invariant Progress(jobs, waves, ran, tr, completed, report)
      invariant AnsweredUpTo(oracle, waves, ran, completed)
      invariant if more then ran < |waves| && Going(jobs, waves, ran, cancelFrom, completed, success)
                else Stopped(jobs, waves, ran, cancelFrom, completed, success)
      decreases |waves| - ran, more
    {
      if ran >= cancelFrom {
        StopsHere(jobs, waves, ran, cancelFrom, completed);
        success, more := false, false;
      } else {
        var failed, failFast;
        tr, completed, report, failed, failFast := NextWave(jobs, waves, ran, oracle, tr, completed, report);
        AfterWave(jobs, waves, ran, cancelFrom, completed, success, failed, failFast);
        success, more, ran := success && !failed, !(failed && failFast) && ran + 1 < |waves|, ran + 1;
      }
    }
  }

  /** Nothing has stopped the run yet. */
  ghost predicate Going(jobs: Jobs, waves: seq<seq<string>>, ran: nat, cancelFrom: nat, finished: Results, success: bool) {
    ran <= |waves| && ran <= cancelFrom && NoFastFailure(jobs, waves, ran, finished) && (success <==> AllGood(finished))
  }

  ghost predicate Stopped(jobs: Jobs, waves: seq<seq<string>>, ran: nat, cancelFrom: nat, finished: Results, success: bool) {
    StoppedAt(jobs, waves, ran, cancelFrom, finished) && (success <==> ran == |waves| && AllGood(finished))
  }

  lemma AfterWave(jobs: Jobs, waves: seq<seq<string>>, w: nat, cancelFrom: nat, finished: Results, success: bool, failed: bool, failFast: bool)
    requires w < |waves| && w < cancelFrom && NoFastFailure(jobs, waves, w, finished)
    requires (failed <==> WaveFailed(waves[w], finished)) && (failFast <==> FailFast(jobs, waves[w]))
    requires AllGood(finished) <==> success && !failed
    ensures !(failed && failFast) && w + 1 < |waves| ==> Going(jobs, waves, w + 1, cancelFrom, finished, success && !failed)
    ensures !(!(failed && failFast) && w + 1 < |waves|) ==> Stopped(jobs, waves, w + 1, cancelFrom, finished, success && !failed)
  {
    if failed && failFast {
      StopsFast(jobs, waves, w, cancelFrom, finished);
    } else {
      GoesOn(jobs, waves, w, finished);
      if w + 1 == |waves| {
        StopsHere(jobs, waves, w + 1, cancelFrom, finished);
      }
    }
  }

  lemma StopsHere(jobs: Jobs, waves: seq<seq<string>>, ran: nat, cancelFrom: nat, finished: Results)
    requires ran <= |waves| && ran <= cancelFrom && NoFastFailure(jobs, waves, ran, finished)
    ensures ran == |waves| || ran == cancelFrom ==> StoppedAt(jobs, waves, ran, cancelFrom, finished)
  {
  }

  lemma NothingRan(jobs: Jobs, waves: seq<seq<string>>)
    ensures Progress(jobs, waves, 0, [], map[], []) && NoFastFailure(jobs, waves, 0, map[]) && AllGood(map[])
  {
  }

  lemma StopsFast(jobs: Jobs, waves: seq<seq<string>>, w: nat, cancelFrom: nat, finished: Results)
    requires w < |waves| && w < cancelFrom && NoFastFailure(jobs, waves, w, finished)
    requires WaveFailed(waves[w], finished) && FailFast(jobs, waves[w])
    ensures StoppedAt(jobs, waves, w + 1, cancelFrom, finished)
  {
  }

  lemma GoesOn(jobs: Jobs, waves: seq<seq<string>>, w: nat, finished: Results)
    requires w < |waves| && NoFastFailure(jobs, waves, w, finished)
    requires !(WaveFailed(waves[w], finished) && FailFast(jobs, waves[w]))
    ensures NoFastFailure(jobs, waves, w + 1, finished)
  {
  }

  ghost predicate NoFastFailure(jobs: Jobs, waves: seq<seq<string>>, w: nat, finished: Results) {
    forall k :: 0 <= k < w <= |waves| ==> !(WaveFailed(waves[k], finished) && FailFast(jobs, waves[k]))
  }

  /** Results do not change any more, so earlier waves stay as they were. */
  lemma StillNoFastFailure(jobs: Jobs, waves: seq<seq<string>>, w: nat, before: Results, finished: Results)
    requires w < |waves| && NoFastFailure(jobs, waves, w, before) && RanWaves(waves, w, before) && Agrees(before, finished)
    ensures NoFastFailure(jobs, waves, w, finished)
  {
    forall k | 0 <= k < w ensures WaveFailed(waves[k], finished) ==> WaveFailed(waves[k], before) {
      if WaveFailed(waves[k], finished) {
        var j :| j in waves[k] && j in finished && !finished[j].success;
        assert j in before;
      }
    }
  }

  lemma GoodAfter(wave: seq<string>, before: Results, finished: Results)
    requires RanUpTo(wave, |wave|, before, finished)
    ensures AllGood(finished) <==> AllGood(before) && !WaveFailed(wave, finished)
  {
  }

  /** All waves ran if and only if all jobs did. */
  lemma AllRan(jobs: Jobs, waves: seq<seq<string>>, ran: nat, finished: Results)
    requires Scheduled(jobs, waves) && ran <= |waves| && RanWaves(waves, ran, finished)
    ensures finished.Keys <= jobs.Keys
    ensures ran == |waves| <==> finished.Keys == jobs.Keys
  {
    RanAreJobs(jobs, waves, ran, finished);
    if ran < |waves| {
      SomeoneDidNotRun(jobs, waves, ran, finished);
    } else {
      EveryoneRan(jobs, waves, finished);
    }
  }

  lemma RanAreJobs(jobs: Jobs, waves: seq<seq<string>>, ran: nat, finished: Results)
    requires Scheduled(jobs, waves) && RanWaves(waves, ran, finished)
    ensures finished.Keys <= jobs.Keys
  {
    forall j | j in finished ensures j in jobs {
      var k :| 0 <= k < ran <= |waves| && j in waves[k];
    }
  }

  lemma SomeoneDidNotRun(jobs: Jobs, waves: seq<seq<string>>, ran: nat, finished: Results)
    requires Scheduled(jobs, waves) && ran < |waves| && RanWaves(waves, ran, finished)
    ensures exists j :: j in jobs && j !in finished
  {
    var j := waves[ran][0];
    assert j in waves[ran] && j in jobs;
    NotYet(jobs, waves, ran, j);
    assert j !in finished;
  }

  lemma EveryoneRan(jobs: Jobs, waves: seq<seq<string>>, finished: Results)
    requires Scheduled(jobs, waves) && RanWaves(waves, |waves|, finished)
    ensures jobs.Keys <= finished.Keys
  {
    forall j | j in jobs ensures j in finished {
      assert exists k :: 0 <= k < |waves| && j in waves[k];
    }
  }

  lemma NotYet(jobs: Jobs, waves: seq<seq<string>>, ran: nat, j: string)
    requires Scheduled(jobs, waves) && ran < |waves| && j in waves[ran]
    ensures forall k :: 0 <= k < ran ==> j !in waves[k]
  {
    forall k | 0 <= k < ran ensures j !in waves[k] {
      if j in waves[k] {
        LongestIsUnique(jobs, j, k, ran);
      }
    }
  }

  lemma NoJobsNoCycle(jobs: Jobs)
    requires jobs == map[]
    ensures !HasCycle(jobs)
  {
    forall p ensures !Chain(jobs, p) {
      assert p == [] || p[0] !in jobs;
    }
  }

  /** The order and the schedule of a workflow, or nothing when it cannot be run. */
  method Plan(jobs: Jobs) returns (ok: bool, waves: seq<seq<string>>)
    requires jobs != map[]
    ensures ok <==> Defined(jobs) && !HasCycle(jobs)
    ensures ok ==> Scheduled(jobs, waves)
  {
    ok, waves := false, [];
    var order := TopologicalJobOrder(jobs);
    if order.UndefinedNeed? || order.value.hasCycle {
      return;
    }
    var schedule, wave := WaveSchedule(jobs, order.value.order);
    assert order.value.order != [] by {
      var j :| j in jobs;
      assert j in order.value.order;
    }
    forall k | 0 <= k < |schedule.waves| ensures NoDuplicates(schedule.waves[k]) {
      LayerKeepsDistinct(order.value.order, wave, k);
    }
    ok, waves := true, schedule.waves;
  }

  /** The run succeeds if and only if the needs are defined and acyclic, every job ran and every job
      succeeded.  The trace is lawful, the report is what finished, and the waves that ran are the
      first ones up to the stop; every result is its job's answer to the results of the earlier waves;
      nothing runs when the workflow cannot be planned. */
  method Run(jobs: Jobs, oracle: (string, Results) -> JobResult, cancelFrom: nat)
    returns (success: bool, report: Report, tr: Trace, ghost waves: seq<seq<string>>, ghost ran: nat)
    ensures Good(jobs, waves, tr) && Live(tr) == {}
    ensures Reports(report, Finished(tr))
    ensures success <==> Defined(jobs) && !HasCycle(jobs) && Finished(tr).Keys == jobs.Keys && AllGood(Finished(tr))
    ensures jobs != map[] && Defined(jobs) && !HasCycle(jobs) ==>
              && Scheduled(jobs, waves) && RanWaves(waves, ran, Finished(tr))
              && StoppedAt(jobs, waves, ran, cancelFrom, Finished(tr))
              && AnsweredUpTo(oracle, waves, ran, Finished(tr))
    ensures !Defined(jobs) || HasCycle(jobs) ==> tr == []
  {
    success, report, tr, waves, ran := true, [], [], [], 0;
    if jobs == map[] {
      NoJobsNoCycle(jobs);
      return;
    }
    var ok, planned := Plan(jobs);
    if !ok {
      success := false;
      return;
    }
    waves := planned;
    var done, completed;
    success, report, tr, done, completed := RunWaves(jobs, planned, oracle, cancelFrom);
    ran := done;
    AllRan(jobs, planned, done, completed);
    if success {
      success := AllSucceeded(report);
    }
  }

  // ----- what a lawful trace means ---------------------------------------------------------------

  lemma {:induction false} GoodPrefix(jobs: Jobs, waves: seq<seq<string>>, tr: Trace, n: nat)
    requires Good(jobs, waves, tr) && n <= |tr|
    ensures Good(jobs, waves, tr[..n])
    ensures n < |tr| ==> Lawful(jobs, waves, tr[..n], tr[n])
    decreases |tr|
  {
    if n < |tr| {
      var m := |tr| - 1;
      if n < m {
        GoodPrefix(jobs, waves, tr[..m], n);
        assert tr[..m][..n] == tr[..n];
      }
    } else {
      assert tr[..n] == tr;
    }
  }

  /** A finished job ended, with the result recorded for it. */
  lemma {:induction false} FinishedEnded(tr: Trace, j: string)
    requires j in Finished(tr)
    ensures exists k :: 0 <= k < |tr| && tr[k] == End(j, Finished(tr)[j])
  {
    var m := |tr| - 1;
    if tr[m].Start? || tr[m].job != j {
      FinishedEnded(tr[..m], j);
      var k :| 0 <= k < m && tr[..m][k] == End(j, Finished(tr[..m])[j]);
      assert tr[k] == End(j, Finished(tr)[j]);
    }
  }

  /** A job that was started is live or finished. */
  lemma {:induction false} StartedIsKnown(tr: Trace, i: nat)
    requires i < |tr| && tr[i].Start?
    ensures tr[i].job in Live(tr) || tr[i].job in Finished(tr)
  {
    var m := |tr| - 1;
    if i < m {
      StartedIsKnown(tr[..m], i);
    }
  }

  /** No job is started twice. */
  lemma StartsOnce(jobs: Jobs, waves: seq<seq<string>>, tr: Trace, i: nat, k: nat)
    requires Good(jobs, waves, tr) && i < k < |tr| && tr[i].Start? && tr[k].Start?
    ensures tr[i].job != tr[k].job
  {
    GoodPrefix(jobs, waves, tr, k);
    StartedIsKnown(tr[..k], i);
  }

  /** Before a job starts all its needs have ended, and it is shown the results they ended with. */
  lemma NeedsEndFirst(jobs: Jobs, waves: seq<seq<string>>, tr: Trace, i: nat, n: string)
    requires Good(jobs, waves, tr) && i < |tr| && tr[i].Start? && tr[i].job in jobs && n in jobs[tr[i].job].needs
    ensures n in tr[i].seen && exists k :: 0 <= k < i && tr[k] == End(n, tr[i].seen[n])
  {
    GoodPrefix(jobs, waves, tr, i);
    FinishedEnded(tr[..i], n);
    var k :| 0 <= k < i && tr[..i][k] == End(n, Finished(tr[..i])[n]);
    assert tr[k] == End(n, tr[i].seen[n]);
  }

  /** Live jobs belong to one wave, and never are more than any positive max-parallel in it allows. */
  lemma {:induction false} LiveIsBounded(jobs: Jobs, waves: seq<seq<string>>, tr: Trace)
    requires Good(jobs, waves, tr) && Live(tr) != {}
    ensures exists w :: 0 <= w < |waves| && (forall j :: j in Live(tr) ==> j in waves[w]) && Within(waves[w], jobs, |Live(tr)|)
  {
    var m := |tr| - 1;
    var e := tr[m];
    if e.Start? {
      assert Within(waves[e.wave], jobs, |Live(tr)|);
    } else {
      LiveIsBounded(jobs, waves, tr[..m]);
      var w :| 0 <= w < |waves| && (forall j :: j in Live(tr[..m]) ==> j in waves[w]) && Within(waves[w], jobs, |Live(tr[..m])|);
      SmallerSet(Live(tr), Live(tr[..m]));
      assert Within(waves[w], jobs, |Live(tr)|);
    }
  }

  // ----- cancelling running executors ------------------------------------------------------------

  /** The registry of running executors.  Each method is one critical section or one store; cancel()
      is StoreFlag followed by Sweep, with other threads' calls in between. */
  class Registry {
    var cancelled: bool
    var swept: bool
    var active: seq<nat>
    var told: set<nat>

    /** Once cancel() has swept, every registered executor has been told. */
    ghost predicate Valid()
      reads this
    {
      swept ==> cancelled && forall ex :: ex in active ==> ex in told
    }

    constructor ()
      ensures Valid() && !cancelled && !swept && active == [] && told == {}
    {
      cancelled, swept, active, told := false, false, [], {};
    }

    method StoreFlag()
      requires Valid()
      modifies this`cancelled
      ensures Valid() && cancelled
    {
      cancelled := true;
    }

    method Sweep()
      requires Valid() && cancelled
      modifies this`swept, this`told
      ensures Valid() && swept
      ensures told == old(told) + set ex | ex in active
    {
      for i := 0 to |active|
        invariant told == old(told) + set ex | ex in active[..i]
        invariant cancelled == old(cancelled) && active == old(active) && swept == old(swept)
      {
        assert active[..i + 1] == active[..i] + [active[i]];
        told := told + {active[i]};
      }
      assert active[..|active|] == active;
      swept := true;
    }

    method Register(ex: nat)
      requires Valid()
      modifies this`active, this`told
      ensures Valid()
      ensures active == old(active) + [ex]
      ensures told == if cancelled then old(told) + {ex} else old(told)
    {
      active := active + [ex];
      if cancelled {
        told := told + {ex};
      }
    }

    method Unregister(ex: nat)
      requires Valid()
      modifies this`active
      ensures Valid()
      ensures ex !in active && forall other :: other != ex ==> (other in active <==> other in old(active))
    {
      var kept := [];
      for i := 0 to |active|
        invariant active == old(active)
        invariant ex !in kept && forall other :: other != ex ==> (other in kept <==> other in active[..i])
      {
        assert active[..i + 1] == active[..i] + [active[i]];
        if active[i] != ex {
          kept := kept + [active[i]];
        }
      }
      assert active[..|active|] == active;
      active := kept;
    }
  }
}
