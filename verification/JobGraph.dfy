/**
 Job ordering by `needs`: Kahn's algorithm with cycle detection, and the schedule of waves.

 A job may name the same need twice, or itself.  The containers the source iterates in no fixed
 order are iterated here in any order.
 */
module JobGraph {

  datatype Job = Job(needs: seq<string>, failFast: bool, maxParallel: int)
  type Jobs = map<string, Job>

  datatype Result<T> = Ok(value: T) | UndefinedNeed(job: string, need: string)

  datatype JobOrder = JobOrder(order: seq<string>, hasCycle: bool, stuck: set<string>)

  // ----- the needs graph -------------------------------------------------------------------------

  predicate AllIn(needs: seq<string>, jobs: Jobs) {
    forall k :: 0 <= k < |needs| ==> needs[k] in jobs
  }

  predicate Defined(jobs: Jobs) {
    forall id {:trigger jobs[id]} :: id in jobs ==> AllIn(jobs[id].needs, jobs)
  }

  predicate Needs(jobs: Jobs, a: string, b: string) {
    a in jobs && b in jobs[a].needs
  }

  ghost predicate Link(jobs: Jobs, p: seq<string>, i: int) {
    0 <= i < |p| - 1 ==> Needs(jobs, p[i], p[i + 1])
  }

  /** A chain of jobs in which each needs the next. */
  ghost predicate Chain(jobs: Jobs, p: seq<string>) {
    && p != []
    && (forall i :: 0 <= i < |p| ==> p[i] in jobs)
    && (forall i :: Link(jobs, p, i))
  }

  lemma SubChain(jobs: Jobs, p: seq<string>, a: nat, b: nat)
    requires Chain(jobs, p) && a < b <= |p|
    ensures Chain(jobs, p[a..b])
  {
    var q := p[a..b];
    forall i ensures Link(jobs, q, i) {
      assert Link(jobs, p, a + i);
    }
  }

  lemma LongerChain(jobs: Jobs, j: string, q: seq<string>)
    requires Chain(jobs, q) && Needs(jobs, j, q[0])
    ensures Chain(jobs, [j] + q)
  {
    var p := [j] + q;
    forall i ensures Link(jobs, p, i) {
      assert Link(jobs, q, i - 1);
    }
  }

  ghost predicate HasCycle(jobs: Jobs) {
    exists p :: Chain(jobs, p) && |p| >= 2 && p[0] == p[|p| - 1]
  }

  /** p leads from j to a job it has already been through. */
  ghost predicate Lasso(jobs: Jobs, p: seq<string>, j: string) {
    Chain(jobs, p) && p[0] == j && p[|p| - 1] in p[..|p| - 1]
  }

  ghost predicate ReachesCycle(jobs: Jobs, j: string) {
    exists p :: Lasso(jobs, p, j)
  }

  lemma CycleIsReached(jobs: Jobs)
    requires HasCycle(jobs)
    ensures exists j :: ReachesCycle(jobs, j)
  {
    var p :| Chain(jobs, p) && |p| >= 2 && p[0] == p[|p| - 1];
    assert p[..|p| - 1][0] == p[0];
    assert Lasso(jobs, p, p[0]);
    assert ReachesCycle(jobs, p[0]);
  }

  lemma ClosedPart(jobs: Jobs, p: seq<string>, i: nat)
    requires Chain(jobs, p) && i < |p| - 1 && p[i] == p[|p| - 1]
    ensures HasCycle(jobs)
  {
    SubChain(jobs, p, i, |p|);
    var c := p[i..|p|];
    assert c[0] == c[|c| - 1];
  }

  lemma ReachedIsCycle(jobs: Jobs, j: string)
    requires ReachesCycle(jobs, j)
    ensures HasCycle(jobs) && j in jobs
  {
    var p :| Lasso(jobs, p, j);
    var i :| 0 <= i < |p| - 1 && p[..|p| - 1][i] == p[|p| - 1];
    ClosedPart(jobs, p, i);
  }

  ghost predicate NoDuplicates(q: seq<string>) {
    forall i, j :: 0 <= i < j < |q| ==> q[i] != q[j]
  }

  ghost predicate Met(needs: seq<string>, done: seq<string>) {
    forall k :: 0 <= k < |needs| ==> needs[k] in done
  }

  ghost predicate Placed(jobs: Jobs, order: seq<string>, i: nat) {
    i < |order| && order[i] in jobs ==> Met(jobs[order[i]].needs, order[..i])
  }

  /** Every job stands after all its needs. */
  ghost predicate NeedsFirst(jobs: Jobs, order: seq<string>) {
    forall i :: Placed(jobs, order, i)
  }

  ghost predicate Topological(jobs: Jobs, order: seq<string>) {
    && NoDuplicates(order)
    && (forall j :: j in order <==> j in jobs)
    && NeedsFirst(jobs, order)
  }

  // ----- counting --------------------------------------------------------------------------------

  /** How often x occurs in q. */
  function Occ(q: seq<string>, x: string): nat {
    if q == [] then 0 else Occ(q[..|q| - 1], x) + if q[|q| - 1] == x then 1 else 0
  }

  /** How many entries of q are not in done. */
  function Unmet(q: seq<string>, done: seq<string>): nat {
    if q == [] then 0 else Unmet(q[..|q| - 1], done) + if q[|q| - 1] in done then 0 else 1
  }

  lemma {:induction false} OccPositive(q: seq<string>, x: string)
    ensures Occ(q, x) > 0 <==> x in q
  {
    if q != [] {
      OccPositive(q[..|q| - 1], x);
      assert q == q[..|q| - 1] + [q[|q| - 1]];
    }
  }

  lemma OccPrefix(q: seq<string>, i: nat, x: string)
    requires i < |q|
    ensures Occ(q[..i + 1], x) == Occ(q[..i], x) + if q[i] == x then 1 else 0
  {
    assert q[..i + 1][..i] == q[..i];
  }

  lemma {:induction false} OccMonotone(q: seq<string>, i: nat, x: string)
    requires i <= |q|
    ensures Occ(q[..i], x) <= Occ(q, x)
    decreases |q| - i
  {
    if i < |q| {
      OccPrefix(q, i, x);
      OccMonotone(q, i + 1, x);
    } else {
      assert q[..i] == q;
    }
  }

  lemma {:induction false} UnmetNothingDone(q: seq<string>)
    ensures Unmet(q, []) == |q|
  {
    if q != [] {
      UnmetNothingDone(q[..|q| - 1]);
    }
  }

  lemma {:induction false} UnmetAfter(q: seq<string>, done: seq<string>, x: string)
    requires x !in done
    ensures Unmet(q, done + [x]) == Unmet(q, done) - Occ(q, x)
  {
    if q != [] {
      UnmetAfter(q[..|q| - 1], done, x);
    }
  }

  lemma {:induction false} UnmetZero(q: seq<string>, done: seq<string>)
    ensures Unmet(q, done) == 0 <==> Met(q, done)
  {
    if q != [] {
      UnmetZero(q[..|q| - 1], done);
    }
  }

  // ----- Kahn's algorithm ------------------------------------------------------------------------

  function Get(m: map<string, seq<string>>, k: string): seq<string> {
    if k in m then m[k] else []
  }

  /** dependents lists each job once for every time it needs the key, for the jobs in some set. */
  ghost predicate ListsDependents(dependents: map<string, seq<string>>, jobs: Jobs, some: set<string>) {
    forall n, j :: Occ(Get(dependents, n), j) == if j in some && j in jobs then Occ(jobs[j].needs, n) else 0
  }

  method AddDependents(jobs: Jobs, id: string, before: map<string, seq<string>>, ghost some: set<string>)
    returns (dependents: map<string, seq<string>>)
    requires id in jobs && id !in some && ListsDependents(before, jobs, some)
    ensures ListsDependents(dependents, jobs, some + {id})
  {
    dependents := before;
    var needs := jobs[id].needs;
    for k := 0 to |needs|
      invariant forall n, j :: Occ(Get(dependents, n), j) ==
                  if j == id then Occ(needs[..k], n) else Occ(Get(before, n), j)
    {
      ghost var was := dependents;
      var need := needs[k];
      dependents := dependents[need := Get(dependents, need) + [id]];
      forall n, j ensures Occ(Get(dependents, n), j) ==
                            if j == id then Occ(needs[..k + 1], n) else Occ(Get(before, n), j)
      {
        OccPrefix(needs, k, n);
        assert (Get(was, n) + [id])[..|Get(was, n)|] == Get(was, n);
      }
    }
    assert needs[..|needs|] == needs;
  }

  method BuildGraph(jobs: Jobs) returns (inDegree: map<string, int>, dependents: map<string, seq<string>>)
    ensures inDegree.Keys == jobs.Keys
    ensures forall j :: j in jobs ==> inDegree[j] == |jobs[j].needs|
    ensures ListsDependents(dependents, jobs, jobs.Keys)
  {
    inDegree, dependents := map[], map[];
    var todo := jobs.Keys;
    ghost var seen := {};
    NoDependentsYet(jobs);
    while todo != {}
      invariant seen + todo == jobs.Keys && seen !! todo && Counted(jobs, seen, inDegree)
      invariant ListsDependents(dependents, jobs, seen)
      decreases |todo|
    {
      var id :| id in todo;
      Shift(seen, todo, id);
      CountOne(jobs, seen, inDegree, id);
      inDegree := inDegree[id := |jobs[id].needs|];
      dependents := AddDependents(jobs, id, dependents, seen);
      seen, todo := seen + {id}, todo - {id};
    }
    assert seen == jobs.Keys;
  }

  /** Every job seen has as many needs to wait for as it lists. */
  ghost predicate Counted(jobs: Jobs, seen: set<string>, inDegree: map<string, int>) {
    inDegree.Keys == seen && forall j :: j in inDegree ==> j in jobs && inDegree[j] == |jobs[j].needs|
  }

  lemma CountOne(jobs: Jobs, seen: set<string>, inDegree: map<string, int>, id: string)
    requires Counted(jobs, seen, inDegree) && id in jobs
    ensures Counted(jobs, seen + {id}, inDegree[id := |jobs[id].needs|])
  {
  }

  lemma Shift(seen: set<string>, todo: set<string>, id: string)
    requires seen !! todo && id in todo
    ensures seen + {id} + (todo - {id}) == seen + todo
    ensures seen + {id} !! todo - {id}
    ensures id !in seen && |todo - {id}| < |todo|
  {
  }

  lemma NoDependentsYet(jobs: Jobs)
    ensures ListsDependents(map[], jobs, {})
  {
  }

  /** The jobs that have nothing left to wait for, in some order. */
  method InitialReady(inDegree: map<string, int>) returns (ready: seq<string>)
    ensures NoDuplicates(ready)
    ensures forall j :: j in ready <==> j in inDegree && inDegree[j] == 0
  {
    ready := [];
    var todo := inDegree.Keys;
    while todo != {}
      invariant todo <= inDegree.Keys && NoDuplicates(ready)
      invariant forall j :: j in ready <==> j in inDegree && j !in todo && inDegree[j] == 0
      decreases |todo|
    {
      var id :| id in todo;
      todo := todo - {id};
      if inDegree[id] == 0 {
        ready := ready + [id];
      }
    }
  }

  /** The inner loop: one dependency less for every listed dependent. */
  method Release(deps: seq<string>, before: map<string, int>) returns (inDegree: map<string, int>, freed: seq<string>)
    requires forall i :: 0 <= i < |deps| ==> deps[i] in before
    requires forall j :: j in before ==> Occ(deps, j) <= before[j]
    ensures inDegree.Keys == before.Keys
    ensures forall j :: j in before ==> inDegree[j] == before[j] - Occ(deps, j)
    ensures NoDuplicates(freed)
    ensures forall j :: j in freed <==> j in before && before[j] > 0 && inDegree[j] == 0
  {
    inDegree, freed := before, [];
    for i := 0 to |deps|
      invariant inDegree.Keys == before.Keys
      invariant forall j :: j in before ==> inDegree[j] == before[j] - Occ(deps[..i], j)
      invariant NoDuplicates(freed)
      invariant forall j :: j in freed <==> j in before && before[j] > 0 && inDegree[j] == 0
    {
      var dep := deps[i];
      forall j ensures Occ(deps[..i + 1], j) == Occ(deps[..i], j) + (if dep == j then 1 else 0) <= Occ(deps, j) {
        OccPrefix(deps, i, j);
        OccMonotone(deps, i + 1, j);
      }
      inDegree := inDegree[dep := inDegree[dep] - 1];
      if inDegree[dep] == 0 {
        freed := freed + [dep];
      }
    }
    assert deps[..|deps|] == deps;
  }

  /** What holds between two rounds of the main loop. */
  ghost predicate Kahn(jobs: Jobs, inDegree: map<string, int>, order: seq<string>, ready: seq<string>) {
    && inDegree.Keys == jobs.Keys
    && NoDuplicates(order + ready)
    && (forall j :: j in order + ready <==> j in jobs && inDegree[j] == 0)
    && (forall j :: j in jobs ==> inDegree[j] == Unmet(jobs[j].needs, order))
    && NeedsFirst(jobs, order)
  }

  lemma KahnInit(jobs: Jobs, inDegree: map<string, int>, ready: seq<string>)
    requires inDegree.Keys == jobs.Keys && NoDuplicates(ready)
    requires forall j :: j in jobs ==> inDegree[j] == |jobs[j].needs|
    requires forall j :: j in ready <==> j in inDegree && inDegree[j] == 0
    ensures Kahn(jobs, inDegree, [], ready)
  {
    assert [] + ready == ready;
    forall j | j in jobs ensures inDegree[j] == Unmet(jobs[j].needs, []) {
      UnmetNothingDone(jobs[j].needs);
    }
  }

  lemma NextFits(jobs: Jobs, inDegree: map<string, int>, order: seq<string>, ready: seq<string>)
    requires Kahn(jobs, inDegree, order, ready) && ready != []
    ensures ready[0] in jobs && ready[0] !in order
    ensures NeedsFirst(jobs, order + [ready[0]])
  {
    var id, all := ready[0], order + ready;
    assert all[|order|] == id && id in all;
    UnmetZero(jobs[id].needs, order);
    assert forall i :: 0 <= i < |order| ==> all[i] == order[i];
    var order' := order + [id];
    forall i: nat ensures Placed(jobs, order', i) {
      assert Placed(jobs, order, i);
      assert i <= |order| ==> order'[..i] == order[..i];
    }
  }

  lemma UnmetKept(jobs: Jobs, inDegree: map<string, int>, inDegree': map<string, int>, order: seq<string>, id: string)
    requires inDegree.Keys == inDegree'.Keys == jobs.Keys && id !in order
    requires forall j :: j in jobs ==> inDegree[j] == Unmet(jobs[j].needs, order)
    requires forall j :: j in jobs ==> inDegree'[j] == inDegree[j] - Occ(jobs[j].needs, id)
    ensures forall j :: j in jobs ==> inDegree'[j] == Unmet(jobs[j].needs, order + [id])
  {
    forall j | j in jobs ensures inDegree'[j] == Unmet(jobs[j].needs, order + [id]) {
      UnmetAfter(jobs[j].needs, order, id);
    }
  }

  lemma NoDuplicatesConcat(a: seq<string>, b: seq<string>)
    requires NoDuplicates(a) && NoDuplicates(b) && forall x :: x in b ==> x !in a
    ensures NoDuplicates(a + b)
  {
    assert forall i :: 0 <= i < |b| ==> b[i] in b;
  }

  lemma KahnStep(jobs: Jobs, inDegree: map<string, int>, order: seq<string>, ready: seq<string>,
                 inDegree': map<string, int>, freed: seq<string>)
    requires Kahn(jobs, inDegree, order, ready) && ready != []
    requires inDegree'.Keys == jobs.Keys
    requires forall j :: j in jobs ==> inDegree'[j] == inDegree[j] - Occ(jobs[j].needs, ready[0])
    requires NoDuplicates(freed)
    requires forall j :: j in freed <==> j in jobs && inDegree[j] > 0 && inDegree'[j] == 0
    ensures Kahn(jobs, inDegree', order + [ready[0]], ready[1..] + freed)
  {
    var id := ready[0];
    NextFits(jobs, inDegree, order, ready);
    UnmetKept(jobs, inDegree, inDegree', order, id);
    var all := order + ready;
    assert order + [id] + (ready[1..] + freed) == all + freed;
    NoDuplicatesConcat(all, freed);
  }

  /** Enough for Release: no job is listed more often than it still waits. */
  lemma ReleaseFits(jobs: Jobs, inDegree: map<string, int>, order: seq<string>, id: string, deps: seq<string>)
    requires inDegree.Keys == jobs.Keys && id !in order
    requires forall j :: j in jobs ==> inDegree[j] == Unmet(jobs[j].needs, order)
    requires forall j :: Occ(deps, j) == if j in jobs then Occ(jobs[j].needs, id) else 0
    ensures forall i :: 0 <= i < |deps| ==> deps[i] in jobs
    ensures forall j :: j in jobs ==> Occ(deps, j) <= inDegree[j]
  {
    forall i | 0 <= i < |deps| ensures deps[i] in jobs {
      OccPositive(deps, deps[i]);
    }
    forall j | j in jobs ensures Occ(deps, j) <= inDegree[j] {
      UnmetAfter(jobs[j].needs, order, id);
    }
  }

  function ToSet(q: seq<string>): set<string> { set x | x in q }

  lemma {:induction false} SizeOf(q: seq<string>)
    requires NoDuplicates(q)
    ensures |ToSet(q)| == |q|
  {
    if q != [] {
      var n := |q| - 1;
      SizeOf(q[..n]);
      assert ToSet(q) == ToSet(q[..n]) + {q[n]};
      assert q[n] !in q[..n];
    }
  }

  /** The main loop. */
  method Sort(jobs: Jobs, degrees: map<string, int>, dependents: map<string, seq<string>>)
    returns (order: seq<string>, inDegree: map<string, int>)
    requires degrees.Keys == jobs.Keys && forall j :: j in jobs ==> degrees[j] == |jobs[j].needs|
    requires ListsDependents(dependents, jobs, jobs.Keys)
    ensures Kahn(jobs, inDegree, order, [])
  {
    inDegree, order := degrees, [];
    var ready := InitialReady(inDegree);
    KahnInit(jobs, inDegree, ready);
    while ready != []
      invariant Kahn(jobs, inDegree, order, ready)
      decreases |jobs| - |order|
    {
      ghost var was := inDegree;
      var id := ready[0];
      NextFits(jobs, inDegree, order, ready);
      ReleaseFits(jobs, inDegree, order, id, Get(dependents, id));
      var released, freed := Release(Get(dependents, id), inDegree);
      KahnStep(jobs, inDegree, order, ready, released, freed);
      OrderFits(jobs, released, order + [id], ready[1..] + freed);
      inDegree, order, ready := released, order + [id], ready[1..] + freed;
    }
  }

  lemma OrderFits(jobs: Jobs, inDegree: map<string, int>, order: seq<string>, ready: seq<string>)
    requires Kahn(jobs, inDegree, order, ready)
    ensures NoDuplicates(order) && (forall j :: j in order ==> j in jobs) && |order| <= |jobs|
  {
    var all := order + ready;
    assert forall i :: 0 <= i < |order| ==> all[i] == order[i] && order[i] in all;
    SizeOf(order);
    Subset(ToSet(order), jobs.Keys);
  }

  lemma {:induction false} Subset(a: set<string>, b: set<string>)
    requires a <= b
    ensures |a| <= |b| && (|a| == |b| ==> a == b)
  {
    if a != {} {
      var x :| x in a;
      Subset(a - {x}, b - {x});
    }
  }

  // ----- what the order means --------------------------------------------------------------------

  /** The order is closed under needs, and every other job has a need outside it. */
  ghost predicate Maximal(jobs: Jobs, order: seq<string>) {
    && NoDuplicates(order)
    && NeedsFirst(jobs, order)
    && (forall j :: j in order ==> j in jobs)
    && (forall j {:trigger jobs[j]} :: j in jobs && j !in order ==> !Met(jobs[j].needs, order))
  }

  lemma KahnIsMaximal(jobs: Jobs, inDegree: map<string, int>, order: seq<string>)
    requires Kahn(jobs, inDegree, order, [])
    ensures Maximal(jobs, order)
    ensures forall j :: j in jobs ==> (inDegree[j] > 0 <==> j !in order)
  {
    OrderFits(jobs, inDegree, order, []);
    assert order + [] == order;
    forall j | j in jobs && j !in order ensures !Met(jobs[j].needs, order) {
      UnmetZero(jobs[j].needs, order);
    }
  }

  function IndexOf(q: seq<string>, x: string): (i: nat)
    requires x in q
    ensures i < |q| && q[i] == x && x !in q[..i]
  {
    if q[0] == x then 0
    else
      assert q == [q[0]] + q[1..];
      var i := IndexOf(q[1..], x) + 1;
      assert q[..i] == [q[0]] + q[1..][..i - 1];
      i
  }

  /** Along a chain that starts in the order, positions go down. */
  lemma {:induction false} ChainDescends(jobs: Jobs, order: seq<string>, p: seq<string>, i: nat)
    requires NoDuplicates(order) && NeedsFirst(jobs, order) && Chain(jobs, p) && p[0] in order && i < |p|
    ensures p[i] in order && IndexOf(order, p[i]) + i <= IndexOf(order, p[0])
  {
    if i > 0 {
      ChainDescends(jobs, order, p, i - 1);
      var at := IndexOf(order, p[i - 1]);
      assert Link(jobs, p, i - 1) && Placed(jobs, order, at);
      assert p[i] in order[..at];
      assert IndexOf(order, p[i]) < at by {
        var b :| 0 <= b < at && order[..at][b] == p[i];
        assert order[b] == p[i];
      }
    }
  }

  /** Positions strictly go down between any two members of the chain. */
  lemma {:induction false} ChainStrict(jobs: Jobs, order: seq<string>, p: seq<string>, i: nat, j: nat)
    requires NoDuplicates(order) && NeedsFirst(jobs, order) && Chain(jobs, p) && p[0] in order && i < j < |p|
    ensures p[i] != p[j]
  {
    ChainDescends(jobs, order, p, i);
    var q := p[i..|p|];
    SubChain(jobs, p, i, |p|);
    ChainDescends(jobs, order, q, j - i);
    assert q[j - i] == p[j] && q[0] == p[i];
  }

  lemma OrderedJobsAreAcyclic(jobs: Jobs, order: seq<string>, j: string)
    requires Maximal(jobs, order) && j in order
    ensures !ReachesCycle(jobs, j)
  {
    forall p ensures !Lasso(jobs, p, j) {
      if Lasso(jobs, p, j) {
        var i :| 0 <= i < |p| - 1 && p[..|p| - 1][i] == p[|p| - 1];
        ChainStrict(jobs, order, p, i, |p| - 1);
      }
    }
  }

  /** A walk of n steps that never enters the order. */
  lemma {:induction false} Walk(jobs: Jobs, order: seq<string>, j: string, n: nat) returns (p: seq<string>)
    requires Defined(jobs) && Maximal(jobs, order) && j in jobs && j !in order
    ensures Chain(jobs, p) && |p| == n + 1 && p[0] == j
    decreases n
  {
    if n == 0 {
      p := [j];
    } else {
      var k :| 0 <= k < |jobs[j].needs| && jobs[j].needs[k] !in order;
      var q := Walk(jobs, order, jobs[j].needs[k], n - 1);
      p := [j] + q;
      LongerChain(jobs, j, q);
    }
  }

  lemma RepeatIsLasso(jobs: Jobs, p: seq<string>, a: nat, b: nat)
    requires Chain(jobs, p) && a < b < |p| && p[a] == p[b]
    ensures ReachesCycle(jobs, p[0])
  {
    var q := p[0..b + 1];
    SubChain(jobs, p, 0, b + 1);
    assert q[..|q| - 1][a] == p[a] == q[|q| - 1];
    assert Lasso(jobs, q, p[0]);
  }

  lemma StuckJobsReachACycle(jobs: Jobs, order: seq<string>, j: string)
    requires Defined(jobs) && Maximal(jobs, order) && j in jobs && j !in order
    ensures ReachesCycle(jobs, j)
  {
    var p := Walk(jobs, order, j, |jobs|);
    TooLong(jobs, p);
    var a, b :| 0 <= a < b < |p| && p[a] == p[b];
    RepeatIsLasso(jobs, p, a, b);
  }

  lemma TooLong(jobs: Jobs, p: seq<string>)
    requires Chain(jobs, p) && |p| > |jobs|
    ensures !NoDuplicates(p)
  {
    if NoDuplicates(p) {
      SizeOf(p);
      Subset(ToSet(p), jobs.Keys);
    }
  }

  /** Topological order.  It fails exactly when some need is undefined; otherwise the order has no
      duplicates and puts every need first, a cycle is reported if and only if the graph has one, and
      the jobs reported stuck are exactly those that can reach a cycle. */
  method TopologicalJobOrder(jobs: Jobs) returns (r: Result<JobOrder>)
    ensures r.UndefinedNeed? <==> !Defined(jobs)
    ensures r.UndefinedNeed? ==> r.job in jobs && r.need in jobs[r.job].needs && r.need !in jobs
    ensures r.Ok? ==>
              && NoDuplicates(r.value.order)
              && NeedsFirst(jobs, r.value.order)
              && (forall j :: j in r.value.order <==> j in jobs && !ReachesCycle(jobs, j))
              && (forall j :: j in r.value.stuck <==> j in jobs && ReachesCycle(jobs, j))
              && (r.value.hasCycle <==> HasCycle(jobs))
              && (!r.value.hasCycle ==> Topological(jobs, r.value.order))
  {
    if exists id :: id in jobs && exists k :: 0 <= k < |jobs[id].needs| && jobs[id].needs[k] !in jobs {
      var id :| id in jobs && exists k :: 0 <= k < |jobs[id].needs| && jobs[id].needs[k] !in jobs;
      var k :| 0 <= k < |jobs[id].needs| && jobs[id].needs[k] !in jobs;
      return UndefinedNeed(id, jobs[id].needs[k]);
    }
    var degrees, dependents := BuildGraph(jobs);
    var order, inDegree := Sort(jobs, degrees, dependents);
    KahnIsMaximal(jobs, inDegree, order);
    var hasCycle := |order| != |jobs|;
    var stuck := if hasCycle then set j | j in jobs && inDegree[j] > 0 else {};
    OrderDecides(jobs, order);
    r := Ok(JobOrder(order, hasCycle, stuck));
  }

  lemma OrderDecides(jobs: Jobs, order: seq<string>)
    requires Defined(jobs) && Maximal(jobs, order)
    ensures forall j :: j in jobs ==> (j in order <==> !ReachesCycle(jobs, j))
    ensures forall j :: ReachesCycle(jobs, j) ==> j in jobs
    ensures |order| == |jobs| <==> forall j :: j in jobs ==> j in order
    ensures |order| != |jobs| <==> HasCycle(jobs)
  {
    forall j | j in jobs ensures j in order <==> !ReachesCycle(jobs, j) {
      if j in order {
        OrderedJobsAreAcyclic(jobs, order, j);
      } else {
        StuckJobsReachACycle(jobs, order, j);
      }
    }
    forall j | ReachesCycle(jobs, j) ensures j in jobs && HasCycle(jobs) {
      ReachedIsCycle(jobs, j);
    }
    if HasCycle(jobs) {
      CycleIsReached(jobs);
    }
    AllOrdered(jobs, order);
  }

  lemma AllOrdered(jobs: Jobs, order: seq<string>)
    requires NoDuplicates(order) && forall j :: j in order ==> j in jobs
    ensures |order| == |jobs| <==> forall j :: j in jobs ==> j in order
  {
    SizeOf(order);
    Subset(ToSet(order), jobs.Keys);
    if forall j :: j in jobs ==> j in order {
      assert ToSet(order) == jobs.Keys;
    }
  }

  // ----- waves -----------------------------------------------------------------------------------

  /** The longest chain from j has w links. */
  ghost predicate Longest(jobs: Jobs, j: string, w: int) {
    && (exists p :: Chain(jobs, p) && p[0] == j && |p| == w + 1)
    && (forall p :: Chain(jobs, p) && p[0] == j ==> |p| <= w + 1)
  }

  /** maxWave is the greatest wave among the needs seen so far, or -1. */
  ghost predicate Greatest(needs: seq<string>, wave: map<string, int>, maxWave: int) {
    && (forall k :: 0 <= k < |needs| && needs[k] in wave ==> wave[needs[k]] <= maxWave)
    && (maxWave == -1 || exists k :: 0 <= k < |needs| && needs[k] in wave && wave[needs[k]] == maxWave)
  }

  lemma LongestStep(jobs: Jobs, j: string, wave: map<string, int>, maxWave: int)
    requires j in jobs && maxWave >= -1 && Greatest(jobs[j].needs, wave, maxWave)
    requires forall k :: 0 <= k < |jobs[j].needs| ==> jobs[j].needs[k] in wave
    requires forall n :: n in wave ==> Longest(jobs, n, wave[n])
    ensures Longest(jobs, j, maxWave + 1)
  {
    forall p | Chain(jobs, p) && p[0] == j ensures |p| <= maxWave + 2 {
      if |p| > 1 {
        assert Link(jobs, p, 0);
        SubChain(jobs, p, 1, |p|);
        assert p[1..|p|][0] == p[1] && Longest(jobs, p[1], wave[p[1]]);
      }
    }
    if maxWave == -1 {
      assert Chain(jobs, [j]);
    } else {
      var k :| 0 <= k < |jobs[j].needs| && jobs[j].needs[k] in wave && wave[jobs[j].needs[k]] == maxWave;
      var n := jobs[j].needs[k];
      assert Longest(jobs, n, wave[n]);
      var q :| Chain(jobs, q) && q[0] == n && |q| == maxWave + 1;
      LongerChain(jobs, j, q);
      assert ([j] + q)[0] == j;
    }
  }

  /** The jobs of order in wave k, in the order they have there. */
  function Layer(order: seq<string>, wave: map<string, int>, k: int): (r: seq<string>) {
    if order == [] then []
    else
      var last := order[|order| - 1];
      Layer(order[..|order| - 1], wave, k) + if last in wave && wave[last] == k then [last] else []
  }

  lemma {:induction false} LayerMembers(order: seq<string>, wave: map<string, int>, k: int, j: string)
    ensures j in Layer(order, wave, k) <==> j in order && j in wave && wave[j] == k
  {
    if order != [] {
      LayerMembers(order[..|order| - 1], wave, k, j);
      assert order == order[..|order| - 1] + [order[|order| - 1]];
    }
  }

  /** The greatest wave among the needs that have one. */
  method GreatestNeed(needs: seq<string>, wave: map<string, int>) returns (maxWave: int)
    requires forall n :: n in wave ==> wave[n] >= 0
    ensures maxWave >= -1 && Greatest(needs, wave, maxWave)
  {
    maxWave := -1;
    for k := 0 to |needs|
      invariant maxWave >= -1 && Greatest(needs[..k], wave, maxWave)
    {
      if needs[k] in wave && wave[needs[k]] > maxWave {
        maxWave := wave[needs[k]];
      }
      assert needs[..k + 1] == needs[..k] + [needs[k]];
    }
    assert needs[..|needs|] == needs;
  }

  ghost predicate Deepest(jobs: Jobs, wave: map<string, int>) {
    forall j :: j in wave ==> Longest(jobs, j, wave[j])
  }

  method AssignWaves(jobs: Jobs, order: seq<string>) returns (wave: map<string, int>)
    requires forall j :: j in order ==> j in jobs
    ensures forall j :: j in wave <==> j in order
    ensures forall j :: j in wave ==> wave[j] >= 0
    ensures NeedsFirst(jobs, order) ==> Deepest(jobs, wave)
  {
    wave := map[];
    for i := 0 to |order|
      invariant forall j :: j in wave <==> j in order[..i]
      invariant forall j :: j in wave ==> wave[j] >= 0
      invariant NeedsFirst(jobs, order) ==> Deepest(jobs, wave)
    {
      var id := order[i];
      var maxWave := GreatestNeed(jobs[id].needs, wave);
      if NeedsFirst(jobs, order) {
        assert Placed(jobs, order, i);
        LongestStep(jobs, id, wave, maxWave);
      }
      wave := wave[id := maxWave + 1];
      assert order[..i + 1] == order[..i] + [id];
    }
    assert order[..|order|] == order;
  }

  datatype Schedule = Waves(waves: seq<seq<string>>) | UnknownJob(id: string)

  /** Group the jobs of an order by wave. */
  method GroupWaves(order: seq<string>, wave: map<string, int>, maxWave: int) returns (waves: seq<seq<string>>)
    requires forall j :: j in order ==> j in wave && 0 <= wave[j] <= maxWave
    requires maxWave >= 0
    ensures |waves| == maxWave + 1
    ensures forall k :: 0 <= k < |waves| ==> waves[k] == Layer(order, wave, k)
  {
    waves := seq(maxWave + 1, _ => []);
    for i := 0 to |order|
      invariant |waves| == maxWave + 1
      invariant forall k :: 0 <= k < |waves| ==> waves[k] == Layer(order[..i], wave, k)
    {
      var id := order[i];
      assert order[..i + 1][..i] == order[..i] && id in order;
      waves := waves[wave[id] := waves[wave[id]] + [id]];
    }
    assert order[..|order|] == order;
  }

  method LastWave(wave: map<string, int>) returns (maxWave: int)
    requires forall j :: j in wave ==> wave[j] >= 0
    ensures maxWave >= 0 && forall j :: j in wave ==> wave[j] <= maxWave
    ensures maxWave == 0 || exists j :: j in wave && wave[j] == maxWave
  {
    maxWave := 0;
    var todo := wave.Keys;
    while todo != {}
      invariant todo <= wave.Keys
      invariant maxWave >= 0 && forall j :: j in wave && j !in todo ==> wave[j] <= maxWave
      invariant maxWave == 0 || exists j :: j in wave && wave[j] == maxWave
      decreases |todo|
    {
      var id :| id in todo;
      todo := todo - {id};
      if wave[id] > maxWave {
        maxWave := wave[id];
      }
    }
  }

  /** Wave k holds exactly the jobs whose longest chain of needs has k links. */
  ghost predicate ByDepth(jobs: Jobs, waves: seq<seq<string>>) {
    && (forall k, j :: 0 <= k < |waves| ==> (j in waves[k] <==> j in jobs && Longest(jobs, j, k)))
    && (forall j :: j in jobs ==> exists k :: 0 <= k < |waves| && j in waves[k])
  }

  ghost predicate NoneEmpty(waves: seq<seq<string>>) {
    forall k :: 0 <= k < |waves| ==> waves[k] != []
  }

  ghost predicate Layered(order: seq<string>, wave: map<string, int>, waves: seq<seq<string>>) {
    && waves != []
    && (forall k :: 0 <= k < |waves| ==> waves[k] == Layer(order, wave, k))
  }

  /** The wave schedule.  Every job of the order is in exactly one wave.  On a topological order each job is in the wave of its longest chain of
      needs, the waves keep the given order, and no wave of a non-empty workflow is empty. */
  method WaveSchedule(jobs: Jobs, order: seq<string>) returns (r: Schedule, ghost wave: map<string, int>)
    ensures r.UnknownJob? <==> exists j :: j in order && j !in jobs
    ensures r.Waves? ==> Layered(order, wave, r.waves)
    ensures r.Waves? ==> forall j :: j in order ==> j in wave && 0 <= wave[j] < |r.waves|
    ensures r.Waves? && Topological(jobs, order) ==> ByDepth(jobs, r.waves)
    ensures r.Waves? && Topological(jobs, order) && order != [] ==> NoneEmpty(r.waves)
  {
    wave := map[];
    if exists j :: j in order && j !in jobs {
      var j :| j in order && j !in jobs;
      return UnknownJob(j), wave;
    }
    var depth := AssignWaves(jobs, order);
    var maxWave := LastWave(depth);
    var waves := GroupWaves(order, depth, maxWave);
    r, wave := Waves(waves), depth;
    if Topological(jobs, order) {
      ScheduleIsRight(jobs, order, depth, waves);
    }
  }

  lemma ScheduleIsRight(jobs: Jobs, order: seq<string>, wave: map<string, int>, waves: seq<seq<string>>)
    requires Topological(jobs, order) && Deepest(jobs, wave) && Layered(order, wave, waves)
    requires forall j :: j in wave <==> j in order
    requires forall j :: j in wave ==> 0 <= wave[j] < |waves|
    requires |waves| == 1 || exists j :: j in wave && wave[j] == |waves| - 1
    ensures ByDepth(jobs, waves)
    ensures order != [] ==> NoneEmpty(waves)
  {
    WavesAreDepths(jobs, order, wave, waves);
    if order != [] {
      assert order[0] in order && order[0] in wave;
      WavesAreFull(jobs, wave, waves);
    }
  }

  lemma LongestIsUnique(jobs: Jobs, j: string, w: int, v: int)
    requires Longest(jobs, j, w) && Longest(jobs, j, v)
    ensures w == v
  {
  }

  lemma WavesAreDepths(jobs: Jobs, order: seq<string>, wave: map<string, int>, waves: seq<seq<string>>)
    requires Topological(jobs, order) && Deepest(jobs, wave) && Layered(order, wave, waves)
    requires forall j :: j in wave <==> j in order
    requires forall j :: j in wave ==> 0 <= wave[j] < |waves|
    ensures ByDepth(jobs, waves)
  {
    forall k, j | 0 <= k < |waves| ensures j in waves[k] <==> j in jobs && Longest(jobs, j, k) {
      LayerMembers(order, wave, k, j);
      if j in jobs && Longest(jobs, j, k) {
        LongestIsUnique(jobs, j, k, wave[j]);
      }
    }
    forall j | j in jobs ensures exists k :: 0 <= k < |waves| && j in waves[k] {
      LayerMembers(order, wave, wave[j], j);
      assert j in waves[wave[j]];
    }
  }

  /** One link down a longest chain is one wave less. */
  lemma LongestNext(jobs: Jobs, p: seq<string>)
    requires Chain(jobs, p) && |p| > 1 && Longest(jobs, p[0], |p| - 1)
    ensures Longest(jobs, p[1], |p| - 2)
  {
    SubChain(jobs, p, 1, |p|);
    assert p[1..|p|][0] == p[1];
    forall q | Chain(jobs, q) && q[0] == p[1] ensures |q| <= |p| - 1 {
      assert Link(jobs, p, 0);
      LongerChain(jobs, p[0], q);
      assert ([p[0]] + q)[0] == p[0];
    }
  }

  /** Below the top of a longest chain there is a job at every depth. */
  lemma {:induction false} EveryDepth(jobs: Jobs, p: seq<string>, k: nat)
    requires Chain(jobs, p) && Longest(jobs, p[0], |p| - 1) && k < |p|
    ensures exists j :: j in jobs && Longest(jobs, j, k)
    decreases |p|
  {
    if k < |p| - 1 {
      LongestNext(jobs, p);
      SubChain(jobs, p, 1, |p|);
      EveryDepth(jobs, p[1..|p|], k);
    }
  }

  lemma WavesAreFull(jobs: Jobs, wave: map<string, int>, waves: seq<seq<string>>)
    requires Deepest(jobs, wave) && ByDepth(jobs, waves)
    requires exists j :: j in wave && wave[j] == |waves| - 1
    ensures NoneEmpty(waves)
  {
    var top :| top in wave && wave[top] == |waves| - 1;
    assert Longest(jobs, top, wave[top]);
    var p :| Chain(jobs, p) && p[0] == top && |p| == |waves|;
    forall k | 0 <= k < |waves| ensures waves[k] != [] {
      EveryDepth(jobs, p, k);
      var j :| j in jobs && Longest(jobs, j, k);
      assert j in waves[k];
    }
  }

  /** A schedule that puts every need strictly earlier. */
  ghost predicate Respects(jobs: Jobs, level: map<string, nat>) {
    && level.Keys == jobs.Keys
    && (forall a, b :: Needs(jobs, a, b) ==> b in jobs && level[b] < level[a])
  }

  lemma {:induction false} ChainNeedsLevels(jobs: Jobs, level: map<string, nat>, p: seq<string>)
    requires Respects(jobs, level) && Chain(jobs, p)
    ensures level[p[0]] >= |p| - 1
    decreases |p|
  {
    if |p| > 1 {
      assert Link(jobs, p, 0);
      SubChain(jobs, p, 1, |p|);
      ChainNeedsLevels(jobs, level, p[1..|p|]);
    }
  }

  /** No schedule with the needs strictly earlier uses fewer waves. */
  lemma WavesAreLeast(jobs: Jobs, waves: seq<seq<string>>, level: map<string, nat>, levels: nat)
    requires jobs != map[] && Respects(jobs, level) && forall j :: j in jobs ==> level[j] < levels
    requires ByDepth(jobs, waves) && NoneEmpty(waves)
    ensures |waves| <= levels
  {
    if waves != [] {
      var k := |waves| - 1;
      var j := waves[k][0];
      assert j in waves[k] && Longest(jobs, j, k);
      var p :| Chain(jobs, p) && p[0] == j && |p| == k + 1;
      ChainNeedsLevels(jobs, level, p);
    }
  }
}
