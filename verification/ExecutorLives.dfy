/**
 The lifetimes of the executors that a workflow's threads register for cancellation
 (src/runner/WorkflowOrchestrator.cpp): which of the addresses that cancel() would follow still lead to
 an executor.  An executor is a local object of its thread; its address may be that of another one
 after it is destroyed.
 */
module ExecutorLives {

  type Address = nat

  /** What a job's thread does with its executor: it builds it, registers its address, and execute()
      either returns, whereupon the address is unregistered, or throws, whereupon it is not; then the
      executor is destroyed. */
  datatype Step = Build(at: Address) | Enlist(at: Address) | Return(at: Address) | Throw(at: Address) | Destroy(at: Address)

  datatype Stage = Built | Listed | Returned | Threw

  /** The registered addresses, and the executors that exist. */
  datatype Roster = Roster(active: seq<Address>, live: map<Address, Stage>)

  /** Every occurrence is erased. */
  function Without(active: seq<Address>, at: Address): seq<Address> {
    if active == [] then [] else (if active[0] == at then [] else [active[0]]) + Without(active[1..], at)
  }

  predicate IsAt(r: Roster, at: Address, stage: Stage) {
    at in r.live && r.live[at] == stage
  }

  function Apply(r: Roster, step: Step): Roster {
    match step
    case Build(p) => if p in r.live then r else r.(live := r.live[p := Built])
    case Enlist(p) => if IsAt(r, p, Built) then Roster(r.active + [p], r.live[p := Listed]) else r
    case Return(p) => if IsAt(r, p, Listed) then Roster(Without(r.active, p), r.live[p := Returned]) else r
    case Throw(p) => if IsAt(r, p, Listed) then r.(live := r.live[p := Threw]) else r
    case Destroy(p) => if IsAt(r, p, Returned) || IsAt(r, p, Threw) then r.(live := r.live - {p}) else r
  }

  function Run(run: seq<Step>): Roster
    decreases |run|
  {
    if run == [] then Roster([], map[]) else Apply(Run(run[..|run| - 1]), run[|run| - 1])
  }

  /** The addresses left behind: by an executor that threw and was destroyed, until one that is built
      there returns. */
  function Left(run: seq<Step>): set<Address>
    decreases |run|
  {
    if run == [] then {}
    else
      var pre, step := run[..|run| - 1], run[|run| - 1];
      if step.Destroy? && IsAt(Run(pre), step.at, Threw) then Left(pre) + {step.at}
      else if step.Return? && IsAt(Run(pre), step.at, Listed) then Left(pre) - {step.at}
      else Left(pre)
  }

  lemma {:induction false} WithoutIs(active: seq<Address>, at: Address)
    ensures forall other :: other in Without(active, at) <==> other in active && other != at
  {
    if active != [] {
      WithoutIs(active[1..], at);
    }
  }

  /** Registered are the executors between registration and return, those that threw, and what was left. */
  ghost predicate Kept(r: Roster, left: set<Address>) {
    && (forall p :: p in r.active <==> p in left || IsAt(r, p, Listed) || IsAt(r, p, Threw))
    && (forall p :: IsAt(r, p, Returned) ==> p !in r.active)
  }

  lemma {:induction false} RunKeeps(run: seq<Step>)
    ensures Kept(Run(run), Left(run))
    decreases |run|
  {
    if run != [] {
      var r, step := Run(run[..|run| - 1]), run[|run| - 1];
      RunKeeps(run[..|run| - 1]);
      WithoutIs(r.active, step.at);
    }
  }

  /** Every registered address leads to an executor. */
  predicate AllAlive(r: Roster) {
    forall p :: p in r.active ==> p in r.live
  }

  /** A registered address that leads nowhere is exactly one that was left behind and at which nothing has
      been built since; so all registered addresses are alive if and only if something lives at each that
      was left. */
  lemma RegisteredAreAliveIff(run: seq<Step>)
    ensures forall p :: p !in Run(run).live ==> (p in Run(run).active <==> p in Left(run))
    ensures AllAlive(Run(run)) <==> Left(run) <= Run(run).live.Keys
  {
    RunKeeps(run);
  }

  lemma {:induction false} NothingLeft(run: seq<Step>)
    requires forall i :: 0 <= i < |run| ==> !run[i].Throw?
    ensures Left(run) == {} && forall p :: !IsAt(Run(run), p, Threw)
    decreases |run|
  {
    if run != [] {
      var pre, step := run[..|run| - 1], run[|run| - 1];
      NothingLeft(pre);
      assert !step.Throw?;
      forall p ensures !IsAt(Run(run), p, Threw) {
        assert !IsAt(Run(pre), p, Threw);
      }
    }
  }

  /** If no execute() throws, all registered addresses are alive. */
  lemma AliveWithoutThrow(run: seq<Step>)
    requires forall i :: 0 <= i < |run| ==> !run[i].Throw?
    ensures AllAlive(Run(run))
  {
    NothingLeft(run);
    RegisteredAreAliveIff(run);
  }

  lemma OneMore(run: seq<Step>, step: Step)
    ensures Run(run + [step]) == Apply(Run(run), step)
  {
    assert (run + [step])[..|run|] == run;
  }

  /** After any run in which it is executing, an executor that throws stays registered when it is
      destroyed. */
  lemma ThrowLeavesAddress(run: seq<Step>, p: Address)
    requires IsAt(Run(run), p, Listed)
    ensures var r := Run(run + [Throw(p)] + [Destroy(p)]); p in r.active && p !in r.live && !AllAlive(r)
  {
    RunKeeps(run);
    OneMore(run, Throw(p));
    OneMore(run + [Throw(p)], Destroy(p));
  }

  /** ... until an executor built at the same address returns, which unregisters both. */
  lemma ReuseClearsAddress(run: seq<Step>, p: Address)
    requires p !in Run(run).live
    ensures p !in Run(run + [Build(p)] + [Enlist(p)] + [Return(p)]).active
  {
    OneMore(run, Build(p));
    OneMore(run + [Build(p)], Enlist(p));
    OneMore(run + [Build(p)] + [Enlist(p)], Return(p));
    WithoutIs(Run(run + [Build(p)] + [Enlist(p)]).active, p);
  }
}
