/**
 * Artifact identifiers (src/cache/CacheServer.cpp, handleArtifactCreate,
 * handleArtifactFinalize, loadArtifactIndex): a counter that is not itself
 * stored, recovered on start from the largest identifier in the saved index.
 */
module ArtifactIds {

  datatype Artifact = Artifact(name: string, runId: string, jobId: string, size: int, finalized: bool, id: int)

  type Index = map<string, Artifact>

  datatype Shelf = Shelf(artifacts: Index, nextId: int, saved: Index)

  datatype Step =
    | Create(name: string, runId: string, jobId: string)
    | Finalize(name: string, declared: int, actual: int)
    | Restart

  /** A name with a slash or two dots in a row would leave the directory. */
  predicate SafeName(name: string) {
    && name != ""
    && (forall i :: 0 <= i < |name| ==> name[i] != '/')
    && (forall i :: 0 <= i < |name| - 1 ==> !(name[i] == '.' && name[i + 1] == '.'))
  }

  /** One more than the largest identifier, and at least 1. */
  ghost predicate IsNext(artifacts: Index, next: int) {
    && next >= 1
    && (forall n | n in artifacts :: artifacts[n].id < next)
    && (next > 1 ==> exists n :: n in artifacts && artifacts[n].id == next - 1)
  }

  lemma NextIsUnique(artifacts: Index, a: int, b: int)
    requires IsNext(artifacts, a) && IsNext(artifacts, b)
    ensures a == b
  {
  }

  ghost function Next(artifacts: Index): (next: int)
    ensures IsNext(artifacts, next)
  {
    NextExists(artifacts, artifacts.Keys);
    var next :| IsNext(artifacts, next);
    next
  }

  lemma {:induction false} NextExists(artifacts: Index, names: set<string>)
    requires names <= artifacts.Keys
    ensures exists next :: NextOf(artifacts, names, next)
    ensures names == artifacts.Keys ==> exists next :: IsNext(artifacts, next)
  {
    if n :| n in names {
      NextExists(artifacts, names - {n});
      var next :| NextOf(artifacts, names - {n}, next);
      NextGrows(artifacts, names - {n}, n, next);
      assert names - {n} + {n} == names;
      NextOfAll(artifacts, if artifacts[n].id >= next then artifacts[n].id + 1 else next);
    } else {
      assert NextOf(artifacts, names, 1);
      NextOfAll(artifacts, 1);
    }
  }

  ghost predicate NextOf(artifacts: Index, names: set<string>, next: int) {
    && next >= 1
    && (forall n | n in artifacts && n in names :: artifacts[n].id < next)
    && (next > 1 ==> exists n :: n in artifacts && n in names && artifacts[n].id == next - 1)
  }

  lemma NextGrows(artifacts: Index, names: set<string>, n: string, next: int)
    requires n in artifacts && NextOf(artifacts, names, next)
    ensures NextOf(artifacts, names + {n}, if artifacts[n].id >= next then artifacts[n].id + 1 else next)
  {
    var more := names + {n};
    assert n in more;
    if next > 1 {
      var m :| m in artifacts && m in names && artifacts[m].id == next - 1;
      assert m in more;
    }
  }

  lemma NextOfAll(artifacts: Index, next: int)
    ensures NextOf(artifacts, artifacts.Keys, next) <==> IsNext(artifacts, next)
  {
    if IsNext(artifacts, next) && next > 1 {
      var n :| n in artifacts && artifacts[n].id == next - 1;
      assert n in artifacts.Keys;
    }
  }

  ghost predicate Loaded(saved: Index, todo: set<string>, artifacts: Index) {
    artifacts == saved - todo
  }

  lemma LoadOne(saved: Index, todo: set<string>, artifacts: Index, n: string)
    requires Loaded(saved, todo, artifacts) && n in todo && n in saved
    ensures Loaded(saved, todo - {n}, artifacts[n := saved[n]])
    ensures artifacts[n := saved[n]].Keys == artifacts.Keys + {n}
  {
  }

  /** The loading loop, in any order. */
  method LoadIndex(saved: Index) returns (artifacts: Index, nextId: int)
    ensures artifacts == saved && IsNext(saved, nextId)
  {
    artifacts, nextId := map[], 1;
    var todo := saved.Keys;
    while todo != {}
      invariant todo <= saved.Keys && Loaded(saved, todo, artifacts)
      invariant NextOf(saved, artifacts.Keys, nextId)
      decreases |todo|
    {
      var n :| n in todo;
      NextGrows(saved, artifacts.Keys, n, nextId);
      LoadOne(saved, todo, artifacts, n);
      artifacts := artifacts[n := saved[n]];
      nextId := if saved[n].id >= nextId then saved[n].id + 1 else nextId;
      todo := todo - {n};
    }
    assert artifacts == saved;
    NextOfAll(saved, nextId);
  }

  ghost function Apply(s: Shelf, step: Step): Shelf {
    match step
    case Create(name, runId, jobId) =>
      if !SafeName(name) then s
      else
        var artifacts := s.artifacts[name := Artifact(name, runId, jobId, 0, false, s.nextId)];
        Shelf(artifacts, s.nextId + 1, artifacts)
    case Finalize(name, declared, actual) =>
      if name !in s.artifacts then s
      else
        var artifacts := s.artifacts[name := s.artifacts[name].(size := if actual > 0 then actual else declared, finalized := true)];
        Shelf(artifacts, s.nextId, artifacts)
    case Restart => Shelf(s.saved, Next(s.saved), s.saved)
  }

  ghost function Run(run: seq<Step>): Shelf
    decreases |run|
  {
    if run == [] then Shelf(map[], 1, map[]) else Apply(Run(run[..|run| - 1]), run[|run| - 1])
  }

  /** The artifacts created in a run. */
  function Created(run: seq<Step>): nat
    decreases |run|
  {
    if run == [] then 0
    else Created(run[..|run| - 1]) + if run[|run| - 1].Create? && SafeName(run[|run| - 1].name) then 1 else 0
  }

  lemma FinalizeKeepsNext(artifacts: Index, name: string, a: Artifact, next: int)
    requires IsNext(artifacts, next) && name in artifacts && a.id == artifacts[name].id
    ensures IsNext(artifacts[name := a], next)
  {
    if next > 1 {
      var n :| n in artifacts && artifacts[n].id == next - 1;
      assert artifacts[name := a][n].id == next - 1;
    }
  }

  lemma CreateMovesNext(artifacts: Index, name: string, a: Artifact, next: int)
    requires IsNext(artifacts, next) && a.id == next
    ensures IsNext(artifacts[name := a], next + 1)
  {
    assert artifacts[name := a][name].id == next;
  }

  /**
   * The n-th artifact ever created gets the identifier n, whatever was
   * re-created, finalized or restarted in between: the recovered counter is
   * the one that was lost, and no identifier is given twice.
   */
  lemma {:induction false} IdsCountCreations(run: seq<Step>)
    ensures Run(run).nextId == Created(run) + 1
    ensures IsNext(Run(run).artifacts, Run(run).nextId)
    ensures Run(run).saved == Run(run).artifacts
    decreases |run|
  {
    if run != [] {
      var pre, step := run[..|run| - 1], run[|run| - 1];
      IdsCountCreations(pre);
      var s := Run(pre);
      match step {
        case Create(name, runId, jobId) =>
          if SafeName(name) {
            CreateMovesNext(s.artifacts, name, Artifact(name, runId, jobId, 0, false, s.nextId), s.nextId);
          }
        case Finalize(name, _, _) =>
          if name in s.artifacts {
            FinalizeKeepsNext(s.artifacts, name, Apply(s, step).artifacts[name], s.nextId);
          }
        case Restart =>
          NextIsUnique(s.saved, s.nextId, Next(s.saved));
      }
    }
  }

  ghost predicate OwnIds(artifacts: Index) {
    forall n, m | n in artifacts && m in artifacts :: artifacts[n].id == artifacts[m].id ==> n == m
  }

  /** Two stored artifacts never share an identifier. */
  lemma {:induction false} IdsAreDistinct(run: seq<Step>)
    ensures OwnIds(Run(run).artifacts)
    decreases |run|
  {
    if run != [] {
      IdsAreDistinct(run[..|run| - 1]);
      IdsCountCreations(run[..|run| - 1]);
    }
  }

  /** The artifact is the one that was created, with the same identifier. */
  predicate Kept(a: Artifact, b: Artifact) {
    b.name == a.name && b.runId == a.runId && b.jobId == a.jobId && b.id == a.id
  }

  /**
   * Finalizing marks the artifact, with the measured size if that is positive
   * and the declared one otherwise, keeps what it was created with and every
   * other artifact; before that it is unmarked and of size 0.
   */
  lemma FinalizedArtifact(s: Shelf, name: string, declared: int, actual: int)
    requires name in s.artifacts
    ensures var after := Apply(s, Finalize(name, declared, actual)).artifacts;
            && after.Keys == s.artifacts.Keys
            && after[name].finalized && after[name].size == (if actual > 0 then actual else declared)
            && Kept(s.artifacts[name], after[name])
            && forall n :: n in s.artifacts && n != name ==> after[n] == s.artifacts[n]
  {
  }

  lemma CreatedArtifact(s: Shelf, name: string, runId: string, jobId: string)
    requires SafeName(name)
    ensures var after := Apply(s, Create(name, runId, jobId)).artifacts;
            && after.Keys == s.artifacts.Keys + {name}
            && !after[name].finalized && after[name].size == 0 && after[name].id == s.nextId
            && after[name].name == name && after[name].runId == runId && after[name].jobId == jobId
            && forall n :: n in s.artifacts && n != name ==> after[n] == s.artifacts[n]
  {
  }

  /** The artifact was finalized after it was last created. */
  predicate LastFinalized(run: seq<Step>, name: string)
    decreases |run|
  {
    run != [] &&
    var pre, step := run[..|run| - 1], run[|run| - 1];
    match step
    case Create(n, _, _) => if n == name && SafeName(n) then false else LastFinalized(pre, name)
    case Finalize(n, _, _) => (n == name && CreatedIn(pre, name)) || LastFinalized(pre, name)
    case Restart => LastFinalized(pre, name)
  }

  predicate CreatedIn(run: seq<Step>, name: string)
    decreases |run|
  {
    run != [] && ((run[|run| - 1].Create? && run[|run| - 1].name == name && SafeName(name)) || CreatedIn(run[..|run| - 1], name))
  }

  /** Over every run: an artifact is stored when it was created, and finalized when that came last. */
  lemma {:induction false} FinalizedIff(run: seq<Step>, name: string)
    ensures name in Run(run).artifacts <==> CreatedIn(run, name)
    ensures name in Run(run).artifacts ==> (Run(run).artifacts[name].finalized <==> LastFinalized(run, name))
    ensures name !in Run(run).artifacts ==> !LastFinalized(run, name)
    decreases |run|
  {
    if run != [] {
      FinalizedIff(run[..|run| - 1], name);
      IdsCountCreations(run[..|run| - 1]);
    }
  }

  class ArtifactShelf {
    var artifacts: Index
    var nextId: int
    var saved: Index

    ghost function State(): Shelf
      reads this
    {
      Shelf(artifacts, nextId, saved)
    }

    constructor (saved: Index)
      ensures State() == Shelf(saved, Next(saved), saved)
    {
      var loaded, next := LoadIndex(saved);
      NextIsUnique(saved, next, Next(saved));
      this.artifacts, this.nextId, this.saved := loaded, next, saved;
    }

    method HandleCreate(name: string, runId: string, jobId: string) returns (created: bool)
      modifies this
      ensures State() == Apply(old(State()), Create(name, runId, jobId))
      ensures created <==> SafeName(name)
    {
      created := SafeName(name);
      if created {
        artifacts := artifacts[name := Artifact(name, runId, jobId, 0, false, nextId)];
        nextId := nextId + 1;
        saved := artifacts;
      }
    }

    /** Answers the artifact's identifier, or nothing for an unknown name. */
    method HandleFinalize(name: string, declared: int, actual: int) returns (found: bool, id: int)
      modifies this
      ensures State() == Apply(old(State()), Finalize(name, declared, actual))
      ensures found <==> name in old(artifacts)
      ensures found ==> id == old(artifacts)[name].id
      ensures found ==> name in artifacts && artifacts[name].finalized && artifacts[name].id == id
      ensures found ==> artifacts[name].size == if actual > 0 then actual else declared
    {
      found, id := name in artifacts, 0;
      if found {
        var a := artifacts[name];
        artifacts := artifacts[name := a.(size := if actual > 0 then actual else declared, finalized := true)];
        saved := artifacts;
        id := artifacts[name].id;
      }
    }
  }
}
