/**
 * The cache server's store (src/cache/CacheServer.cpp): an index of committed
 * entries, the uploads in progress, and the files both live in.
 *
 * Requests are handled one at a time by the daemon's polling thread, so a run
 * is a sequence of requests.  What the file system and the clock decide is in
 * the request: how many bytes of a chunk were written, whether a rename failed
 * and what it left behind, which removals failed, the time, and the random
 * blob name.
 */
module CacheStore {

  datatype Option<T> = None | Some(value: T)

  type Byte = n: nat | n < 256
  type Bytes = seq<Byte>

  // ---------------------------------------------------------------- state

  datatype Entry = Entry(key: string, version: string, blob: string, size: int, created: int)

  datatype Upload = Upload(key: string, version: string, declared: int, received: int)

  /**
   * `entries`, `uploads` and `nextUpload` live in memory; `files` (the upload
   * files, by upload id), `blobs` and `saved` (index.json) live on disk.
   */
  datatype Store = Store(
    entries: map<string, Entry>,
    uploads: map<nat, Upload>,
    nextUpload: nat,
    files: map<nat, Bytes>,
    blobs: map<string, Bytes>,
    saved: map<string, Entry>)

  const Empty := Store(map[], map[], 1, map[], map[], map[])

  datatype Step =
    | Reserve(key: string, version: string, declared: int)
    | Patch(id: nat, start: int, end: int, data: Bytes, written: nat)
    | PatchFails(id: nat)
    | Commit(id: nat, blob: string, now: int, sized: bool)
    | CommitFails(id: nat, blob: string, debris: Option<Bytes>)
    | Purge(maxAgeDays: int, now: int, stuck: set<string>)
    | Restart

  function IndexKey(key: string, version: string): string {
    key + "|" + version
  }

  // ---------------------------------------------------------------- requests

  /** Where a chunk goes: only a positive start moves the file position. */
  function Offset(start: int): nat {
    if start > 0 then start else 0
  }

  function Zeros(n: nat): Bytes {
    seq(n, i => 0)
  }

  /** Writing at an offset: a gap is filled with zeros, and no bytes write nothing. */
  function WriteAt(file: Bytes, offset: nat, data: Bytes): Bytes {
    if data == [] then file
    else
      var padded := if |file| < offset then file + Zeros(offset - |file|) else file;
      padded[..offset] + data + (if |padded| <= offset + |data| then [] else padded[offset + |data|..])
  }

  function Received(u: Upload, start: int, end: int, length: nat): Upload {
    var reached := if end >= start then end + 1 else start + length;
    if reached > u.received then u.(received := reached) else u
  }

  const DAY_MS := 86400 * 1000

  function Cutoff(maxAgeDays: int, now: int): int {
    now - maxAgeDays * DAY_MS
  }

  function Survivors(entries: map<string, Entry>, cutoff: int): map<string, Entry> {
    map k | k in entries && entries[k].created >= cutoff :: entries[k]
  }

  function ExpiredBlobs(entries: map<string, Entry>, cutoff: int): set<string> {
    set k | k in entries && entries[k].created < cutoff :: entries[k].blob
  }

  function ApplyReserve(s: Store, key: string, version: string, declared: int): Store {
    if key == "" || version == "" || IndexKey(key, version) in s.entries then s
    else s.(uploads := s.uploads[s.nextUpload := Upload(key, version, declared, 0)],
            files := s.files[s.nextUpload := []],
            nextUpload := s.nextUpload + 1)
  }

  /** The upload file as it is opened: created empty when it is missing. */
  function Opened(s: Store, id: nat): Bytes {
    if id in s.files then s.files[id] else []
  }

  function Landed(data: Bytes, written: nat): Bytes {
    if written < |data| then data[..written] else data
  }

  /** A write that stops short leaves its bytes in the file and answers 500. */
  function ApplyPatch(s: Store, id: nat, start: int, end: int, data: Bytes, written: nat): Store {
    if id !in s.uploads then s
    else
      var t := s.(files := s.files[id := WriteAt(Opened(s, id), Offset(start), Landed(data, written))]);
      if written < |data| then t
      else t.(uploads := s.uploads[id := Received(s.uploads[id], start, end, |data|)])
  }

  function ApplyCommit(s: Store, id: nat, blob: string, now: int, sized: bool): Store {
    if id !in s.uploads || id !in s.files then s
    else
      var u, file := s.uploads[id], s.files[id];
      var entry := Entry(u.key, u.version, blob, if sized then |file| else 0, now);
      var entries := s.entries[IndexKey(u.key, u.version) := entry];
      s.(entries := entries, saved := entries, uploads := s.uploads - {id},
         files := s.files - {id}, blobs := s.blobs[blob := file])
  }

  function ApplyCommitFails(s: Store, id: nat, blob: string, debris: Option<Bytes>): Store {
    if id !in s.uploads || debris.None? then s
    else s.(blobs := s.blobs[blob := debris.value])
  }

  function ApplyPurge(s: Store, maxAgeDays: int, now: int, stuck: set<string>): Store {
    if maxAgeDays <= 0 then s
    else
      var cutoff := Cutoff(maxAgeDays, now);
      var expired, left := ExpiredBlobs(s.entries, cutoff), Survivors(s.entries, cutoff);
      s.(entries := left, blobs := s.blobs - (expired - stuck), saved := if expired == {} then s.saved else left)
  }

  function Apply(s: Store, step: Step): Store {
    match step
    case Reserve(key, version, declared) => ApplyReserve(s, key, version, declared)
    case Patch(id, start, end, data, written) => ApplyPatch(s, id, start, end, data, written)
    case PatchFails(_) => s
    case Commit(id, blob, now, sized) => ApplyCommit(s, id, blob, now, sized)
    case CommitFails(id, blob, debris) => ApplyCommitFails(s, id, blob, debris)
    case Purge(maxAgeDays, now, stuck) => ApplyPurge(s, maxAgeDays, now, stuck)
    case Restart => s.(entries := s.saved, uploads := map[], nextUpload := 1)
  }

  // ---------------------------------------------------------------- runs

  function Run(run: seq<Step>): Store
    decreases |run|
  {
    if run == [] then Empty else Apply(Run(run[..|run| - 1]), run[|run| - 1])
  }

  function Names(run: seq<Step>): set<string>
    decreases |run|
  {
    if run == [] then {} else Names(run[..|run| - 1]) + Name(run[|run| - 1])
  }

  function Name(step: Step): set<string> {
    if step.Commit? || step.CommitFails? then {step.blob} else {}
  }

  /** The random blob names of a run never repeat. */
  predicate FreshRun(run: seq<Step>)
    decreases |run|
  {
    run == [] || (FreshRun(run[..|run| - 1]) && Name(run[|run| - 1]) !! Names(run[..|run| - 1]))
  }

  // ---------------------------------------------------------------- the invariant

  predicate Filed(s: Store, k: string)
    requires k in s.entries
  {
    var e := s.entries[k];
    k == IndexKey(e.key, e.version) && e.key != "" && e.version != "" && e.blob in s.blobs
  }

  predicate Begun(s: Store, id: nat)
    requires id in s.uploads
  {
    id < s.nextUpload && id in s.files && s.uploads[id].key != "" && s.uploads[id].version != ""
  }

  predicate OwnBlobs(entries: map<string, Entry>) {
    forall k, l | k in entries && l in entries :: entries[k].blob == entries[l].blob ==> k == l
  }

  /** Every entry is filed under its index key with a blob of its own, and the saved index is current. */
  predicate Sound(s: Store) {
    && (forall k | k in s.entries :: Filed(s, k))
    && OwnBlobs(s.entries)
    && s.saved == s.entries
    && (forall id | id in s.uploads :: Begun(s, id))
  }

  lemma PurgeKeepsSound(s: Store, maxAgeDays: int, now: int, stuck: set<string>)
    requires Sound(s)
    ensures Sound(ApplyPurge(s, maxAgeDays, now, stuck))
  {
    if maxAgeDays > 0 {
      var cutoff := Cutoff(maxAgeDays, now);
      var t := ApplyPurge(s, maxAgeDays, now, stuck);
      forall k | k in t.entries ensures Filed(t, k) {
        assert Filed(s, k);
        assert s.entries[k].blob !in ExpiredBlobs(s.entries, cutoff);
      }
      if ExpiredBlobs(s.entries, cutoff) == {} {
        NothingExpired(s.entries, cutoff);
      }
      assert forall id | id in s.uploads :: Begun(s, id) && Begun(t, id);
    }
  }

  lemma NothingExpired(entries: map<string, Entry>, cutoff: int)
    requires ExpiredBlobs(entries, cutoff) == {}
    ensures Survivors(entries, cutoff) == entries
  {
    forall k | k in entries ensures entries[k].created >= cutoff {
      var blob := entries[k].blob;
      assert entries[k].created < cutoff ==> blob in ExpiredBlobs(entries, cutoff);
    }
  }

  lemma CommitKeepsSound(s: Store, id: nat, blob: string, now: int, sized: bool)
    requires Sound(s) && blob !in s.blobs
    ensures Sound(ApplyCommit(s, id, blob, now, sized))
  {
    if id in s.uploads && id in s.files {
      var t := ApplyCommit(s, id, blob, now, sized);
      assert Begun(s, id);
      forall k | k in t.entries ensures Filed(t, k) {
        assert k in s.entries ==> Filed(s, k);
      }
      forall k, l | k in t.entries && l in t.entries && t.entries[k].blob == t.entries[l].blob ensures k == l {
        assert k in s.entries ==> Filed(s, k);
        assert l in s.entries ==> Filed(s, l);
      }
      forall i | i in t.uploads ensures Begun(t, i) {
        assert Begun(s, i);
      }
    }
  }

  lemma ReserveKeepsSound(s: Store, key: string, version: string, declared: int)
    requires Sound(s)
    ensures Sound(ApplyReserve(s, key, version, declared))
  {
    var t := ApplyReserve(s, key, version, declared);
    assert forall k | k in t.entries :: Filed(s, k) && Filed(t, k);
    forall id | id in t.uploads ensures Begun(t, id) {
      assert id in s.uploads ==> Begun(s, id);
    }
  }

  lemma PatchKeepsSound(s: Store, id: nat, start: int, end: int, data: Bytes, written: nat)
    requires Sound(s)
    ensures Sound(ApplyPatch(s, id, start, end, data, written))
  {
    var t := ApplyPatch(s, id, start, end, data, written);
    assert forall k | k in t.entries :: Filed(s, k) && Filed(t, k);
    forall i | i in t.uploads ensures Begun(t, i) {
      assert Begun(s, i);
    }
  }

  lemma DebrisKeepsSound(s: Store, id: nat, blob: string, debris: Option<Bytes>)
    requires Sound(s) && blob !in s.blobs
    ensures Sound(ApplyCommitFails(s, id, blob, debris))
  {
    var t := ApplyCommitFails(s, id, blob, debris);
    assert forall k | k in t.entries :: Filed(s, k) && Filed(t, k);
    assert forall i | i in t.uploads :: Begun(s, i) && Begun(t, i);
  }

  lemma StepKeepsSound(s: Store, step: Step)
    requires Sound(s) && Name(step) !! s.blobs.Keys
    ensures Sound(Apply(s, step))
  {
    match step {
      case Commit(id, blob, now, sized) => CommitKeepsSound(s, id, blob, now, sized);
      case Purge(maxAgeDays, now, stuck) => PurgeKeepsSound(s, maxAgeDays, now, stuck);
      case Restart =>
        var t := Apply(s, step);
        assert forall k | k in t.entries :: Filed(s, k) && Filed(t, k);
      case Reserve(key, version, declared) => ReserveKeepsSound(s, key, version, declared);
      case Patch(id, start, end, data, written) => PatchKeepsSound(s, id, start, end, data, written);
      case PatchFails(_) =>
      case CommitFails(id, blob, debris) => DebrisKeepsSound(s, id, blob, debris);
    }
  }

  /** A blob on disk was named by some commit of the run. */
  lemma {:induction false} BlobsAreNamed(run: seq<Step>)
    ensures Run(run).blobs.Keys <= Names(run)
    decreases |run|
  {
    if run != [] {
      BlobsAreNamed(run[..|run| - 1]);
    }
  }

  /**
   * After every run from an empty directory each indexed entry has its own
   * existing blob and the saved index is the one in memory.
   */
  lemma {:induction false} StoreIsSound(run: seq<Step>)
    requires FreshRun(run)
    ensures Sound(Run(run))
    decreases |run|
  {
    if run != [] {
      var pre := run[..|run| - 1];
      StoreIsSound(pre);
      BlobsAreNamed(pre);
      StepKeepsSound(Run(pre), run[|run| - 1]);
    }
  }

  /** A restart at any moment loses the uploads in progress and no committed entry. */
  lemma RestartKeepsEntries(run: seq<Step>)
    requires FreshRun(run)
    ensures Run(run + [Restart]) == Run(run).(uploads := map[], nextUpload := 1)
  {
    StoreIsSound(run);
    OneMore(run, Restart);
  }

  lemma OneMore(run: seq<Step>, step: Step)
    ensures Run(run + [step]) == Apply(Run(run), step)
  {
    assert (run + [step])[..|run|] == run;
  }

  // ---------------------------------------------------------------- blobs last

  /** The only thing that takes a blob away is a purge of an old enough entry that names it. */
  predicate Purges(s: Store, step: Step, name: string) {
    && step.Purge?
    && step.maxAgeDays > 0
    && name in ExpiredBlobs(s.entries, Cutoff(step.maxAgeDays, step.now))
    && name !in step.stuck
  }

  lemma StepKeepsBlob(s: Store, step: Step, name: string)
    requires name in s.blobs && name !in Name(step)
    ensures name in Apply(s, step).blobs <==> !Purges(s, step, name)
    ensures name in Apply(s, step).blobs ==> Apply(s, step).blobs[name] == s.blobs[name]
  {
  }

  lemma StepAddsBlob(s: Store, step: Step, name: string)
    requires name !in s.blobs && name !in Name(step)
    ensures name !in Apply(s, step).blobs
  {
  }

  predicate PurgedAt(run: seq<Step>, m: nat, name: string) {
    m < |run| && Purges(Run(run[..m]), run[m], name)
  }

  predicate PurgedSince(run: seq<Step>, n: nat, name: string) {
    exists m :: n <= m < |run| && PurgedAt(run, m, name)
  }

  lemma PurgedEarlier(run: seq<Step>, m: nat, name: string)
    requires 0 < |run| && PurgedAt(run[..|run| - 1], m, name)
    ensures PurgedAt(run, m, name)
  {
    assert run[..|run| - 1][..m] == run[..m];
  }

  lemma {:induction false} NamesGrow(run: seq<Step>, n: nat)
    requires n <= |run|
    ensures Names(run[..n]) <= Names(run)
    decreases |run|
  {
    if n == |run| {
      assert run[..n] == run;
    } else {
      NamesGrow(run[..|run| - 1], n);
      assert run[..|run| - 1][..n] == run[..n];
    }
  }

  /**
   * A blob keeps its bytes for the rest of the run, and it is on disk until a
   * purge of an expired entry takes it, and never again after that.
   */
  lemma {:induction false} BlobsLast(run: seq<Step>, n: nat, name: string)
    requires FreshRun(run) && n <= |run| && name in Run(run[..n]).blobs
    ensures name in Run(run).blobs <==> !PurgedSince(run, n, name)
    ensures name in Run(run).blobs ==> Run(run).blobs[name] == Run(run[..n]).blobs[name]
    decreases |run|
  {
    if n == |run| {
      assert run[..n] == run;
    } else {
      var last := |run| - 1;
      var pre := run[..last];
      assert pre[..n] == run[..n];
      BlobsLast(pre, n, name);
      BlobsAreNamed(run[..n]);
      NamesGrow(pre, n);
      StillPurged(run, n, name);
      if name in Run(pre).blobs {
        StepKeepsBlob(Run(pre), run[last], name);
      } else {
        StepAddsBlob(Run(pre), run[last], name);
      }
    }
  }

  lemma StillPurged(run: seq<Step>, n: nat, name: string)
    requires n < |run|
    ensures PurgedSince(run, n, name) <==> PurgedSince(run[..|run| - 1], n, name) || PurgedAt(run, |run| - 1, name)
  {
    var pre := run[..|run| - 1];
    if m: nat :| n <= m && PurgedAt(run, m, name) {
      if m < |run| - 1 {
        assert pre[..m] == run[..m];
        assert PurgedAt(pre, m, name);
      }
    }
    if m: nat :| n <= m && PurgedAt(pre, m, name) {
      PurgedEarlier(run, m, name);
    }
  }

  // ---------------------------------------------------------------- orphans

  /** Blobs on disk that no entry names; nothing ever removes them. */
  function Orphans(s: Store): set<string> {
    s.blobs.Keys - EntryBlobs(s.entries)
  }

  function EntryBlobs(entries: map<string, Entry>): set<string> {
    set k | k in entries :: entries[k].blob
  }

  /** What a request adds to the orphans. */
  function NewOrphans(s: Store, step: Step): set<string> {
    match step
    case Commit(id, _, _, _) =>
      if id in s.uploads && id in s.files && IndexKey(s.uploads[id].key, s.uploads[id].version) in s.entries
      then {s.entries[IndexKey(s.uploads[id].key, s.uploads[id].version)].blob}
      else {}
    case CommitFails(id, blob, debris) => if id in s.uploads && debris.Some? then {blob} else {}
    case Purge(maxAgeDays, now, stuck) =>
      if maxAgeDays <= 0 then {} else ExpiredBlobs(s.entries, Cutoff(maxAgeDays, now)) * stuck
    case _ => {}
  }

  lemma SplitBlobs(entries: map<string, Entry>, cutoff: int)
    requires OwnBlobs(entries)
    ensures EntryBlobs(Survivors(entries, cutoff)) == EntryBlobs(entries) - ExpiredBlobs(entries, cutoff)
    ensures ExpiredBlobs(entries, cutoff) <= EntryBlobs(entries)
  {
    var left := Survivors(entries, cutoff);
    forall b | b in EntryBlobs(left) ensures b in EntryBlobs(entries) && b !in ExpiredBlobs(entries, cutoff) {
      var k :| k in left && left[k].blob == b;
    }
    forall b | b in EntryBlobs(entries) && b !in ExpiredBlobs(entries, cutoff) ensures b in EntryBlobs(left) {
      var k :| k in entries && entries[k].blob == b;
      assert k in left;
    }
  }

  lemma ReplacedBlobs(entries: map<string, Entry>, k: string, e: Entry)
    requires OwnBlobs(entries)
    ensures EntryBlobs(entries[k := e]) == EntryBlobs(entries) - (if k in entries then {entries[k].blob} else {}) + {e.blob}
  {
    var after := entries[k := e];
    forall b | b in EntryBlobs(after) ensures b == e.blob || (b in EntryBlobs(entries) && (k in entries ==> b != entries[k].blob)) {
      var l :| l in after && after[l].blob == b;
    }
    assert after[k].blob == e.blob;
    forall b | b in EntryBlobs(entries) && (k in entries ==> b != entries[k].blob) ensures b in EntryBlobs(after) {
      var l :| l in entries && entries[l].blob == b;
      assert after[l].blob == b;
    }
  }

  lemma EntryBlobsExist(s: Store)
    requires Sound(s)
    ensures EntryBlobs(s.entries) <= s.blobs.Keys
  {
    forall k | k in s.entries ensures s.entries[k].blob in s.blobs {
      assert Filed(s, k);
    }
  }

  /** Orphans only accumulate, and this is exactly how. */
  lemma OrphansGrow(run: seq<Step>, step: Step)
    requires FreshRun(run + [step])
    ensures Orphans(Run(run + [step])) == Orphans(Run(run)) + NewOrphans(Run(run), step)
    ensures NewOrphans(Run(run), step) !! Orphans(Run(run))
  {
    assert (run + [step])[..|run|] == run;
    StoreIsSound(run);
    BlobsAreNamed(run);
    StepOrphans(Run(run), step);
  }

  lemma CommitOrphans(s: Store, id: nat, blob: string, now: int, sized: bool)
    requires Sound(s) && blob !in s.blobs
    ensures Orphans(ApplyCommit(s, id, blob, now, sized)) == Orphans(s) + NewOrphans(s, Commit(id, blob, now, sized))
    ensures NewOrphans(s, Commit(id, blob, now, sized)) !! Orphans(s)
  {
    EntryBlobsExist(s);
    if id in s.uploads && id in s.files {
      var k := IndexKey(s.uploads[id].key, s.uploads[id].version);
      ReplacedBlobs(s.entries, k, ApplyCommit(s, id, blob, now, sized).entries[k]);
    }
  }

  lemma PurgeOrphans(s: Store, maxAgeDays: int, now: int, stuck: set<string>)
    requires Sound(s)
    ensures Orphans(ApplyPurge(s, maxAgeDays, now, stuck)) == Orphans(s) + NewOrphans(s, Purge(maxAgeDays, now, stuck))
    ensures NewOrphans(s, Purge(maxAgeDays, now, stuck)) !! Orphans(s)
  {
    EntryBlobsExist(s);
    if maxAgeDays > 0 {
      SplitBlobs(s.entries, Cutoff(maxAgeDays, now));
    }
  }

  lemma StepOrphans(s: Store, step: Step)
    requires Sound(s) && Name(step) !! s.blobs.Keys
    ensures Orphans(Apply(s, step)) == Orphans(s) + NewOrphans(s, step)
    ensures NewOrphans(s, step) !! Orphans(s)
  {
    match step {
      case Commit(id, blob, now, sized) => CommitOrphans(s, id, blob, now, sized);
      case Purge(maxAgeDays, now, stuck) => PurgeOrphans(s, maxAgeDays, now, stuck);
      case CommitFails(_, _, _) => EntryBlobsExist(s);
      case _ =>
    }
  }

  // ---------------------------------------------------------------- chunks

  datatype Chunk = Chunk(offset: nat, data: Bytes)

  /** The chunks written to an upload since it was reserved, in order. */
  function Written(run: seq<Step>, id: nat): seq<Chunk>
    decreases |run|
  {
    if run == [] then []
    else
      var pre, step := run[..|run| - 1], run[|run| - 1];
      if step.Patch? && step.id == id && id in Run(pre).uploads then
        Written(pre, id) + [Chunk(Offset(step.start), Landed(step.data, step.written))]
      else if step.Reserve? && id == Run(pre).nextUpload && Apply(Run(pre), step) != Run(pre) then []
      else Written(pre, id)
  }

  function Assemble(chunks: seq<Chunk>): Bytes
    decreases |chunks|
  {
    if chunks == [] then []
    else
      var last := chunks[|chunks| - 1];
      WriteAt(Assemble(chunks[..|chunks| - 1]), last.offset, last.data)
  }

  lemma StepKeepsFile(s: Store, step: Step, id: nat)
    requires Sound(s) && id in Apply(s, step).uploads && id in s.uploads && !(step.Patch? && step.id == id)
    ensures id in Apply(s, step).files && id in s.files && Apply(s, step).files[id] == s.files[id]
  {
    assert Begun(s, id);
  }

  lemma ReserveChanges(s: Store, step: Step)
    requires step.Reserve? && Sound(s)
    ensures Apply(s, step) == s || (s.nextUpload in Apply(s, step).files && Apply(s, step).files[s.nextUpload] == [] && s.nextUpload !in s.uploads)
    ensures Apply(s, step) == s || forall id :: id in Apply(s, step).uploads && id != s.nextUpload ==> id in s.uploads
  {
    assert s.nextUpload in s.uploads ==> Begun(s, s.nextUpload);
  }

  /** Whatever else happened, an upload's file holds what its own chunks put there. */
  lemma {:induction false} UploadIsItsChunks(run: seq<Step>, id: nat)
    requires FreshRun(run) && id in Run(run).uploads
    ensures id in Run(run).files && Run(run).files[id] == Assemble(Written(run, id))
    decreases |run|
  {
    var pre, step := run[..|run| - 1], run[|run| - 1];
    var s := Run(pre);
    StoreIsSound(pre);
    if step.Reserve? {
      ReserveChanges(s, step);
    }
    if id in s.uploads {
      UploadIsItsChunks(pre, id);
      if step.Patch? && step.id == id {
        PatchedFile(pre, step, Written(pre, id));
      } else {
        StepKeepsFile(s, step, id);
      }
    }
  }

  lemma PatchedFile(pre: seq<Step>, step: Step, chunks: seq<Chunk>)
    requires step.Patch? && step.id in Run(pre).uploads
    requires step.id in Run(pre).files && Run(pre).files[step.id] == Assemble(chunks)
    ensures step.id in Apply(Run(pre), step).files
    ensures Apply(Run(pre), step).files[step.id] == Assemble(chunks + [Chunk(Offset(step.start), Landed(step.data, step.written))])
  {
    var more := chunks + [Chunk(Offset(step.start), Landed(step.data, step.written))];
    assert more[..|more| - 1] == chunks;
  }

  /** The chunk is the source's own bytes at its offset. */
  predicate SliceOf(c: Chunk, source: Bytes) {
    c.data == [] || (c.offset + |c.data| <= |source| && source[c.offset..c.offset + |c.data|] == c.data)
  }

  predicate Covers(c: Chunk, i: nat) {
    c.offset <= i < c.offset + |c.data|
  }

  predicate Covered(chunks: seq<Chunk>, i: nat) {
    exists j :: 0 <= j < |chunks| && Covers(chunks[j], i)
  }

  /** The byte a write leaves at position i. */
  lemma WriteAtByte(file: Bytes, offset: nat, data: Bytes, i: nat)
    requires i < |WriteAt(file, offset, data)|
    ensures WriteAt(file, offset, data)[i] ==
            if offset <= i < offset + |data| then data[i - offset] else if i < |file| then file[i] else 0
  {
  }

  lemma WriteAtLength(file: Bytes, offset: nat, data: Bytes)
    ensures |WriteAt(file, offset, data)| == if data == [] || offset + |data| <= |file| then |file| else offset + |data|
  {
  }

  lemma CoveredLast(chunks: seq<Chunk>, i: nat)
    requires chunks != []
    ensures Covered(chunks, i) <==> Covered(chunks[..|chunks| - 1], i) || Covers(chunks[|chunks| - 1], i)
  {
    var pre := chunks[..|chunks| - 1];
    if Covered(pre, i) {
      var j :| 0 <= j < |pre| && Covers(pre[j], i);
      assert Covers(chunks[j], i);
    }
    if Covered(chunks, i) && !Covers(chunks[|chunks| - 1], i) {
      var j :| 0 <= j < |chunks| && Covers(chunks[j], i);
      assert Covers(pre[j], i);
    }
  }

  /** Slices of one source: covered bytes are the source's, gaps are zeros, nothing lies beyond. */
  lemma {:induction false} AssembledByte(chunks: seq<Chunk>, source: Bytes, i: nat)
    requires forall j :: 0 <= j < |chunks| ==> SliceOf(chunks[j], source)
    ensures Covered(chunks, i) ==> i < |Assemble(chunks)| && i < |source| && Assemble(chunks)[i] == source[i]
    ensures !Covered(chunks, i) && i < |Assemble(chunks)| ==> i < |source| && Assemble(chunks)[i] == 0
    decreases |chunks|
  {
    if chunks != [] {
      var last, pre := chunks[|chunks| - 1], chunks[..|chunks| - 1];
      AssembledByte(pre, source, i);
      CoveredLast(chunks, i);
      assert SliceOf(last, source);
      if Covers(last, i) {
        assert source[last.offset..last.offset + |last.data|][i - last.offset] == source[i];
      }
      WriteAtLength(Assemble(pre), last.offset, last.data);
      if i < |Assemble(chunks)| {
        WriteAtByte(Assemble(pre), last.offset, last.data, i);
      }
    }
  }

  /** The file ends where some chunk ends. */
  lemma {:induction false} LastByteCovered(chunks: seq<Chunk>)
    requires Assemble(chunks) != []
    ensures Covered(chunks, |Assemble(chunks)| - 1)
    decreases |chunks|
  {
    var last, pre := chunks[|chunks| - 1], chunks[..|chunks| - 1];
    WriteAtLength(Assemble(pre), last.offset, last.data);
    CoveredLast(chunks, |Assemble(chunks)| - 1);
    if |Assemble(chunks)| == |Assemble(pre)| {
      LastByteCovered(pre);
    }
  }

  /** The last byte of the source and all that are not zero were written. */
  predicate Sufficient(chunks: seq<Chunk>, source: Bytes) {
    && (source != [] ==> Covered(chunks, |source| - 1))
    && forall i :: 0 <= i < |source| && source[i] != 0 ==> Covered(chunks, i)
  }

  lemma SlicesStayInside(chunks: seq<Chunk>, source: Bytes)
    requires forall j :: 0 <= j < |chunks| ==> SliceOf(chunks[j], source)
    ensures |Assemble(chunks)| <= |source|
  {
    if |Assemble(chunks)| > |source| {
      AssembledByte(chunks, source, |source|);
    }
  }

  lemma SufficientAssembles(chunks: seq<Chunk>, source: Bytes)
    requires forall j :: 0 <= j < |chunks| ==> SliceOf(chunks[j], source)
    requires Sufficient(chunks, source)
    ensures Assemble(chunks) == source
  {
    SlicesStayInside(chunks, source);
    if source != [] {
      AssembledByte(chunks, source, |source| - 1);
    }
    forall i | 0 <= i < |source| ensures Assemble(chunks)[i] == source[i] {
      AssembledByte(chunks, source, i);
    }
  }

  /** In any order and with repeats, slices of a source assemble to it if and only if its last byte and all
      that are not zero are among them; so always when they cover it. */
  lemma AssembleIsSourceIff(chunks: seq<Chunk>, source: Bytes)
    requires forall j :: 0 <= j < |chunks| ==> SliceOf(chunks[j], source)
    ensures Assemble(chunks) == source <==> Sufficient(chunks, source)
    ensures (forall i :: 0 <= i < |source| ==> Covered(chunks, i)) ==> Assemble(chunks) == source
  {
    if Assemble(chunks) == source {
      if source != [] {
        LastByteCovered(chunks);
      }
      forall i | 0 <= i < |source| && source[i] != 0 ensures Covered(chunks, i) {
        AssembledByte(chunks, source, i);
      }
    }
    if Sufficient(chunks, source) {
      SufficientAssembles(chunks, source);
    }
  }

  /**
   * End to end: an upload whose chunks were slices of one source is served as
   * that source from its commit on, in every state of the rest of the run whose
   * index still names the blob, if and only if the chunks were sufficient.
   */
  lemma CommittedSourceIsServed(run: seq<Step>, n: nat, source: Bytes, k: string)
    requires FreshRun(run) && n < |run| && run[n].Commit? && run[n].id in Run(run[..n]).uploads
    requires forall j :: 0 <= j < |Written(run[..n], run[n].id)| ==> SliceOf(Written(run[..n], run[n].id)[j], source)
    requires k in Run(run).entries && Run(run).entries[k].blob == run[n].blob
    ensures run[n].blob in Run(run).blobs
    ensures Run(run).blobs[run[n].blob] == source <==> Sufficient(Written(run[..n], run[n].id), source)
    ensures (forall i :: 0 <= i < |source| ==> Covered(Written(run[..n], run[n].id), i)) ==> Run(run).blobs[run[n].blob] == source
  {
    var pre, upto := run[..n], run[..n + 1];
    assert upto[..n] == pre;
    FreshPrefix(run, n);
    StoreIsSound(run);
    assert Filed(Run(run), k);
    UploadIsItsChunks(pre, run[n].id);
    AssembleIsSourceIff(Written(pre, run[n].id), source);
    BlobsLast(run, n + 1, run[n].blob);
  }

  lemma {:induction false} FreshPrefix(run: seq<Step>, n: nat)
    requires FreshRun(run) && n <= |run|
    ensures FreshRun(run[..n])
    decreases |run|
  {
    if n == |run| {
      assert run[..n] == run;
    } else {
      FreshPrefix(run[..|run| - 1], n);
      assert run[..|run| - 1][..n] == run[..n];
    }
  }

  // ---------------------------------------------------------------- how long an entry lives

  predicate Listed(s: Store, k: string, e: Entry) {
    k in s.entries && s.entries[k] == e
  }

  /** A later commit for the same index key, or a purge when the entry is older than that many days. */
  predicate EndsEntry(s: Store, step: Step, k: string, e: Entry) {
    || (step.Commit? && step.id in s.uploads && s.uploads[step.id].key + "|" + s.uploads[step.id].version == k)
    || (step.Purge? && step.maxAgeDays > 0 && step.now - e.created > step.maxAgeDays * 86400000)
  }

  lemma StepEndsEntry(s: Store, step: Step, k: string, e: Entry)
    requires Sound(s) && e.blob !in Name(step)
    ensures Listed(Apply(s, step), k, e) <==> Listed(s, k, e) && !EndsEntry(s, step, k, e)
  {
    match step {
      case Commit(id, _, _, _) =>
        assert id in s.uploads ==> Begun(s, id);
      case _ =>
    }
  }

  /** No step of the run from n on ends the entry. */
  ghost predicate Undisturbed(run: seq<Step>, n: nat, k: string, e: Entry) {
    forall m :: n <= m < |run| ==> !EndsEntry(Run(run[..m]), run[m], k, e)
  }

  lemma UndisturbedLast(run: seq<Step>, n: nat, k: string, e: Entry)
    requires n < |run|
    ensures Undisturbed(run, n, k, e) <==>
            Undisturbed(run[..|run| - 1], n, k, e) && !EndsEntry(Run(run[..|run| - 1]), run[|run| - 1], k, e)
  {
    var pre := run[..|run| - 1];
    forall m | n <= m < |pre| ensures pre[..m] == run[..m] && pre[m] == run[m] {
    }
    if Undisturbed(run, n, k, e) {
      forall m | n <= m < |pre| ensures !EndsEntry(Run(pre[..m]), pre[m], k, e) {
        assert !EndsEntry(Run(run[..m]), run[m], k, e);
      }
    }
    if Undisturbed(pre, n, k, e) && !EndsEntry(Run(pre), run[|run| - 1], k, e) {
      forall m | n <= m < |run| ensures !EndsEntry(Run(run[..m]), run[m], k, e) {
        if m < |pre| {
          assert !EndsEntry(Run(pre[..m]), pre[m], k, e);
        }
      }
    }
  }

  /** An entry in the index stays there, unchanged, exactly until a step ends it. */
  lemma {:induction false} ListedUntil(run: seq<Step>, n: nat, k: string, e: Entry)
    requires FreshRun(run) && n <= |run| && e.blob in Names(run[..n]) && Listed(Run(run[..n]), k, e)
    ensures Listed(Run(run), k, e) <==> Undisturbed(run, n, k, e)
    decreases |run|
  {
    if n == |run| {
      assert run[..n] == run;
    } else {
      var pre := run[..|run| - 1];
      assert pre[..n] == run[..n];
      ListedUntil(pre, n, k, e);
      NamesGrow(pre, n);
      StoreIsSound(pre);
      UndisturbedLast(run, n, k, e);
      StepEndsEntry(Run(pre), run[|run| - 1], k, e);
    }
  }

  /**
   * The life of a committed upload.  It is listed under its key and version with its own blob, its
   * length and the time of the commit.  It is still listed, and its blob holds the bytes of the
   * upload, exactly if no later commit replaced it and every later purge came at most the purge's
   * number of days, of 86400000 ms each, after the commit.
   */
  lemma CommittedEntryLives(run: seq<Step>, n: nat)
    requires FreshRun(run) && n < |run| && run[n].Commit? && run[n].id in Run(run[..n]).uploads
    ensures var s, u := Run(run[..n]), Run(run[..n]).uploads[run[n].id];
            && run[n].id in s.files
            && var e := Entry(u.key, u.version, run[n].blob, if run[n].sized then |s.files[run[n].id]| else 0, run[n].now);
            && Listed(Run(run[..n + 1]), u.key + "|" + u.version, e)
            && (Listed(Run(run), u.key + "|" + u.version, e) <==> Undisturbed(run, n + 1, u.key + "|" + u.version, e))
            && (Listed(Run(run), u.key + "|" + u.version, e) ==>
                  e.blob in Run(run).blobs && Run(run).blobs[e.blob] == s.files[run[n].id])
  {
    var pre, upto := run[..n], run[..n + 1];
    var s, id := Run(pre), run[n].id;
    assert upto[..n] == pre && upto[n] == run[n];
    FreshPrefix(run, n);
    StoreIsSound(pre);
    assert Begun(s, id);
    var u := s.uploads[id];
    var k, e := u.key + "|" + u.version, Entry(u.key, u.version, run[n].blob, if run[n].sized then |s.files[id]| else 0, run[n].now);
    CommitLists(s, run[n]);
    assert Run(upto) == Apply(s, run[n]);
    ListedUntil(run, n + 1, k, e);
    if Listed(Run(run), k, e) {
      StoreIsSound(run);
      assert Filed(Run(run), k);
      BlobsLast(run, n + 1, e.blob);
    }
  }

  lemma CommitLists(s: Store, step: Step)
    requires step.Commit? && step.id in s.uploads && step.id in s.files
    ensures var u, t := s.uploads[step.id], Apply(s, step);
            Listed(t, u.key + "|" + u.version, Entry(u.key, u.version, step.blob, if step.sized then |s.files[step.id]| else 0, step.now))
            && step.blob in t.blobs && t.blobs[step.blob] == s.files[step.id]
  {
  }

  /** A chunk sent with a start that is not positive lies at the front of the file; any other at its start,
      after zeros up to there if the file was shorter. */
  lemma PatchedByte(s: Store, id: nat, start: int, end: int, data: Bytes, i: nat)
    requires id in s.uploads && id in s.files && data != []
    requires i < |Apply(s, Patch(id, start, end, data, |data|)).files[id]|
    ensures var at := if start <= 0 then 0 else start;
            Apply(s, Patch(id, start, end, data, |data|)).files[id][i] ==
            if at <= i < at + |data| then data[i - at] else if i < |s.files[id]| then s.files[id][i] else 0
  {
    WriteAtByte(s.files[id], Offset(start), data, i);
  }

  // ---------------------------------------------------------------- the server

  /** Answers of the handlers. */
  const OK := 200
  const NO_CONTENT := 204
  const BAD_REQUEST := 400
  const NOT_FOUND := 404
  const CONFLICT := 409
  const FAILED := 500

  class CacheServer {
    var entries: map<string, Entry>
    var uploads: map<nat, Upload>
    var nextUpload: nat
    var files: map<nat, Bytes>
    var blobs: map<string, Bytes>
    var saved: map<string, Entry>

    function State(): Store
      reads this
    {
      Store(entries, uploads, nextUpload, files, blobs, saved)
    }

    /** A server started on what an earlier one left on disk. */
    constructor (files: map<nat, Bytes>, blobs: map<string, Bytes>, saved: map<string, Entry>)
      ensures State() == Store(saved, map[], 1, files, blobs, saved)
    {
      this.entries, this.uploads, this.nextUpload := saved, map[], 1;
      this.files, this.blobs, this.saved := files, blobs, saved;
    }

    method HandleReserve(key: string, version: string, declared: int) returns (status: int, id: nat)
      modifies this
      ensures State() == Apply(old(State()), Reserve(key, version, declared))
      ensures status == BAD_REQUEST <==> key == "" || version == ""
      ensures status == CONFLICT <==> key != "" && version != "" && IndexKey(key, version) in old(entries)
      ensures status in {BAD_REQUEST, CONFLICT} ==> State() == old(State())
      ensures status == OK <==> State() != old(State())
      ensures status == OK ==> id in uploads && uploads[id].key == key && uploads[id].version == version && id in files && files[id] == []
    {
      id := 0;
      if key == "" || version == "" {
        return BAD_REQUEST, id;
      }
      if IndexKey(key, version) in entries {
        return CONFLICT, id;
      }
      id := nextUpload;
      nextUpload := nextUpload + 1;
      uploads := uploads[id := Upload(key, version, declared, 0)];
      files := files[id := []];
      status := OK;
    }

    /** `counts` are the results of the write calls, used until one is not positive or the chunk is written. */
    method HandlePatch(id: nat, start: int, end: int, data: Bytes, canOpen: bool, counts: seq<int>)
      returns (status: int, written: nat)
      modifies this
      ensures State() == Apply(old(State()), if canOpen then Patch(id, start, end, data, written) else PatchFails(id))
      ensures status == NOT_FOUND <==> id !in old(uploads)
      ensures id in old(uploads) ==> (status == NO_CONTENT <==> canOpen && written >= |data|)
      ensures id in old(uploads) ==> (status == FAILED <==> !canOpen || written < |data|)
    {
      written := 0;
      if id !in uploads {
        return NOT_FOUND, written;
      }
      if !canOpen {
        return FAILED, written;
      }
      var file, n := WriteChunk(Opened(State(), id), Offset(start), data, counts);
      files, written := files[id := file], n;
      if written < |data| {
        return FAILED, written;
      }
      uploads := uploads[id := Received(uploads[id], start, end, |data|)];
      status := NO_CONTENT;
    }

    method HandleCommit(id: nat, blob: string, now: int, sized: bool, moved: bool, debris: Option<Bytes>) returns (status: int)
      modifies this
      ensures State() == Apply(old(State()), if moved then Commit(id, blob, now, sized) else CommitFails(id, blob, debris))
      ensures status == NOT_FOUND <==> id !in old(uploads)
      ensures status == NO_CONTENT <==> id in old(uploads) && id in old(files) && moved
      ensures status == NO_CONTENT ==> blob in blobs && blobs[blob] == old(files)[id] && id !in uploads
    {
      if id !in uploads {
        return NOT_FOUND;
      }
      var u := uploads[id];
      if !moved || id !in files {
        if !moved && debris.Some? {
          blobs := blobs[blob := debris.value];
        }
        return FAILED;
      }
      blobs := blobs[blob := files[id]];
      files := files - {id};
      var size := if sized then |blobs[blob]| else 0;
      entries := entries[IndexKey(u.key, u.version) := Entry(u.key, u.version, blob, size, now)];
      uploads := uploads - {id};
      saved := entries;
      status := NO_CONTENT;
    }

    /** Returns how many entries were removed. */
    method PurgeOlderThan(maxAgeDays: int, now: int, stuck: set<string>) returns (removed: nat)
      modifies this
      ensures State() == Apply(old(State()), Purge(maxAgeDays, now, stuck))
      ensures removed + |entries| == |old(entries)|
    {
      removed := 0;
      if maxAgeDays <= 0 {
        return;
      }
      var left, kept, n := SweepExpired(entries, blobs, Cutoff(maxAgeDays, now), stuck);
      NoneExpired(entries, Cutoff(maxAgeDays, now));
      entries, blobs, removed := left, kept, n;
      if removed > 0 {
        saved := entries;
      }
    }
  }

  /**
   * The write loop: `counts` are the results of the write calls, and it stops
   * at one that is not positive.
   */
  method WriteChunk(before: Bytes, offset: nat, data: Bytes, counts: seq<int>) returns (file: Bytes, written: nat)
    ensures written <= |data| && file == WriteAt(before, offset, Landed(data, written))
    ensures |counts| >= |data| && (forall m :: 0 <= m < |counts| ==> counts[m] > 0) ==> written == |data|
  {
    file, written := before, 0;
    var call := 0;
    while written < |data|
      invariant written <= |data| && call <= |counts| && call <= written
      invariant file == WriteAt(before, offset, data[..written])
    {
      if call == |counts| || counts[call] <= 0 {
        return;
      }
      var n := if counts[call] < |data| - written then counts[call] else |data| - written;
      WriteOn(before, offset, data, written, n);
      file := WriteAt(file, offset + written, data[written..][..n]);
      written, call := written + n, call + 1;
    }
    assert data[..written] == data;
  }

  /** The purge loop over the index, in any order. */
  method SweepExpired(entries: map<string, Entry>, blobs: map<string, Bytes>, cutoff: int, stuck: set<string>)
    returns (left: map<string, Entry>, kept: map<string, Bytes>, removed: nat)
    ensures left == Survivors(entries, cutoff)
    ensures kept == blobs - (ExpiredBlobs(entries, cutoff) - stuck)
    ensures removed + |left| == |entries|
  {
    left, kept, removed := entries, blobs, 0;
    var todo := entries.Keys;
    ghost var gone: set<string> := {};
    while todo != {}
      invariant todo <= entries.Keys && Swept(entries, cutoff, todo, gone)
      invariant left == entries - gone && removed + |left| == |entries|
      invariant kept == blobs - (BlobsOf(entries, gone) - stuck)
      decreases |todo|
    {
      var k :| k in todo;
      ghost var before := gone;
      if entries[k].created < cutoff {
        EraseCounts(left, k);
        EraseMore(entries, gone, k);
        EraseBlob(blobs, entries, gone, k, stuck);
        kept := if entries[k].blob in stuck then kept else kept - {entries[k].blob};
        left, removed := left - {k}, removed + 1;
        gone := gone + {k};
      }
      SweptOne(entries, cutoff, todo, before, k);
      todo := todo - {k};
    }
    PurgedAll(entries, gone, cutoff);
  }

  /** Of the keys already visited exactly the expired ones are gone. */
  ghost predicate Swept(entries: map<string, Entry>, cutoff: int, todo: set<string>, gone: set<string>) {
    && gone <= entries.Keys - todo
    && forall k | k in entries && k !in todo :: k in gone <==> entries[k].created < cutoff
  }

  lemma SweptOne(entries: map<string, Entry>, cutoff: int, todo: set<string>, gone: set<string>, k: string)
    requires Swept(entries, cutoff, todo, gone) && k in todo && k in entries
    ensures Swept(entries, cutoff, todo - {k}, if entries[k].created < cutoff then gone + {k} else gone)
  {
  }

  lemma EraseBlob(blobs: map<string, Bytes>, entries: map<string, Entry>, keys: set<string>, k: string, stuck: set<string>)
    requires k in entries
    ensures entries[k].blob in stuck ==> blobs - (BlobsOf(entries, keys + {k}) - stuck) == blobs - (BlobsOf(entries, keys) - stuck)
    ensures entries[k].blob !in stuck ==>
              blobs - (BlobsOf(entries, keys + {k}) - stuck) == blobs - (BlobsOf(entries, keys) - stuck) - {entries[k].blob}
  {
    BlobsGrow(entries, keys, k);
    var less, more := BlobsOf(entries, keys) - stuck, BlobsOf(entries, keys + {k}) - stuck;
    if entries[k].blob in stuck {
      assert more == less;
    } else {
      assert more == less + {entries[k].blob};
    }
  }

  lemma WriteOn(file: Bytes, offset: nat, data: Bytes, done: nat, n: nat)
    requires done + n <= |data|
    ensures WriteAt(WriteAt(file, offset, data[..done]), offset + done, data[done..][..n]) == WriteAt(file, offset, data[..done + n])
  {
    var first := WriteAt(file, offset, data[..done]);
    var both, whole := WriteAt(first, offset + done, data[done..][..n]), WriteAt(file, offset, data[..done + n]);
    WriteAtLength(file, offset, data[..done]);
    WriteAtLength(first, offset + done, data[done..][..n]);
    WriteAtLength(file, offset, data[..done + n]);
    forall i | 0 <= i < |both| && i < |whole| ensures both[i] == whole[i] {
      WriteOnByte(file, offset, data, done, n, i);
    }
  }

  lemma WriteOnByte(file: Bytes, offset: nat, data: Bytes, done: nat, n: nat, i: nat)
    requires done + n <= |data|
    requires i < |WriteAt(WriteAt(file, offset, data[..done]), offset + done, data[done..][..n])|
    requires i < |WriteAt(file, offset, data[..done + n])|
    ensures WriteAt(WriteAt(file, offset, data[..done]), offset + done, data[done..][..n])[i] == WriteAt(file, offset, data[..done + n])[i]
  {
    var first := WriteAt(file, offset, data[..done]);
    WriteAtLength(file, offset, data[..done]);
    WriteAtByte(first, offset + done, data[done..][..n], i);
    WriteAtByte(file, offset, data[..done + n], i);
    if i < |first| {
      WriteAtByte(file, offset, data[..done], i);
    }
  }

  ghost function BlobsOf(entries: map<string, Entry>, keys: set<string>): set<string> {
    set k | k in keys && k in entries :: entries[k].blob
  }

  lemma BlobsGrow(entries: map<string, Entry>, keys: set<string>, k: string)
    requires k in entries
    ensures BlobsOf(entries, keys + {k}) == BlobsOf(entries, keys) + {entries[k].blob}
  {
  }

  lemma EraseMore(entries: map<string, Entry>, keys: set<string>, k: string)
    ensures entries - keys - {k} == entries - (keys + {k})
  {
  }

  lemma EraseCounts(m: map<string, Entry>, k: string)
    requires k in m
    ensures |m - {k}| + 1 == |m|
  {
    assert (m - {k}).Keys == m.Keys - {k};
    assert |m.Keys| == |m| && |(m - {k}).Keys| == |m - {k}|;
  }

  lemma PurgedAll(entries: map<string, Entry>, gone: set<string>, cutoff: int)
    requires Swept(entries, cutoff, {}, gone)
    ensures entries - gone == Survivors(entries, cutoff)
    ensures BlobsOf(entries, gone) == ExpiredBlobs(entries, cutoff)
  {
  }

  lemma NoneExpired(entries: map<string, Entry>, cutoff: int)
    ensures ExpiredBlobs(entries, cutoff) == {} <==> |Survivors(entries, cutoff)| == |entries|
  {
    var left := Survivors(entries, cutoff);
    if ExpiredBlobs(entries, cutoff) == {} {
      NothingExpired(entries, cutoff);
    } else {
      var k :| k in entries && entries[k].created < cutoff;
      assert left.Keys <= entries.Keys - {k};
      Smaller(left.Keys, entries.Keys - {k});
      assert |left.Keys| == |left| && |entries.Keys| == |entries|;
    }
  }

  lemma {:induction false} Smaller(a: set<string>, b: set<string>)
    requires a <= b
    ensures |a| <= |b|
  {
    if x :| x in a {
      Smaller(a - {x}, b - {x});
    }
  }
}
