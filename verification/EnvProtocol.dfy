/**
 * What a step writes to the protocol files and what the runner makes of it
 * (src/process/EnvManager.cpp): the records of $GITHUB_ENV and $GITHUB_OUTPUT
 * read back, the $GITHUB_PATH lines, and the manager's own state between steps.
 */
module EnvProtocol {

  import opened Sequences
  import opened Accumulation
  import opened EnvFile

  // ---------------------------------------------------------------- records

  /** KEY=VALUE, or KEY<<DELIMITER, the value's lines, DELIMITER; lines may end in a carriage return. */
  datatype Record =
    | Simple(key: string, value: string, crlf: bool)
    | Block(key: string, delimiter: string, lines: seq<string>, crlf: bool)

  function Join(lines: seq<string>): string
    decreases |lines|
  {
    if lines == [] then ""
    else if |lines| == 1 then lines[0]
    else Join(lines[..|lines| - 1]) + "\n" + lines[|lines| - 1]
  }

  function Value(r: Record): string {
    if r.Simple? then r.value else Join(r.lines)
  }

  function RecordLines(r: Record): seq<string> {
    if r.Simple? then [r.key + "=" + r.value] else [r.key + "<<" + r.delimiter] + r.lines + [r.delimiter]
  }

  /** A line the reader gets back as it was written. */
  predicate Clean(line: string, crlf: bool) {
    Lacks(line, '\n') && (crlf || line == "" || line[|line| - 1] != '\r')
  }

  /** The format's side conditions. */
  predicate WellFormed(r: Record) {
    && r.key != ""
    && (forall i | 0 <= i < |RecordLines(r)| :: Clean(RecordLines(r)[i], r.crlf))
    && (r.Simple? ==> Lacks(r.key, '=') && FindShift(r.key + "=" + r.value) == |r.key| + 1 + |r.value|)
    && (r.Block? ==> FindShift(r.key + "<<") == |r.key| && r.delimiter !in r.lines)
  }

  function Ended(line: string, crlf: bool): string {
    if crlf then line + "\r" else line
  }

  function Text(lines: seq<string>, crlf: bool): string {
    if lines == [] then "" else Ended(lines[0], crlf) + "\n" + Text(lines[1..], crlf)
  }

  function File(records: seq<Record>): string {
    if records == [] then "" else Text(RecordLines(records[0]), records[0].crlf) + File(records[1..])
  }

  /** Later records of a key replace earlier ones. */
  function LastWins(result: Env, records: seq<Record>): Env
    decreases |records|
  {
    if records == [] then result else LastWins(result[records[0].key := Value(records[0])], records[1..])
  }

  // ---------------------------------------------------------------- reading the text back

  lemma {:induction false} TextIsWhole(lines: seq<string>, crlf: bool)
    ensures WholeLines(Text(lines, crlf))
  {
    if lines != [] {
      TextIsWhole(lines[1..], crlf);
      var head, rest := Ended(lines[0], crlf) + "\n", Text(lines[1..], crlf);
      assert rest != "" ==> (head + rest)[|head + rest| - 1] == rest[|rest| - 1];
    }
  }

  lemma EndedLacks(line: string, crlf: bool)
    requires Clean(line, crlf)
    ensures Lacks(Ended(line, crlf), '\n') && Trim(Ended(line, crlf)) == line
  {
    if crlf {
      LacksMore(line, '\r');
      assert (line + "\r")[..|line|] == line;
    }
  }

  lemma HeadLine(line: string, rest: string)
    requires Lacks(line, '\n')
    ensures Lines(line + "\n" + rest) == [line] + Lines(rest)
  {
    LineOf(line);
    LinesConcat(line + "\n", rest);
  }

  predicate AllClean(lines: seq<string>, crlf: bool) {
    forall i | 0 <= i < |lines| :: Clean(lines[i], crlf)
  }

  /** What reading clean lines does, with the line ends gone. */
  function ReadTrimmed(r: Reader, lines: seq<string>): Reader
    decreases |lines|
  {
    if lines == [] then r
    else ReadTrimmed(if r.mode.Idle? then Begin(r, lines[0]) else Continue(r, lines[0]), lines[1..])
  }

  lemma {:induction false} TextReads(r: Reader, lines: seq<string>, crlf: bool)
    requires AllClean(lines, crlf)
    ensures Read(r, Lines(Text(lines, crlf))) == ReadTrimmed(r, lines)
    decreases |lines|
  {
    if lines != [] {
      var line, rest := Ended(lines[0], crlf), Text(lines[1..], crlf);
      EndedLacks(lines[0], crlf);
      HeadLine(line, rest);
      ReadFirst(r, line, Lines(rest));
      TextReads(Step(r, line), lines[1..], crlf);
    }
  }

  lemma SimpleReads(result: Env, r: Record)
    requires r.Simple? && WellFormed(r)
    ensures Begin(Reader(result, Idle), r.key + "=" + r.value) == Reader(result[r.key := r.value], Idle)
  {
    var line := r.key + "=" + r.value;
    assert At(line, '=', |r.key|);
    assert forall i :: 0 <= i < |r.key| ==> At(line, '=', i) == At(r.key, '=', i);
    FindIs(line, '=', |r.key|);
    assert line[..|r.key|] == r.key && line[|r.key| + 1..] == r.value;
  }

  lemma BlockOpens(result: Env, r: Record)
    requires r.Block? && WellFormed(r)
    ensures Begin(Reader(result, Idle), r.key + "<<" + r.delimiter) == Reader(result, Heredoc(r.key, r.delimiter, "", true))
  {
    var line := r.key + "<<" + r.delimiter;
    ShiftStays(r.key + "<<", r.delimiter);
    assert line[..|r.key|] == r.key && line[|r.key| + 2..] == r.delimiter;
  }

  lemma JoinMore(done: seq<string>, line: string)
    ensures Join(done + [line]) == if done == [] then line else Join(done) + "\n" + line
  {
    assert (done + [line])[..|done|] == done;
  }

  /** The value's lines gather behind the opening line. */
  lemma {:induction false} BodyReads(result: Env, r: Record, done: seq<string>, rest: seq<string>)
    requires r.Block? && r.lines == done + rest && r.delimiter !in r.lines
    ensures ReadTrimmed(Reader(result, Heredoc(r.key, r.delimiter, Join(done), done == [])), rest) ==
            Reader(result, Heredoc(r.key, r.delimiter, Join(r.lines), r.lines == []))
    decreases |rest|
  {
    if rest == [] {
      assert done + rest == done;
    } else {
      var more := done + [rest[0]];
      assert more + rest[1..] == r.lines;
      assert rest[0] in r.lines;
      JoinMore(done, rest[0]);
      BodyReads(result, r, more, rest[1..]);
    }
  }

  lemma {:induction false} ReadTrimmedConcat(r: Reader, a: seq<string>, b: seq<string>)
    ensures ReadTrimmed(r, a + b) == ReadTrimmed(ReadTrimmed(r, a), b)
    decreases |a|
  {
    if a == [] {
      assert a + b == b;
    } else {
      assert (a + b)[1..] == a[1..] + b;
      ReadTrimmedConcat(if r.mode.Idle? then Begin(r, a[0]) else Continue(r, a[0]), a[1..], b);
    }
  }

  lemma ReadOne(r: Reader, line: string)
    ensures ReadTrimmed(r, [line]) == if r.mode.Idle? then Begin(r, line) else Continue(r, line)
  {
    var lines, after := [line], if r.mode.Idle? then Begin(r, line) else Continue(r, line);
    assert ReadTrimmed(after, lines[1..]) == after;
  }

  function OpenBlock(r: Record): seq<string>
    requires r.Block?
  {
    [r.key + "<<" + r.delimiter] + r.lines
  }

  lemma OpenBlockReads(result: Env, r: Record)
    requires r.Block? && WellFormed(r)
    ensures ReadTrimmed(Reader(result, Idle), OpenBlock(r)) == Reader(result, Heredoc(r.key, r.delimiter, Join(r.lines), r.lines == []))
  {
    var head := [r.key + "<<" + r.delimiter];
    BlockOpens(result, r);
    ReadOne(Reader(result, Idle), head[0]);
    ReadTrimmedConcat(Reader(result, Idle), head, r.lines);
    BodyReads(result, r, [], r.lines);
  }

  lemma RecordReads(result: Env, r: Record)
    requires WellFormed(r)
    ensures ReadTrimmed(Reader(result, Idle), RecordLines(r)) == Reader(result[r.key := Value(r)], Idle)
  {
    if r.Simple? {
      SimpleReads(result, r);
      ReadOne(Reader(result, Idle), r.key + "=" + r.value);
    } else {
      OpenBlockReads(result, r);
      var open := Reader(result, Heredoc(r.key, r.delimiter, Join(r.lines), r.lines == []));
      ReadTrimmedConcat(Reader(result, Idle), OpenBlock(r), [r.delimiter]);
      ReadOne(open, r.delimiter);
    }
  }

  lemma FirstRecord(result: Env, r: Record, rest: string)
    requires WellFormed(r)
    ensures Read(Reader(result, Idle), Lines(Text(RecordLines(r), r.crlf) + rest)) ==
            Read(Reader(result[r.key := Value(r)], Idle), Lines(rest))
  {
    var text := Text(RecordLines(r), r.crlf);
    TextIsWhole(RecordLines(r), r.crlf);
    LinesConcat(text, rest);
    ReadConcat(Reader(result, Idle), Lines(text), Lines(rest));
    TextReads(Reader(result, Idle), RecordLines(r), r.crlf);
    RecordReads(result, r);
  }

  lemma {:induction false} FileReads(result: Env, records: seq<Record>)
    requires forall i | 0 <= i < |records| :: WellFormed(records[i])
    ensures Read(Reader(result, Idle), Lines(File(records))) == Reader(LastWins(result, records), Idle)
    decreases |records|
  {
    if records != [] {
      var r := records[0];
      FirstRecord(result, r, File(records[1..]));
      FileReads(result[r.key := Value(r)], records[1..]);
    }
  }

  /** Any list of well-formed records, in either form and with either line end, reads back as its last-wins map. */
  lemma RecordsRoundTrip(records: seq<Record>)
    requires forall i | 0 <= i < |records| :: WellFormed(records[i])
    ensures Parse(File(records)) == LastWins(map[], records)
  {
    FileReads(map[], records);
  }

  /** What last-wins means, key by key. */
  lemma {:induction false} LastWinsAt(result: Env, records: seq<Record>, k: string)
    ensures k in LastWins(result, records) <==> k in result || exists i | 0 <= i < |records| :: records[i].key == k
    ensures forall i | 0 <= i < |records| && records[i].key == k && (forall j | i < j < |records| :: records[j].key != k) ::
              k in LastWins(result, records) && LastWins(result, records)[k] == Value(records[i])
    ensures (forall j | 0 <= j < |records| :: records[j].key != k) && k in result ==>
              k in LastWins(result, records) && LastWins(result, records)[k] == result[k]
    decreases |records|
  {
    if records != [] {
      LastWinsAt(result[records[0].key := Value(records[0])], records[1..], k);
      assert forall j | 1 <= j < |records| :: records[1..][j - 1] == records[j];
      assert forall j | 0 <= j < |records| - 1 :: records[1..][j] == records[j + 1];
    }
  }

  /** A heredoc that the file does not close still gives its key all its lines. */
  lemma OpenBlockCounts(r: Record)
    requires r.Block? && WellFormed(r)
    ensures Parse(Text(OpenBlock(r), r.crlf)) == map[r.key := Join(r.lines)]
  {
    assert forall i | 0 <= i < |OpenBlock(r)| :: OpenBlock(r)[i] == RecordLines(r)[i];
    TextReads(Start, OpenBlock(r), r.crlf);
    OpenBlockReads(map[], r);
  }

  // ---------------------------------------------------------------- the search path

  function Directory(line: string): seq<string> {
    if Trim(line) == "" then [] else [Trim(line)]
  }

  function NonEmpty(lines: seq<string>): seq<string>
    decreases |lines|
  {
    if lines == [] then []
    else Directory(lines[0]) + NonEmpty(lines[1..])
  }

  function PathLines(content: string): seq<string> {
    NonEmpty(Lines(content))
  }

  /** Each directory where it occurs first: the order in which a command is looked for. */
  function SearchOrder(path: seq<string>): seq<string>
    decreases |path|
  {
    if path == [] then []
    else
      var n := |path| - 1;
      SearchOrder(path[..n]) + if path[n] in path[..n] then [] else [path[n]]
  }

  /** The file is never truncated, so every step adds all of its lines again. */
  function AccumulatePath(path: seq<string>, content: string, texts: seq<string>): seq<string>
    decreases |texts|
  {
    if texts == [] then path
    else AccumulatePath(path + PathLines(content + texts[0]), content + texts[0], texts[1..])
  }

  lemma {:induction false} SearchSame(path: seq<string>, d: string)
    ensures d in SearchOrder(path) <==> d in path
    decreases |path|
  {
    if path != [] {
      var n := |path| - 1;
      SearchSame(path[..n], d);
      assert path == path[..n] + [path[n]];
    }
  }

  lemma SearchLast(a: seq<string>, d: string)
    ensures SearchOrder(a + [d]) == SearchOrder(a) + if d in a then [] else [d]
  {
    assert (a + [d])[..|a|] == a;
  }

  lemma AppendSplit(a: seq<string>, b: seq<string>)
    requires b != []
    ensures a + b == (a + b[..|b| - 1]) + [b[|b| - 1]]
  {
  }

  /** What follows a path is searched alike after any path with the same order. */
  lemma {:induction false} SearchAfter(a: seq<string>, c: seq<string>, b: seq<string>)
    requires SearchOrder(a) == SearchOrder(c)
    ensures SearchOrder(a + b) == SearchOrder(c + b)
    decreases |b|
  {
    if b == [] {
      assert a + b == a && c + b == c;
    } else {
      var front, d := b[..|b| - 1], b[|b| - 1];
      SearchAfter(a, c, front);
      AppendSplit(a, b);
      AppendSplit(c, b);
      SearchLast(a + front, d);
      SearchLast(c + front, d);
      SearchSame(a + front, d);
      SearchSame(c + front, d);
    }
  }

  /** Repeating directories that are already there changes no search. */
  lemma {:induction false} SearchAbsorbs(a: seq<string>, b: seq<string>)
    requires forall d | d in b :: d in a
    ensures SearchOrder(a + b) == SearchOrder(a)
    decreases |b|
  {
    if b == [] {
      assert a + b == a;
    } else {
      var front, d := b[..|b| - 1], b[|b| - 1];
      SearchAbsorbs(a, front);
      AppendSplit(a, b);
      SearchLast(a + front, d);
      assert d in a;
    }
  }

  lemma NonEmptyFirst(lines: seq<string>)
    requires lines != []
    ensures NonEmpty(lines) == Directory(lines[0]) + NonEmpty(lines[1..])
  {
  }

  lemma {:induction false} NonEmptyConcat(a: seq<string>, b: seq<string>)
    ensures NonEmpty(a + b) == NonEmpty(a) + NonEmpty(b)
    decreases |a|
  {
    if a == [] {
      assert a + b == b;
    } else {
      NonEmptyConcat(a[1..], b);
      FirstOfConcat(a, b);
      NonEmptyFirst(a + b);
      Regroup(Directory(a[0]), NonEmpty(a[1..]), NonEmpty(b));
    }
  }

  lemma SearchGrows(path: seq<string>, was: seq<string>, more: seq<string>)
    requires SearchOrder(path) == SearchOrder(was)
    ensures SearchOrder(path + (was + more)) == SearchOrder(was + more)
  {
    forall d | d in was ensures d in path {
      SearchSame(path, d);
      SearchSame(was, d);
    }
    SearchAbsorbs(path, was);
    SearchAfter(path + was, was, more);
    assert path + was + more == path + (was + more);
  }

  /** However often the file was re-read, commands are looked for as if it had been read once, at the end. */
  lemma {:induction false} SearchIsOneRead(path: seq<string>, content: string, texts: seq<string>)
    requires WholeLines(content) && (forall i :: 0 <= i < |texts| ==> WholeLines(texts[i]))
    requires SearchOrder(path) == SearchOrder(PathLines(content))
    ensures SearchOrder(AccumulatePath(path, content, texts)) == SearchOrder(PathLines(content + Concat(texts)))
    decreases |texts|
  {
    if texts == [] {
      Plain(content);
    } else {
      var next := content + texts[0];
      LinesConcat(content, texts[0]);
      NonEmptyConcat(Lines(content), Lines(texts[0]));
      SearchGrows(path, PathLines(content), PathLines(texts[0]));
      WholeConcat(content, texts[0]);
      SearchIsOneRead(path + PathLines(next), next, texts[1..]);
      Regroup(content, texts[0], Concat(texts[1..]));
    }
  }

  /** What is searched after a path: the directories it does not have yet. */
  lemma {:induction false} SearchConcat(a: seq<string>, b: seq<string>)
    ensures SearchOrder(a) <= SearchOrder(a + b)
    decreases |b|
  {
    if b == [] {
      assert a + b == a;
    } else {
      var front, d := b[..|b| - 1], b[|b| - 1];
      SearchConcat(a, front);
      AppendSplit(a, b);
      SearchLast(a + front, d);
    }
  }

  lemma {:induction false} SearchTwice(path: seq<string>)
    ensures SearchOrder(SearchOrder(path)) == SearchOrder(path)
    decreases |path|
  {
    if path != [] {
      var front, d := path[..|path| - 1], path[|path| - 1];
      SearchTwice(front);
      assert path == front + [d];
      SearchLast(front, d);
      SearchLast(SearchOrder(front), d);
      SearchSame(front, d);
      if d in front {
        assert SearchOrder(front) + [] == SearchOrder(front);
      }
    }
  }

  /** What comes after a path may be replaced by its own search order. */
  lemma {:induction false} SearchBefore(a: seq<string>, b: seq<string>)
    ensures SearchOrder(a + b) == SearchOrder(a + SearchOrder(b))
    decreases |b|
  {
    if b != [] {
      var front, d := b[..|b| - 1], b[|b| - 1];
      SearchBefore(a, front);
      AppendSplit(a, b);
      SearchLast(a + front, d);
      SearchSame(front, d);
      if d in front {
        assert SearchOrder(front) + [] == SearchOrder(front);
      } else {
        Regroup(a, SearchOrder(front), [d]);
        SearchLast(a + SearchOrder(front), d);
      }
    }
  }

  /** A beginning of a search order, read before all of it, changes nothing. */
  lemma SearchOwn(first: seq<string>, rest: seq<string>)
    ensures SearchOrder(first + (first + rest)) == SearchOrder(first + rest)
  {
    Regroup(first, first, rest);
    SearchAbsorbs(first, first);
    SearchAfter(first + first, first, rest);
  }

  lemma SearchFromOwn(first: seq<string>, rest: seq<string>, b: seq<string>)
    requires SearchOrder(b) == first + rest
    ensures SearchOrder(first + b) == SearchOrder(b)
  {
    SearchBefore(first, b);
    SearchOwn(first, rest);
    SearchTwice(b);
  }

  lemma SearchFromPrefix(a: seq<string>, b: seq<string>)
    requires SearchOrder(a) <= SearchOrder(b)
    ensures SearchOrder(a + b) == SearchOrder(b)
  {
    PrefixSplits(SearchOrder(a), SearchOrder(b));
    SearchFromOwn(SearchOrder(a), SearchOrder(b)[|SearchOrder(a)|..], b);
    SearchTwice(a);
    SearchAfter(a, SearchOrder(a), b);
  }

  /** Reading b after a is searched like b alone if and only if b is searched from where a left off. */
  lemma SearchAddsUpIff(a: seq<string>, b: seq<string>)
    ensures SearchOrder(a + b) == SearchOrder(b) <==> SearchOrder(a) <= SearchOrder(b)
  {
    SearchConcat(a, b);
    if SearchOrder(a) <= SearchOrder(b) {
      SearchFromPrefix(a, b);
    }
  }

  lemma {:induction false} AccumulatePathLast(path: seq<string>, content: string, texts: seq<string>)
    requires texts != []
    ensures AccumulatePath(path, content, texts) ==
            AccumulatePath(path, content, texts[..|texts| - 1]) + PathLines(content + Concat(texts))
    decreases |texts|
  {
    var n, next := |texts| - 1, content + texts[0];
    if n == 0 {
      assert texts[1..] == [] && texts[..0] == [];
      Plain(texts[0]);
    } else {
      AccumulatePathLast(path + PathLines(next), next, texts[1..]);
      assert texts[..n][1..] == texts[1..][..n - 1];
      Regroup(content, texts[0], Concat(texts[1..]));
    }
  }

  /** For any steps, whole lines or not: commands are looked for as if the file had been read once, at the
      end, if and only if what was accumulated before the last reading is searched like the beginning of
      that reading. */
  lemma SearchIsOneReadIff(path: seq<string>, content: string, texts: seq<string>)
    requires texts != []
    ensures SearchOrder(AccumulatePath(path, content, texts)) == SearchOrder(PathLines(content + Concat(texts))) <==>
            SearchOrder(AccumulatePath(path, content, texts[..|texts| - 1])) <= SearchOrder(PathLines(content + Concat(texts)))
  {
    AccumulatePathLast(path, content, texts);
    SearchAddsUpIff(AccumulatePath(path, content, texts[..|texts| - 1]), PathLines(content + Concat(texts)));
  }

  lemma WholeConcat(a: string, b: string)
    requires WholeLines(a) && WholeLines(b)
    ensures WholeLines(a + b)
  {
  }

  // ---------------------------------------------------------------- the manager

  class EnvManager {
    var overrides: Env
    var prepends: seq<string>
    var envFile: string
    var pathFile: string
    var outputFile: string
    var stateFile: string
    var summaryFile: string

    /** The protocol files are opened for appending, so what an earlier job left in the workspace stays;
        a missing file is created empty. */
    constructor (env: string, path: string, output: string, state: string, summary: string)
      ensures overrides == map[] && prepends == []
      ensures envFile == env && pathFile == path && outputFile == output && stateFile == state && summaryFile == summary
    {
      overrides, prepends := map[], [];
      envFile, pathFile, outputFile, stateFile, summaryFile := env, path, output, state, summary;
    }

    method ParseOutputs() returns (outputs: Env)
      ensures outputs == Parse(outputFile)
    {
      outputs := ParseKeyValueFile(outputFile);
    }

    /** The changes are copied one by one over the overrides. */
    method ApplyEnvChanges()
      modifies this`overrides
      ensures overrides == old(overrides) + Parse(envFile)
    {
      var changes := ParseKeyValueFile(envFile);
      overrides := Overlay(overrides, changes);
    }

    method ApplyPathChanges()
      modifies this`prepends
      ensures prepends == old(prepends) + PathLines(pathFile)
    {
      var lines := CollectPath(pathFile);
      prepends := prepends + lines;
    }

    /** The environment, path and state files are cumulative. */
    method ResetBetweenSteps()
      modifies this`outputFile, this`summaryFile
      ensures outputFile == "" && summaryFile == ""
    {
      outputFile, summaryFile := "", "";
    }

    /** A step's end: the step appended `env`, `path` and wrote `outputs`. */
    method EndStep(env: string, path: string, output: string) returns (outputs: Env)
      modifies this
      ensures envFile == old(envFile) + env && pathFile == old(pathFile) + path && stateFile == old(stateFile)
      ensures overrides == old(overrides) + Parse(envFile)
      ensures prepends == old(prepends) + PathLines(pathFile)
      ensures outputFile == "" && summaryFile == "" && outputs == Parse(old(outputFile) + output)
    {
      envFile, pathFile, outputFile := envFile + env, pathFile + path, outputFile + output;
      outputs := ParseOutputs();
      ApplyEnvChanges();
      ApplyPathChanges();
      ResetBetweenSteps();
    }

    /** All the steps of a job, in order. */
    method RunSteps(env: seq<string>, path: seq<string>)
      requires |env| == |path|
      modifies this
      ensures overrides == Accumulate(Parse, old(overrides), old(envFile), env)
      ensures prepends == AccumulatePath(old(prepends), old(pathFile), path)
    {
      var i := 0;
      while i < |env|
        invariant i <= |env|
        invariant Accumulate(Parse, old(overrides), old(envFile), env) == Accumulate(Parse, overrides, envFile, env[i..])
        invariant AccumulatePath(old(prepends), old(pathFile), path) == AccumulatePath(prepends, pathFile, path[i..])
      {
        AccumulateFirst(Parse, overrides, envFile, env[i..]);
        var _ := EndStep(env[i], path[i], "");
        assert env[i..][1..] == env[i + 1..] && path[i..][1..] == path[i + 1..];
        i := i + 1;
      }
    }
  }

  method Overlay(overrides: Env, changes: Env) returns (after: Env)
    ensures after == overrides + changes
  {
    after := overrides;
    var todo := changes.Keys;
    NoneCopied(overrides, changes);
    while todo != {}
      invariant todo <= changes.Keys && Copied(overrides, changes, todo, after)
      decreases |todo|
    {
      var k :| k in todo;
      CopyOne(overrides, changes, todo, after, k);
      after := after[k := changes[k]];
      todo := todo - {k};
    }
    AllCopied(overrides, changes, after);
  }

  ghost predicate Copied(overrides: Env, changes: Env, todo: set<string>, after: Env) {
    after == overrides + (changes - todo)
  }

  lemma NoneCopied(overrides: Env, changes: Env)
    ensures Copied(overrides, changes, changes.Keys, overrides)
  {
  }

  lemma CopyOne(overrides: Env, changes: Env, todo: set<string>, after: Env, k: string)
    requires Copied(overrides, changes, todo, after) && k in todo && k in changes
    ensures Copied(overrides, changes, todo - {k}, after[k := changes[k]])
  {
    assert (changes - todo)[k := changes[k]] == changes - (todo - {k});
  }

  lemma AllCopied(overrides: Env, changes: Env, after: Env)
    requires Copied(overrides, changes, {}, after)
    ensures after == overrides + changes
  {
    assert changes - {} == changes;
  }

  method CollectPath(content: string) returns (lines: seq<string>)
    ensures lines == PathLines(content)
  {
    lines := [];
    var pos := 0;
    assert content[0..] == content;
    while pos < |content|
      invariant pos <= |content|
      invariant PathLines(content) == lines + PathLines(content[pos..])
    {
      var raw, next := GetLine(content, pos);
      var line := TrimLine(raw);
      Gather(lines, raw, Lines(content[next..]));
      pos := next;
      if line != "" {
        lines := lines + [line];
      }
    }
    assert Lines(content[pos..]) == [];
  }

  lemma Gather(lines: seq<string>, raw: string, rest: seq<string>)
    ensures lines + NonEmpty([raw] + rest) == (if Trim(raw) == "" then lines else lines + [Trim(raw)]) + NonEmpty(rest)
  {
    assert ([raw] + rest)[1..] == rest;
    assert NonEmpty([raw] + rest) == Directory(raw) + NonEmpty(rest);
  }
}
