/**
 * The $GITHUB_ENV, $GITHUB_OUTPUT and $GITHUB_PATH files
 * (src/process/EnvManager.cpp): the reader of simple and heredoc records, and
 * what re-reading the growing files after every step adds up to.
 *
 * A missing file reads as an empty one.
 */
module EnvFile {

  import opened Sequences
  import opened Accumulation

  // ---------------------------------------------------------------- lines

  predicate At(s: string, c: char, i: int) {
    0 <= i < |s| && s[i] == c
  }

  /** The first position of a character, or the length. */
  function Find(s: string, c: char): (n: nat)
    ensures n <= |s| && (n < |s| ==> At(s, c, n))
    ensures forall i :: 0 <= i < n ==> !At(s, c, i)
  {
    if s == "" || s[0] == c then 0
    else
      var n := Find(s[1..], c);
      assert forall i :: 0 < i < n + 1 ==> At(s, c, i) == At(s[1..], c, i - 1);
      1 + n
  }

  predicate Lacks(s: string, c: char) {
    Find(s, c) == |s|
  }

  /** The lines std::getline delivers: a last line may lack its newline. */
  function Lines(s: string): seq<string>
    decreases |s|
  {
    var n := Find(s, '\n');
    if s == "" then [] else if n == |s| then [s] else [s[..n]] + Lines(s[n + 1..])
  }

  function Trim(line: string): string {
    if line != "" && line[|line| - 1] == '\r' then line[..|line| - 1] else line
  }

  predicate ShiftAt(s: string, i: int) {
    0 <= i && i + 1 < |s| && s[i] == '<' && s[i + 1] == '<'
  }

  /** The first "<<", or the length. */
  function FindShift(s: string): (n: nat)
    ensures n <= |s| && (n < |s| ==> ShiftAt(s, n))
    ensures forall i :: 0 <= i < n ==> !ShiftAt(s, i)
  {
    if s == "" || ShiftAt(s, 0) then 0
    else
      var n := FindShift(s[1..]);
      assert forall i :: 0 < i < n + 1 ==> ShiftAt(s, i) == ShiftAt(s[1..], i - 1);
      1 + n
  }

  lemma FindIs(s: string, c: char, n: nat)
    requires n <= |s| && (n < |s| ==> At(s, c, n)) && forall i :: 0 <= i < n ==> !At(s, c, i)
    ensures Find(s, c) == n
  {
  }

  lemma FindShiftIs(s: string, n: nat)
    requires n <= |s| && (n < |s| ==> ShiftAt(s, n)) && forall i :: 0 <= i < n ==> !ShiftAt(s, i)
    ensures FindShift(s) == n
  {
  }

  // ---------------------------------------------------------------- the reader

  datatype Mode = Idle | Heredoc(key: string, delimiter: string, value: string, first: bool)

  datatype Reader = Reader(result: Env, mode: Mode)

  const Start := Reader(map[], Idle)

  function Put(result: Env, key: string, value: string): Env {
    if key == "" then result else result[key := value]
  }

  function Begin(r: Reader, line: string): Reader {
    var shift, eq := FindShift(line), Find(line, '=');
    if line == "" then r
    else if shift < |line| then r.(mode := Heredoc(line[..shift], line[shift + 2..], "", true))
    else if eq < |line| then r.(result := Put(r.result, line[..eq], line[eq + 1..]))
    else r
  }

  function Continue(r: Reader, line: string): Reader
    requires r.mode.Heredoc?
  {
    var h := r.mode;
    if line == h.delimiter then Reader(Put(r.result, h.key, h.value), Idle)
    else r.(mode := h.(value := if h.first then line else h.value + "\n" + line, first := false))
  }

  function Step(r: Reader, line: string): Reader {
    if r.mode.Idle? then Begin(r, Trim(line)) else Continue(r, Trim(line))
  }

  function Read(r: Reader, lines: seq<string>): Reader
    decreases |lines|
  {
    if lines == [] then r else Read(Step(r, lines[0]), lines[1..])
  }

  /** An unterminated heredoc still counts. */
  function Finish(r: Reader): Env {
    if r.mode.Idle? then r.result else Put(r.result, r.mode.key, r.mode.value)
  }

  function Parse(content: string): Env {
    Finish(Read(Start, Lines(content)))
  }

  /** One std::getline: the line, and where the next one starts. */
  method GetLine(content: string, start: nat) returns (line: string, next: nat)
    requires start < |content|
    ensures start < next <= |content|
    ensures Lines(content[start..]) == [line] + Lines(content[next..])
  {
    var rest := content[start..];
    var n := Find(rest, '\n');
    if n == |rest| {
      line, next := rest, |content|;
      assert content[next..] == "";
    } else {
      line, next := rest[..n], start + n + 1;
      assert content[next..] == rest[n + 1..];
    }
  }

  method TrimLine(raw: string) returns (line: string)
    ensures line == Trim(raw)
  {
    line := raw;
    if line != "" && line[|line| - 1] == '\r' {
      line := line[..|line| - 1];
    }
  }

  method ParseKeyValueFile(content: string) returns (result: Env)
    ensures result == Parse(content)
  {
    result := map[];
    var pos := 0;
    assert content[0..] == content;
    while pos < |content|
      invariant pos <= |content|
      invariant Parse(content) == Finish(Read(Reader(result, Idle), Lines(content[pos..])))
    {
      var raw, next := GetLine(content, pos);
      ReadFirst(Reader(result, Idle), raw, Lines(content[next..]));
      var line := TrimLine(raw);
      pos := next;
      if line == "" {
        continue;
      }
      var shift := FindShift(line);
      if shift < |line| {
        var key, value := line[..shift], "";
        pos, value := ReadHeredoc(content, pos, result, key, line[shift + 2..]);
        result := Put(result, key, value);
      } else {
        var eq := Find(line, '=');
        if eq < |line| {
          result := Put(result, line[..eq], line[eq + 1..]);
        }
      }
    }
  }

  /** The inner loop, up to the delimiter or the end of the file. */
  method ReadHeredoc(content: string, start: nat, result: Env, key: string, delimiter: string) returns (pos: nat, value: string)
    requires start <= |content|
    ensures start <= pos <= |content|
    ensures Finish(Read(Reader(result, Heredoc(key, delimiter, "", true)), Lines(content[start..]))) ==
            Finish(Read(Reader(Put(result, key, value), Idle), Lines(content[pos..])))
  {
    pos, value := start, "";
    var first := true;
    while pos < |content|
      invariant start <= pos <= |content|
      invariant Read(Reader(result, Heredoc(key, delimiter, "", true)), Lines(content[start..])) ==
                Read(Reader(result, Heredoc(key, delimiter, value, first)), Lines(content[pos..]))
      invariant first ==> value == ""
    {
      var raw, next := GetLine(content, pos);
      ReadFirst(Reader(result, Heredoc(key, delimiter, value, first)), raw, Lines(content[next..]));
      var line := TrimLine(raw);
      pos := next;
      if line == delimiter {
        return;
      }
      value := if first then line else value + "\n" + line;
      first := false;
    }
  }

  lemma ReadFirst(r: Reader, line: string, rest: seq<string>)
    ensures Read(r, [line] + rest) == Read(Step(r, line), rest)
  {
    assert ([line] + rest)[1..] == rest;
  }

  // ---------------------------------------------------------------- appending

  lemma Parts(s: string, n: nat, t: string)
    requires n <= |s|
    ensures s[..n] + (s[n..] + t) == s + t
  {
  }

  lemma {:induction false} ReadConcat(r: Reader, a: seq<string>, b: seq<string>)
    ensures Read(r, a + b) == Read(Read(r, a), b)
    decreases |a|
  {
    if a == [] {
      assert a + b == b;
    } else {
      assert (a + b)[1..] == a[1..] + b;
      ReadConcat(Step(r, a[0]), a[1..], b);
    }
  }

  predicate WholeLines(s: string) {
    s == "" || s[|s| - 1] == '\n'
  }

  lemma FindFront(s: string, t: string, c: char)
    requires Find(s, c) < |s|
    ensures Find(s + t, c) == Find(s, c)
  {
    var n := Find(s, c);
    assert forall i :: 0 <= i < |s| ==> At(s + t, c, i) == At(s, c, i);
    FindIs(s + t, c, n);
  }

  lemma {:induction false} LinesConcat(s: string, t: string)
    requires WholeLines(s)
    ensures Lines(s + t) == Lines(s) + Lines(t)
    decreases |s|
  {
    if s == "" {
      assert s + t == t;
    } else {
      var n := Find(s, '\n');
      assert At(s, '\n', |s| - 1);
      FindFront(s, t, '\n');
      LinesConcat(s[n + 1..], t);
      SplitLine(s, n);
      SplitLine(s + t, n);
      Slices(s, t, n);
    }
  }

  lemma SplitLine(s: string, n: nat)
    requires n == Find(s, '\n') < |s|
    ensures Lines(s) == [s[..n]] + Lines(s[n + 1..])
  {
  }

  lemma Slices(s: string, t: string, n: nat)
    requires n < |s|
    ensures (s + t)[..n] == s[..n] && (s + t)[n + 1..] == s[n + 1..] + t
  {
  }

  lemma ParseConcat(s: string, t: string)
    requires WholeLines(s)
    ensures Parse(s + t) == Finish(Read(Read(Start, Lines(s)), Lines(t)))
  {
    LinesConcat(s, t);
    ReadConcat(Start, Lines(s), Lines(t));
  }

  // ---------------------------------------------------------------- keys are never lost

  /** The keys the reader has, or will have when the heredoc it is in ends. */
  function Held(r: Reader): set<string> {
    Finish(r).Keys
  }

  lemma StepHolds(r: Reader, line: string)
    ensures Held(r) <= Held(Step(r, line))
  {
  }

  lemma {:induction false} ReadHolds(r: Reader, lines: seq<string>)
    ensures Held(r) <= Held(Read(r, lines))
    decreases |lines|
  {
    if lines != [] {
      StepHolds(r, lines[0]);
      ReadHolds(Step(r, lines[0]), lines[1..]);
    }
  }

  /** How much of the content is whole lines. */
  function Whole(content: string): (n: nat)
    ensures n <= |content| && WholeLines(content[..n])
    ensures Lacks(content[n..], '\n')
    decreases |content|
  {
    if content == "" then 0
    else if content[|content| - 1] == '\n' then
      assert content[..|content|] == content && content[|content|..] == "";
      |content|
    else
      var n := Whole(content[..|content| - 1]);
      assert content[..|content| - 1][..n] == content[..n];
      LacksMore(content[..|content| - 1][n..], content[|content| - 1]);
      assert content[n..] == content[..|content| - 1][n..] + [content[|content| - 1]];
      n
  }

  lemma LacksMore(s: string, c: char)
    requires Lacks(s, '\n') && c != '\n'
    ensures Lacks(s + [c], '\n')
  {
    assert forall i :: 0 <= i < |s| ==> At(s + [c], '\n', i) == At(s, '\n', i);
    FindIs(s + [c], '\n', |s| + 1);
  }

  /** The line is KEY=VALUE with a key; the key. */
  predicate IsSimple(line: string) {
    FindShift(line) == |line| && 0 < Find(line, '=') < |line|
  }

  /**
   * The file ends inside a KEY=VALUE line that gives its key for the first
   * time: what is appended may still turn that line into something else.
   */
  predicate Fragile(content: string) {
    var n := Whole(content);
    var r, line := Read(Start, Lines(content[..n])), Trim(content[n..]);
    r.mode.Idle? && IsSimple(line) && line[..Find(line, '=')] !in r.result
  }

  lemma LastLine(content: string)
    ensures var n := Whole(content);
            Parse(content) == Finish(if content[n..] == "" then Read(Start, Lines(content[..n])) else Step(Read(Start, Lines(content[..n])), content[n..]))
  {
    var n := Whole(content);
    var r, tail := Read(Start, Lines(content[..n])), content[n..];
    assert content == content[..n] + tail;
    ParseConcat(content[..n], tail);
    if tail != "" {
      assert Lines(tail) == [tail] + [];
      ReadFirst(r, tail, []);
    }
  }

  /** What an appended text makes of the unfinished line. */
  lemma LongerLine(body: string, tail: string, more: string) returns (extra: string)
    requires WholeLines(body) && Lacks(tail, '\n') && more != ""
    ensures Held(Step(Read(Start, Lines(body)), tail + extra)) <= Parse(body + (tail + more)).Keys
  {
    var r, lines := Read(Start, Lines(body)), Lines(tail + more);
    ParseConcat(body, tail + more);
    FirstLine(tail, more);
    extra := lines[0][|tail|..];
    assert lines[0] == tail + extra;
    assert lines == [lines[0]] + lines[1..];
    ReadFirst(r, lines[0], lines[1..]);
    ReadHolds(Step(r, lines[0]), lines[1..]);
  }

  lemma FirstLine(tail: string, more: string)
    requires Lacks(tail, '\n') && more != ""
    ensures var lines := Lines(tail + more); |lines| > 0 && |tail| <= |lines[0]| <= |tail| + |more| && lines[0][..|tail|] == tail
  {
    var s := tail + more;
    assert forall i :: 0 <= i < |tail| ==> At(s, '\n', i) == At(tail, '\n', i);
    assert Find(s, '\n') >= |tail|;
  }

  lemma ShiftStays(line: string, extra: string)
    requires FindShift(line) < |line|
    ensures FindShift(line + extra) == FindShift(line)
  {
    assert forall i :: 0 <= i < |line| - 1 ==> ShiftAt(line + extra, i) == ShiftAt(line, i);
    FindShiftIs(line + extra, FindShift(line));
  }

  lemma TrimLonger(line: string, extra: string)
    ensures |Trim(line)| <= |Trim(line + extra)| && Trim(line + extra)[..|Trim(line)|] == Trim(line)
  {
    if extra == "" {
      assert line + extra == line;
    }
  }

  /** Making a line longer loses no key, unless the line is a new simple record. */
  lemma LongerLineHolds(r: Reader, line: string, extra: string)
    requires !(r.mode.Idle? && IsSimple(Trim(line)) && Trim(line)[..Find(Trim(line), '=')] !in r.result)
    ensures Held(Step(r, line)) <= Held(Step(r, line + extra))
  {
    StepHolds(r, line + extra);
    if r.mode.Idle? {
      var short, long := Trim(line), Trim(line + extra);
      TrimLonger(line, extra);
      if FindShift(short) < |short| {
        assert long == short + long[|short|..];
        ShiftStays(short, long[|short|..]);
        assert long[..FindShift(short)] == short[..FindShift(short)];
      }
    }
  }

  lemma NotFragileKeeps(content: string, more: string)
    requires !Fragile(content)
    ensures Parse(content).Keys <= Parse(content + more).Keys
  {
    var n := Whole(content);
    var r, tail := Read(Start, Lines(content[..n])), content[n..];
    LastLine(content);
    if more == "" {
      Plain(content);
    } else {
      var extra := LongerLine(content[..n], tail, more);
      Parts(content, n, more);
      if tail == "" {
        StepHolds(r, tail + extra);
      } else {
        LongerLineHolds(r, tail, extra);
      }
    }
  }

  lemma FragileLoses(content: string)
    requires Fragile(content)
    ensures !(Parse(content).Keys <= Parse(content + "<<\n").Keys)
  {
    var n := Whole(content);
    var r, tail := Read(Start, Lines(content[..n])), content[n..];
    LastLine(content);
    SpoiltFile(content[..n], tail);
    Parts(content, n, "<<\n");
    SpoiltLine(r, tail);
    SimpleLine(r, tail);
  }

  lemma SimpleLine(r: Reader, tail: string)
    requires r.mode.Idle? && IsSimple(Trim(tail))
    ensures Trim(tail)[..Find(Trim(tail), '=')] in Held(Step(r, tail))
  {
  }

  lemma SpoiltFile(body: string, tail: string)
    requires WholeLines(body) && Lacks(tail, '\n')
    ensures Parse(body + (tail + "<<\n")) == Finish(Step(Read(Start, Lines(body)), tail + "<<"))
  {
    ParseConcat(body, tail + "<<\n");
    SpoiltLines(tail);
    ReadFirst(Read(Start, Lines(body)), tail + "<<", []);
  }

  lemma SpoiltLines(tail: string)
    requires Lacks(tail, '\n')
    ensures Lines(tail + "<<\n") == [tail + "<<"] + []
  {
    var line := tail + "<<";
    assert forall i :: 0 <= i < |tail| ==> At(line, '\n', i) == At(tail, '\n', i);
    FindIs(line, '\n', |line|);
    LineOf(line);
    assert tail + "<<\n" == line + "\n";
  }

  lemma LineOf(line: string)
    requires Lacks(line, '\n')
    ensures Lines(line + "\n") == [line] + []
  {
    var s, n := line + "\n", |line|;
    assert forall i :: 0 <= i < n ==> At(s, '\n', i) == At(line, '\n', i);
    FindIs(s, '\n', n);
    SplitLine(s, n);
    assert s[..n] == line && s[n + 1..] == "";
  }

  /** With "<<" after it the line opens a heredoc whose key has the line's equals sign in it. */
  lemma SpoiltLine(r: Reader, tail: string)
    requires r.mode.Idle? && IsSimple(Trim(tail)) && Trim(tail)[..Find(Trim(tail), '=')] !in r.result
    ensures Trim(tail)[..Find(Trim(tail), '=')] !in Held(Step(r, tail + "<<"))
  {
    var line, long := Trim(tail), tail + "<<";
    var eq, shift := Find(line, '='), FindShift(long);
    assert Trim(long) == long;
    assert ShiftAt(long, |tail|);
    assert shift <= |tail|;
    forall i | 0 <= i <= eq ensures !ShiftAt(long, i) {
      assert i + 1 < |line| ==> ShiftAt(long, i) == ShiftAt(line, i);
      assert At(line, '=', eq);
    }
    assert long[..shift][eq] == '=' && eq < shift;
  }

  /** Appending can lose no key exactly when the file is not fragile; so never when it ends with a newline. */
  lemma AppendingIsSafeIff(content: string)
    ensures (forall more: string :: Parse(content).Keys <= Parse(content + more).Keys) <==> !Fragile(content)
    ensures WholeLines(content) ==> !Fragile(content)
  {
    if Fragile(content) {
      FragileLoses(content);
    } else {
      forall more: string ensures Parse(content).Keys <= Parse(content + more).Keys {
        NotFragileKeeps(content, more);
      }
    }
    if WholeLines(content) {
      WholeIsAll(content);
    }
  }

  lemma WholeIsAll(content: string)
    requires WholeLines(content)
    ensures Whole(content) == |content|
  {
  }

  // ---------------------------------------------------------------- accumulation

  /** No step but the last leaves the file fragile. */
  predicate NeverFragile(content: string, texts: seq<string>)
    decreases |texts|
  {
    |texts| <= 1 || (!Fragile(content + texts[0]) && NeverFragile(content + texts[0], texts[1..]))
  }

  /** Reading after every step is reading once at the end. */
  lemma {:induction false} AccumulationIsOneParse(overrides: Env, content: string, texts: seq<string>)
    requires texts != [] && NeverFragile(content, texts)
    ensures Accumulate(Parse, overrides, content, texts) == overrides + Parse(content + Concat(texts))
    decreases |texts|
  {
    var next := content + texts[0];
    AccumulateFirst(Parse, overrides, content, texts);
    if |texts| == 1 {
      Plain(next);
    } else {
      var last := next + Concat(texts[1..]);
      AccumulationIsOneParse(overrides + Parse(next), next, texts[1..]);
      NotFragileKeeps(next, Concat(texts[1..]));
      OverlaidTwice(overrides, Parse(next), Parse(last));
    }
  }

  lemma {:induction false} WholeTextsAreNeverFragile(content: string, texts: seq<string>)
    requires WholeLines(content) && forall i :: 0 <= i < |texts| ==> WholeLines(texts[i])
    ensures NeverFragile(content, texts)
    decreases |texts|
  {
    if |texts| > 1 {
      var next := content + texts[0];
      assert WholeLines(next);
      AppendingIsSafeIff(next);
      WholeTextsAreNeverFragile(next, texts[1..]);
    }
  }

  /** Steps that append whole lines, even ones that leave a heredoc open, add up to one parse of the file. */
  lemma WholeLinesAccumulate(texts: seq<string>)
    requires forall i :: 0 <= i < |texts| ==> WholeLines(texts[i])
    ensures Accumulate(Parse, map[], "", texts) == Parse(Concat(texts))
  {
    if texts != [] {
      var none: Env, empty: string := map[], "";
      WholeTextsAreNeverFragile(empty, texts);
      AccumulationIsOneParse(none, empty, texts);
      Plain(Concat(texts));
    }
  }

  lemma SafeIff(content: string)
    ensures Safe(Parse, content) <==> !Fragile(content)
  {
    AppendingIsSafeIff(content);
  }

  /** For a run of steps and whatever comes next: re-reading adds up to one reading, over any overrides and
      for all next texts, if and only if the steps do not leave the file inside a new simple record and no
      reading so far had a key that the file now lacks. */
  lemma AccumulatesIff(content: string, texts: seq<string>)
    requires texts != []
    ensures (forall overrides: Env, more: string ::
               Accumulate(Parse, overrides, content, texts + [more]) == overrides + Parse(content + Concat(texts) + more))
       <==> !Fragile(content + Concat(texts)) && NoneLost(Parse, content, texts, Parse(content + Concat(texts)))
  {
    SafeIff(content + Concat(texts));
    ContinuesIff(Parse, content, texts);
  }
}
