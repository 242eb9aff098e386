/**
 * What the readers of the protocol files make of the rest of what a file may hold
 * (src/process/EnvManager.cpp): the lines of $GITHUB_PATH read back, whatever
 * their line ends, and the parts of $GITHUB_ENV and $GITHUB_OUTPUT that are
 * no record of a key.
 */
module EnvLaws {

  import opened Sequences
  import opened Accumulation
  import opened EnvFile
  import opened EnvProtocol

  // ---------------------------------------------------------------- the path file

  datatype PathLine = PathLine(text: string, crlf: bool)

  predicate Readable(lines: seq<PathLine>) {
    forall i :: 0 <= i < |lines| ==> Clean(lines[i].text, lines[i].crlf)
  }

  /** A line as it is written, and what is to be read of it. */
  function Written(line: PathLine): string { line.text + if line.crlf then "\r\n" else "\n" }

  function Kept(text: string): seq<string> { if text == "" then [] else [text] }

  function PathFile(lines: seq<PathLine>): string {
    if lines == [] then "" else Written(lines[0]) + PathFile(lines[1..])
  }

  /** The texts that are not empty, in order. */
  function Filled(lines: seq<PathLine>): seq<string> {
    if lines == [] then [] else Kept(lines[0].text) + Filled(lines[1..])
  }

  lemma PathLineReads(line: PathLine, rest: string)
    requires Clean(line.text, line.crlf)
    ensures PathLines(Written(line) + rest) == Kept(line.text) + PathLines(rest)
  {
    var ended := Ended(line.text, line.crlf);
    EndedLacks(line.text, line.crlf);
    HeadLine(ended, rest);
    assert Written(line) + rest == ended + "\n" + rest;
    NonEmptyFirst([ended] + Lines(rest));
    assert ([ended] + Lines(rest))[1..] == Lines(rest);
  }

  lemma LastLineReads(tail: string)
    requires Clean(tail, false)
    ensures PathLines(tail) == Kept(tail)
  {
    EndedLacks(tail, false);
    if tail != "" {
      assert Lines(tail) == [tail];
      NonEmptyFirst([tail]);
      assert [tail][1..] == [] && NonEmpty([]) == [];
    }
  }

  /** Lines written with either line end, and a last one that may lack its own, are read back as the non-empty
      ones in order. */
  lemma {:induction false} PathRoundTrip(lines: seq<PathLine>, tail: string)
    requires Readable(lines) && Clean(tail, false)
    ensures PathLines(PathFile(lines) + tail) == Filled(lines) + Kept(tail)
  {
    if lines == [] {
      assert PathFile(lines) + tail == tail;
      LastLineReads(tail);
    } else {
      var line, rest := lines[0], lines[1..];
      PathRoundTrip(rest, tail);
      PathLineReads(line, PathFile(rest) + tail);
      Regroup(Written(line), PathFile(rest), tail);
      Regroup(Kept(line.text), Filled(rest), Kept(tail));
    }
  }

  // ---------------------------------------------------------------- what is no record

  /** A line that holds no "<<" and either no "=" or one in front. */
  predicate Noise(line: string) {
    && (forall i :: 0 <= i < |line| - 1 ==> !(line[i] == '<' && line[i + 1] == '<'))
    && ((forall i :: 0 <= i < |line| ==> line[i] != '=') || line[0] == '=')
  }

  /** A block without a key, from its opening line to its delimiter. */
  function Nameless(delimiter: string, lines: seq<string>): seq<string> {
    RecordLines(Block("", delimiter, lines, false))
  }

  /** The lines leave no trace: noise, or a nameless block. */
  ghost predicate NoRecord(lines: seq<string>) {
    || (|lines| == 1 && Noise(lines[0]))
    || exists delimiter, body :: delimiter !in body && lines == Nameless(delimiter, body)
  }

  lemma NoiseReads(result: Env, line: string)
    requires Noise(line)
    ensures ReadTrimmed(Reader(result, Idle), [line]) == Reader(result, Idle)
  {
    FindShiftIs(line, |line|);
    if line != "" && line[0] == '=' {
      assert At(line, '=', 0);
      FindIs(line, '=', 0);
    } else {
      FindIs(line, '=', |line|);
    }
    ReadOne(Reader(result, Idle), line);
  }

  lemma NamelessReads(result: Env, delimiter: string, body: seq<string>)
    requires delimiter !in body
    ensures ReadTrimmed(Reader(result, Idle), Nameless(delimiter, body)) == Reader(result, Idle)
  {
    var r := Block("", delimiter, body, false);
    var start, head := Reader(result, Idle), "" + "<<" + delimiter;
    assert ShiftAt(head, 0);
    FindShiftIs(head, 0);
    assert head[..0] == "" && head[2..] == delimiter;
    ReadOne(start, head);
    ReadTrimmedConcat(start, [head], body);
    BodyReads(result, r, [], body);
    ReadTrimmedConcat(start, [head] + body, [delimiter]);
    ReadOne(Reader(result, Heredoc("", delimiter, Join(body), body == [])), delimiter);
  }

  lemma NoRecordReads(result: Env, lines: seq<string>)
    requires NoRecord(lines)
    ensures ReadTrimmed(Reader(result, Idle), lines) == Reader(result, Idle)
  {
    if |lines| == 1 && Noise(lines[0]) {
      NoiseReads(result, lines[0]);
      assert lines == [lines[0]];
    } else {
      var delimiter, body :| delimiter !in body && lines == Nameless(delimiter, body);
      NamelessReads(result, delimiter, body);
    }
  }

  lemma {:induction false} FileIsWhole(records: seq<Record>)
    ensures WholeLines(File(records))
  {
    if records != [] {
      FileIsWhole(records[1..]);
      TextIsWhole(RecordLines(records[0]), records[0].crlf);
      var head, rest := Text(RecordLines(records[0]), records[0].crlf), File(records[1..]);
      assert rest != "" ==> (head + rest)[|head + rest| - 1] == rest[|rest| - 1];
    }
  }

  lemma AfterRecords(records: seq<Record>, rest: string)
    requires forall i | 0 <= i < |records| :: WellFormed(records[i])
    ensures Parse(File(records) + rest) == Finish(Read(Reader(LastWins(map[], records), Idle), Lines(rest)))
  {
    FileIsWhole(records);
    ParseConcat(File(records), rest);
    FileReads(map[], records);
  }

  lemma AfterText(r: Reader, lines: seq<string>, crlf: bool, rest: string)
    requires AllClean(lines, crlf)
    ensures Read(r, Lines(Text(lines, crlf) + rest)) == Read(ReadTrimmed(r, lines), Lines(rest))
  {
    TextIsWhole(lines, crlf);
    LinesConcat(Text(lines, crlf), rest);
    ReadConcat(r, Lines(Text(lines, crlf)), Lines(rest));
    TextReads(r, lines, crlf);
  }

  /** After any records, and before anything at all, blank lines, lines with neither form, lines with an empty
      key and blocks without a key change nothing. */
  lemma NoRecordIsIgnored(records: seq<Record>, lines: seq<string>, crlf: bool, rest: string)
    requires forall i | 0 <= i < |records| :: WellFormed(records[i])
    requires NoRecord(lines) && AllClean(lines, crlf)
    ensures Parse(File(records) + (Text(lines, crlf) + rest)) == Parse(File(records) + rest)
  {
    var result := LastWins(map[], records);
    AfterRecords(records, Text(lines, crlf) + rest);
    AfterText(Reader(result, Idle), lines, crlf, rest);
    NoRecordReads(result, lines);
    AfterRecords(records, rest);
  }
}
