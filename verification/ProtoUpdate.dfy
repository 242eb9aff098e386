/**
 What the server finds in an UpdateTask message (src/client/RunnerClient.cpp): a reader that takes
 every field by its number in the protocol, independent of the client's own decoders, gives back the
 task's result and times, the state of the steps and the outputs.
 */
module ProtoUpdate {
  import opened Sequences
  import opened ProtoCodec
  import opened ProtoTask

  // ----- the reader --------------------------------------------------------------------------------

  function Everything(num: nat, wireType: nat): Mode {
    match wireType
    case 0 => AsVarint
    case 2 => AsBytes
    case _ => Skipped
  }

  /** The fields of a message; none if it is malformed. */
  function Read(b: Bytes): seq<Field> {
    match Fields(Everything, b)
    case Ok(fs) => fs
    case Throw => []
  }

  /** The fields with one number, in order. */
  function Having(num: nat, fs: seq<Field>): seq<Field> {
    if fs == [] then [] else (if fs[0].num == num then [fs[0]] else []) + Having(num, fs[1..])
  }

  /** The last number or bytes in a list of fields, or the default. */
  function NumberOf(fs: seq<Field>): int {
    if fs != [] && fs[|fs| - 1].Number? then Signed64(fs[|fs| - 1].value) else 0
  }

  function BytesOf(fs: seq<Field>): Bytes {
    if fs != [] && fs[|fs| - 1].Data? then fs[|fs| - 1].bytes else []
  }

  /** A timestamp is a message of its own, its seconds field 1. */
  function SecondsOf(fs: seq<Field>): int { NumberOf(Having(1, Read(BytesOf(fs)))) }

  datatype Step = Step(id: int, result: int, startedAt: int, stoppedAt: int, logIndex: int, logLength: int)

  datatype Update = Update(id: int, result: int, startedAt: int, stoppedAt: int, steps: seq<Step>, outputs: Pairs)

  function ReadStep(b: Bytes): Step {
    var fs := Read(b);
    Step(NumberOf(Having(1, fs)), NumberOf(Having(2, fs)), SecondsOf(Having(3, fs)), SecondsOf(Having(4, fs)),
         NumberOf(Having(5, fs)), NumberOf(Having(6, fs)))
  }

  function ReadSteps(fs: seq<Field>): seq<Step> {
    if fs == [] then [] else [ReadStep(BytesOf([fs[0]]))] + ReadSteps(fs[1..])
  }

  function ReadPair(b: Bytes): (Bytes, Bytes) {
    var fs := Read(b);
    (BytesOf(Having(1, fs)), BytesOf(Having(2, fs)))
  }

  function ReadPairs(fs: seq<Field>): Pairs {
    if fs == [] then [] else [ReadPair(BytesOf([fs[0]]))] + ReadPairs(fs[1..])
  }

  function ReadState(b: Bytes, outputs: Pairs): Update {
    var fs := Read(b);
    Update(NumberOf(Having(1, fs)), NumberOf(Having(2, fs)), SecondsOf(Having(3, fs)), SecondsOf(Having(4, fs)),
           ReadSteps(Having(5, fs)), outputs)
  }

  function ReadUpdate(b: Bytes): Update {
    var fs := Read(b);
    ReadState(BytesOf(Having(1, fs)), ReadPairs(Having(2, fs)))
  }

  // ----- messages in pieces, one for each field number -----------------------------------------------

  function Join(pieces: seq<seq<Field>>): seq<Field> {
    if pieces == [] then [] else pieces[0] + Join(pieces[1..])
  }

  predicate Numbered(num: nat, fs: seq<Field>) { forall i :: 0 <= i < |fs| ==> fs[i].num == num }

  /** The i-th piece holds the fields numbered first + i. */
  predicate Placed(first: nat, pieces: seq<seq<Field>>) {
    forall i :: 0 <= i < |pieces| ==> Numbered(first + i, pieces[i])
  }

  lemma {:induction false} HavingBoth(num: nat, fs: seq<Field>, gs: seq<Field>)
    ensures Having(num, fs + gs) == Having(num, fs) + Having(num, gs)
  {
    if fs == [] {
      assert fs + gs == gs;
    } else {
      FirstOfConcat(fs, gs);
      HavingBoth(num, fs[1..], gs);
      Regroup(if fs[0].num == num then [fs[0]] else [], Having(num, fs[1..]), Having(num, gs));
    }
  }

  lemma {:induction false} HavingPiece(num: nat, other: nat, fs: seq<Field>)
    requires Numbered(other, fs)
    ensures Having(num, fs) == if num == other then fs else []
  {
    if fs != [] {
      HavingPiece(num, other, fs[1..]);
      assert fs == [fs[0]] + fs[1..];
    }
  }

  lemma PlacedRest(first: nat, pieces: seq<seq<Field>>)
    requires pieces != [] && Placed(first, pieces)
    ensures Numbered(first, pieces[0]) && Placed(first + 1, pieces[1..])
  {
    assert Numbered(first + 0, pieces[0]);
    forall i | 0 <= i < |pieces[1..]| ensures Numbered(first + 1 + i, pieces[1..][i]) {
      assert Numbered(first + (i + 1), pieces[i + 1]);
    }
  }

  lemma HavingFirst(num: nat, first: nat, pieces: seq<seq<Field>>)
    requires pieces != [] && Placed(first, pieces)
    ensures Having(num, Join(pieces)) == (if num == first then pieces[0] else []) + Having(num, Join(pieces[1..]))
    ensures Placed(first + 1, pieces[1..])
  {
    PlacedRest(first, pieces);
    HavingBoth(num, pieces[0], Join(pieces[1..]));
    HavingPiece(num, first, pieces[0]);
  }

  lemma {:induction false} HavingNone(num: nat, first: nat, pieces: seq<seq<Field>>)
    requires Placed(first, pieces) && num < first
    ensures Having(num, Join(pieces)) == []
    decreases |pieces|
  {
    if pieces != [] {
      HavingFirst(num, first, pieces);
      HavingNone(num, first + 1, pieces[1..]);
    }
  }

  /** Reading by number gives the piece of that number. */
  lemma {:induction false} HavingPlaced(num: nat, first: nat, pieces: seq<seq<Field>>)
    requires Placed(first, pieces) && first <= num < first + |pieces|
    ensures Having(num, Join(pieces)) == pieces[num - first]
    decreases |pieces|
  {
    HavingFirst(num, first, pieces);
    var rest := pieces[1..];
    if num == first {
      HavingNone(num, first + 1, rest);
      assert pieces[0] + [] == pieces[0];
    } else {
      HavingPlaced(num, first + 1, rest);
      assert [] + rest[num - (first + 1)] == pieces[num - first];
    }
  }

  /** The pieces together are encoded as e. */
  predicate Encodes(pieces: seq<seq<Field>>, e: Bytes) { EncodeFields(Join(pieces)) == e }

  lemma EncodesMore(piece: seq<Field>, e: Bytes, pieces: seq<seq<Field>>, rest: Bytes)
    requires EncodeFields(piece) == e && Encodes(pieces, rest)
    ensures Encodes([piece] + pieces, e + rest)
  {
    assert ([piece] + pieces)[1..] == pieces;
    EncodeBoth(piece, Join(pieces));
  }

  lemma EncodesLast(piece: seq<Field>, e: Bytes)
    requires EncodeFields(piece) == e
    ensures Encodes([piece], e)
  {
    assert [piece][1..] == [] && piece + [] == piece;
  }

  // ----- the fields of the encoder -------------------------------------------------------------------

  predicate Plain(fs: seq<Field>) { TakesAll(Everything, fs) }

  lemma ReadBack(fs: seq<Field>)
    requires Plain(fs) && Short(fs)
    ensures Fields(Everything, EncodeFields(fs)) == Ok(fs) && Read(EncodeFields(fs)) == fs
  {
    FieldsRead(Everything, fs);
  }

  lemma OneEncoded(f: Field)
    ensures EncodeFields([f]) == EncodeField(f.num, PayloadOf(f))
  {
    assert [f][1..] == [];
    assert EncodeFields([]) == [];
  }

  lemma NumberPiece(num: nat, x: Int64)
    requires num < MAX_FIELD
    ensures Piece(num, IfPresent(num, x), Int64Field(num, x))
    ensures NumberOf(IfPresent(num, x)) == x
  {
    UnsignedFits(x);
    if x != 0 {
      OneEncoded(Number(num, Unsigned64(x)));
    }
  }

  function TimeField(num: nat, seconds: Int64): seq<Field> {
    if seconds == 0 then [] else [Data(num, Timestamp(seconds))]
  }

  lemma TimestampShort(seconds: Int64)
    ensures |Timestamp(seconds)| < TWO64
  {
    if seconds != 0 {
      UnsignedFits(seconds);
      VarintFits(8 * 1 + 0);
      VarintFits(Unsigned64(seconds));
    }
  }

  lemma TimestampReads(seconds: Int64)
    ensures Read(Timestamp(seconds)) == IfPresent(1, seconds)
    ensures NumberOf(Having(1, Read(Timestamp(seconds)))) == seconds
  {
    NumberPiece(1, seconds);
    TimestampShort(seconds);
    ReadBack(IfPresent(1, seconds));
    HavingPiece(1, 1, IfPresent(1, seconds));
  }

  lemma TimePiece(num: nat, seconds: Int64)
    requires num < MAX_FIELD
    ensures Piece(num, TimeField(num, seconds), MessageField(num, Timestamp(seconds)))
    ensures SecondsOf(TimeField(num, seconds)) == seconds
  {
    TimestampReads(seconds);
    TimestampReads(0);
    if seconds != 0 {
      OneEncoded(Data(num, Timestamp(seconds)));
    }
  }

  lemma PlainBoth(fs: seq<Field>, gs: seq<Field>)
    requires Plain(fs) && Plain(gs)
    ensures Plain(fs + gs)
  {
    TakesBoth(Everything, fs, gs);
  }

  predicate PlainPieces(pieces: seq<seq<Field>>) { forall i :: 0 <= i < |pieces| ==> Plain(pieces[i]) }

  lemma {:induction false} PlainJoin(pieces: seq<seq<Field>>)
    requires PlainPieces(pieces)
    ensures Plain(Join(pieces))
  {
    if pieces != [] {
      PlainJoin(pieces[1..]);
      PlainBoth(pieces[0], Join(pieces[1..]));
    }
  }

  /** A piece numbered num that is encoded as e. */
  predicate Piece(num: nat, piece: seq<Field>, e: Bytes) {
    Plain(piece) && Numbered(num, piece) && EncodeFields(piece) == e
  }

  /** Pieces numbered from first on that are together encoded as e. */
  predicate Built(first: nat, pieces: seq<seq<Field>>, e: Bytes) {
    Placed(first, pieces) && PlainPieces(pieces) && Encodes(pieces, e)
  }

  lemma BuildLast(num: nat, piece: seq<Field>, e: Bytes)
    requires Piece(num, piece, e)
    ensures Built(num, [piece], e)
  {
    EncodesLast(piece, e);
    assert Numbered(num + 0, piece);
  }

  lemma BuildMore(num: nat, piece: seq<Field>, e: Bytes, pieces: seq<seq<Field>>, rest: Bytes)
    requires Piece(num, piece, e) && Built(num + 1, pieces, rest)
    ensures Built(num, [piece] + pieces, e + rest)
  {
    EncodesMore(piece, e, pieces, rest);
    var all := [piece] + pieces;
    forall i | 0 <= i < |all| ensures Numbered(num + i, all[i]) && Plain(all[i]) {
      if i > 0 {
        assert all[i] == pieces[i - 1];
        assert Numbered(num + 1 + (i - 1), pieces[i - 1]);
      }
    }
  }

  lemma {:induction false} PieceShort(pieces: seq<seq<Field>>, i: nat)
    requires i < |pieces| && Short(Join(pieces))
    ensures Short(pieces[i])
  {
    ShortParts(pieces[0], Join(pieces[1..]));
    if i > 0 {
      PieceShort(pieces[1..], i - 1);
    }
  }

  /** A message is read, and by number as its pieces. */
  lemma BuiltReads(pieces: seq<seq<Field>>, e: Bytes)
    requires Built(1, pieces, e) && |e| < TWO64
    ensures Fields(Everything, e) == Ok(Join(pieces)) && Read(e) == Join(pieces)
    ensures forall num | 1 <= num <= |pieces| :: Having(num, Read(e)) == pieces[num - 1]
    ensures forall i | 0 <= i < |pieces| :: Short(pieces[i])
  {
    PlainJoin(pieces);
    ReadBack(Join(pieces));
    forall num | 1 <= num <= |pieces| ensures Having(num, Read(e)) == pieces[num - 1] {
      HavingPlaced(num, 1, pieces);
    }
    forall i | 0 <= i < |pieces| ensures Short(pieces[i]) {
      PieceShort(pieces, i);
    }
  }

  // ----- steps ---------------------------------------------------------------------------------------

  function StepPieces(s: StepState): seq<seq<Field>> {
    [IfPresent(1, s.id), IfPresent(2, s.result), TimeField(3, s.startedAt), TimeField(4, s.stoppedAt),
     IfPresent(5, s.logIndex), IfPresent(6, s.logLength)]
  }

  function AsRead(s: StepState): Step {
    Step(s.id, s.result, s.startedAt, s.stoppedAt, s.logIndex, s.logLength)
  }

  lemma StepTail(s: StepState)
    ensures Built(4, [TimeField(4, s.stoppedAt), IfPresent(5, s.logIndex), IfPresent(6, s.logLength)],
                  MessageField(4, Timestamp(s.stoppedAt)) + (Int64Field(5, s.logIndex) + Int64Field(6, s.logLength)))
  {
    var f4, f5, f6 := TimeField(4, s.stoppedAt), IfPresent(5, s.logIndex), IfPresent(6, s.logLength);
    NumberPiece(6, s.logLength);
    BuildLast(6, f6, Int64Field(6, s.logLength));
    NumberPiece(5, s.logIndex);
    BuildMore(5, f5, Int64Field(5, s.logIndex), [f6], Int64Field(6, s.logLength));
    TimePiece(4, s.stoppedAt);
    BuildMore(4, f4, MessageField(4, Timestamp(s.stoppedAt)), [f5] + [f6], Int64Field(5, s.logIndex) + Int64Field(6, s.logLength));
    assert [f4] + ([f5] + [f6]) == [f4, f5, f6];
  }

  /** The first three members of a step and of a task state are alike. */
  lemma BuildHead(id: Int64, result: Int32, startedAt: Int64, pieces: seq<seq<Field>>, rest: Bytes)
    requires Built(4, pieces, rest)
    ensures Built(1, [IfPresent(1, id), IfPresent(2, result), TimeField(3, startedAt)] + pieces,
                  Int64Field(1, id) + (Int64Field(2, result) + (MessageField(3, Timestamp(startedAt)) + rest)))
  {
    var f1, f2, f3 := IfPresent(1, id), IfPresent(2, result), TimeField(3, startedAt);
    TimePiece(3, startedAt);
    var e3 := MessageField(3, Timestamp(startedAt)) + rest;
    BuildMore(3, f3, MessageField(3, Timestamp(startedAt)), pieces, rest);
    NumberPiece(2, result);
    BuildMore(2, f2, Int64Field(2, result), [f3] + pieces, e3);
    NumberPiece(1, id);
    BuildMore(1, f1, Int64Field(1, id), [f2] + ([f3] + pieces), Int64Field(2, result) + e3);
    assert [f1] + ([f2] + ([f3] + pieces)) == [f1, f2, f3] + pieces;
  }

  lemma StepBuilt(s: StepState)
    ensures Built(1, StepPieces(s), EncodeStep(s))
  {
    var tail := [TimeField(4, s.stoppedAt), IfPresent(5, s.logIndex), IfPresent(6, s.logLength)];
    StepTail(s);
    BuildHead(s.id, s.result, s.startedAt, tail,
              MessageField(4, Timestamp(s.stoppedAt)) + (Int64Field(5, s.logIndex) + Int64Field(6, s.logLength)));
    assert [IfPresent(1, s.id), IfPresent(2, s.result), TimeField(3, s.startedAt)] + tail == StepPieces(s);
  }

  /** All six members of a step are read back from its message. */
  lemma StepReads(s: StepState)
    requires |EncodeStep(s)| < TWO64
    ensures ReadStep(EncodeStep(s)) == AsRead(s)
  {
    StepBuilt(s);
    BuiltReads(StepPieces(s), EncodeStep(s));
    NumberPiece(1, s.id);
    NumberPiece(2, s.result);
    TimePiece(3, s.startedAt);
    TimePiece(4, s.stoppedAt);
    NumberPiece(5, s.logIndex);
    NumberPiece(6, s.logLength);
  }

  const BLANK := StepState(0, 0, 0, 0, 0, 0)

  /** A step of which everything is a default has an empty message. */
  lemma BlankIsEmpty(s: StepState)
    ensures EncodeStep(s) == [] <==> s == BLANK
  {
    if EncodeStep(s) == [] {
      StepReads(s);
      assert Read([]) == [];
      assert ReadStep([]) == Step(0, 0, 0, 0, 0, 0);
    }
  }

  /** The steps the server finds: those that are not blank. */
  function Shown(steps: seq<StepState>): seq<Step> {
    if steps == [] then [] else (if steps[0] == BLANK then [] else [AsRead(steps[0])]) + Shown(steps[1..])
  }

  function StepFields(steps: seq<StepState>): seq<Field> {
    if steps == [] then []
    else (if steps[0] == BLANK then [] else [Data(5, EncodeStep(steps[0]))]) + StepFields(steps[1..])
  }

  lemma {:induction false} StepsPiece(steps: seq<StepState>)
    ensures Piece(5, StepFields(steps), EncodeSteps(steps))
  {
    if steps != [] {
      StepsPiece(steps[1..]);
      BlankIsEmpty(steps[0]);
      var first: seq<Field> := if steps[0] == BLANK then [] else [Data(5, EncodeStep(steps[0]))];
      OneEncoded(Data(5, EncodeStep(steps[0])));
      EncodeBoth(first, StepFields(steps[1..]));
    }
  }

  lemma {:induction false} StepsRead(steps: seq<StepState>)
    requires Short(StepFields(steps))
    ensures ReadSteps(StepFields(steps)) == Shown(steps)
  {
    if steps != [] {
      var f, fs := Data(5, EncodeStep(steps[0])), StepFields(steps[1..]);
      if steps[0] == BLANK {
        assert [] + fs == fs && [] + Shown(steps[1..]) == Shown(steps[1..]);
        StepsRead(steps[1..]);
      } else {
        ShortFirst(f, fs);
        StepsRead(steps[1..]);
        StepReads(steps[0]);
        assert ([f] + fs)[1..] == fs;
      }
    }
  }

  // ----- outputs -------------------------------------------------------------------------------------

  /** A map entry is read by number as its key and its value. */
  lemma OutputReads(pair: (Bytes, Bytes))
    requires |EncodePair(pair)| < TWO64
    ensures ReadPair(EncodePair(pair)) == pair
  {
    var f, g := Data(1, pair.0), Data(2, pair.1);
    var pieces := [[f], [g]];
    assert Join(pieces) == [f, g] by {
      assert pieces[1..] == [[g]] && [[g]][1..] == [];
      assert Join([[g]]) == [g] + [];
    }
    assert Numbered(1 + 0, pieces[0]) && Numbered(1 + 1, pieces[1]);
    ReadBack([f, g]);
    HavingPlaced(1, 1, pieces);
    HavingPlaced(2, 1, pieces);
  }

  lemma {:induction false} OutputsPiece(outputs: Pairs)
    ensures Piece(2, PairFields(2, outputs), EncodeOutputs(outputs))
  {
    if outputs != [] {
      OutputsPiece(outputs[1..]);
      PairEncoded(outputs[0]);
      EncodeFirst(Data(2, EncodePair(outputs[0])), PairFields(2, outputs[1..]));
    }
  }

  lemma PairEncoded(pair: (Bytes, Bytes))
    ensures EncodePair(pair) == EncodeField(1, PData(pair.0)) + EncodeField(2, PData(pair.1))
    ensures EncodePair(pair) != []
  {
    OneEncoded(Data(2, pair.1));
    EncodeFirst(Data(1, pair.0), [Data(2, pair.1)]);
    assert [Data(1, pair.0), Data(2, pair.1)] == [Data(1, pair.0)] + [Data(2, pair.1)];
  }

  lemma {:induction false} OutputsRead(outputs: Pairs)
    requires Short(PairFields(2, outputs))
    ensures ReadPairs(PairFields(2, outputs)) == outputs
  {
    if outputs != [] {
      var f, fs := Data(2, EncodePair(outputs[0])), PairFields(2, outputs[1..]);
      ShortFirst(f, fs);
      OutputsRead(outputs[1..]);
      OutputReads(outputs[0]);
      ReadFirst(f, fs);
      assert outputs == [outputs[0]] + outputs[1..];
    }
  }

  lemma ReadFirst(f: Field, fs: seq<Field>)
    requires f.Data?
    ensures ReadPairs([f] + fs) == [ReadPair(f.bytes)] + ReadPairs(fs)
  {
    assert ([f] + fs)[1..] == fs;
  }

  // ----- the whole message ---------------------------------------------------------------------------

  function StatePieces(id: Int64, state: Int32, steps: seq<StepState>, startedAt: Int64, stoppedAt: Int64): seq<seq<Field>> {
    [IfPresent(1, id), IfPresent(2, state), TimeField(3, startedAt), TimeField(4, stoppedAt), StepFields(steps)]
  }

  lemma StateBuilt(id: Int64, state: Int32, steps: seq<StepState>, startedAt: Int64, stoppedAt: Int64)
    ensures Built(1, StatePieces(id, state, steps, startedAt, stoppedAt), EncodeState(id, state, steps, startedAt, stoppedAt))
  {
    var tail := [TimeField(4, stoppedAt), StepFields(steps)];
    StateTail(steps, stoppedAt);
    BuildHead(id, state, startedAt, tail, MessageField(4, Timestamp(stoppedAt)) + EncodeSteps(steps));
    assert [IfPresent(1, id), IfPresent(2, state), TimeField(3, startedAt)] + tail
           == StatePieces(id, state, steps, startedAt, stoppedAt);
  }

  lemma StateTail(steps: seq<StepState>, stoppedAt: Int64)
    ensures Built(4, [TimeField(4, stoppedAt), StepFields(steps)], MessageField(4, Timestamp(stoppedAt)) + EncodeSteps(steps))
  {
    var f4, f5 := TimeField(4, stoppedAt), StepFields(steps);
    StepsPiece(steps);
    BuildLast(5, f5, EncodeSteps(steps));
    TimePiece(4, stoppedAt);
    BuildMore(4, f4, MessageField(4, Timestamp(stoppedAt)), [f5], EncodeSteps(steps));
    assert [f4] + [f5] == [f4, f5];
  }

  lemma StateReads(id: Int64, state: Int32, steps: seq<StepState>, startedAt: Int64, stoppedAt: Int64, outputs: Pairs)
    requires |EncodeState(id, state, steps, startedAt, stoppedAt)| < TWO64
    ensures ReadState(EncodeState(id, state, steps, startedAt, stoppedAt), outputs)
            == Update(id, state, startedAt, stoppedAt, Shown(steps), outputs)
  {
    var pieces := StatePieces(id, state, steps, startedAt, stoppedAt);
    StateBuilt(id, state, steps, startedAt, stoppedAt);
    BuiltReads(pieces, EncodeState(id, state, steps, startedAt, stoppedAt));
    NumberPiece(1, id);
    NumberPiece(2, state);
    TimePiece(3, startedAt);
    TimePiece(4, stoppedAt);
    assert Short(pieces[4]);
    StepsRead(steps);
  }

  /** The state is left out when its message is empty. */
  function StateField(b: Bytes): seq<Field> { if b == [] then [] else [Data(1, b)] }

  lemma StatePiece(b: Bytes)
    ensures Piece(1, StateField(b), MessageField(1, b)) && BytesOf(StateField(b)) == b
  {
    if b != [] {
      OneEncoded(Data(1, b));
    }
  }

  lemma OuterReads(b: Bytes, outputs: Pairs)
    requires |MessageField(1, b) + EncodeOutputs(outputs)| < TWO64
    ensures Fields(Everything, MessageField(1, b) + EncodeOutputs(outputs)).Ok?
    ensures var fs := Read(MessageField(1, b) + EncodeOutputs(outputs));
            BytesOf(Having(1, fs)) == b && ReadPairs(Having(2, fs)) == outputs
  {
    var pieces := [StateField(b), PairFields(2, outputs)];
    StatePiece(b);
    OutputsPiece(outputs);
    BuildLast(2, PairFields(2, outputs), EncodeOutputs(outputs));
    BuildMore(1, StateField(b), MessageField(1, b), [PairFields(2, outputs)], EncodeOutputs(outputs));
    assert pieces == [StateField(b)] + [PairFields(2, outputs)];
    BuiltReads(pieces, MessageField(1, b) + EncodeOutputs(outputs));
    assert Short(pieces[1]);
    OutputsRead(outputs);
  }

  /**
   The server finds the task, its result, both its times, every step that is not all defaults with its
   six members and every output pair, as they were given and in order.
   */
  lemma UpdateIsRead(id: Int64, state: Int32, steps: seq<StepState>, startedAt: Int64, stoppedAt: Int64, outputs: Pairs)
    requires |EncodeUpdateTask(id, state, steps, startedAt, stoppedAt, outputs)| < TWO64
    ensures Fields(Everything, EncodeUpdateTask(id, state, steps, startedAt, stoppedAt, outputs)).Ok?
    ensures ReadUpdate(EncodeUpdateTask(id, state, steps, startedAt, stoppedAt, outputs))
            == Update(id, state, startedAt, stoppedAt, Shown(steps), outputs)
  {
    var inner := EncodeState(id, state, steps, startedAt, stoppedAt);
    OuterReads(inner, outputs);
    InnerIsShorter(inner, EncodeOutputs(outputs));
    StateReads(id, state, steps, startedAt, stoppedAt, outputs);
  }

  /** The client's own decoder names the four results. */
  lemma ResultNames(id: Int64, state: Int32, steps: seq<StepState>, startedAt: Int64, stoppedAt: Int64, outputs: Pairs)
    requires |EncodeUpdateTask(id, state, steps, startedAt, stoppedAt, outputs)| < TWO64
    ensures DecodeUpdateTask(EncodeUpdateTask(id, state, steps, startedAt, stoppedAt, outputs)) == Ok(UpdateResult(id,
            if state == 0 then "" else if 1 <= state <= 4 then ["success", "failure", "cancelled", "skipped"][state - 1] else "unknown"))
  {
    UpdateRoundTrip(id, state, steps, startedAt, stoppedAt, outputs);
    NameOf(state);
  }

  lemma NameOf(state: int)
    ensures StateName(state) == if 1 <= state <= 4 then ["success", "failure", "cancelled", "skipped"][state - 1] else "unknown"
  {
  }
}
