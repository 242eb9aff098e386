/**
 What the decoders of the runner client make of messages that are not as an encoder writes them
 (src/client/RunnerClient.cpp): cut short, overlong, of an unknown or unexpected wire type, or with a
 field given more than once.
 */
module ProtoErrors {
  import opened Sequences
  import opened ProtoCodec
  import opened ProtoTask

  function Tag(num: nat, wireType: nat): Bytes { Varint(8 * num + wireType) }

  lemma TagIs(num: nat, wireType: nat, rest: Bytes)
    requires num < MAX_FIELD && wireType < 8
    ensures Tag(num, wireType) + rest != []
    ensures var (tag, after) := ReadVarint(Tag(num, wireType) + rest);
            FieldNumber(tag) == num && tag % 8 == wireType && after == rest
  {
    VarintReads(8 * num + wireType, rest);
    TagSplits(num, wireType);
  }

  /** A field that is skipped is refused unless its wire type is 0, 1, 2 or 5. */
  lemma UnknownWireTypeThrows(k: Schema, num: nat, wireType: nat, rest: Bytes)
    requires num < MAX_FIELD && wireType in {3, 4, 6, 7} && k(num, wireType) == Skipped
    ensures Fields(k, Tag(num, wireType) + rest) == Throw
  {
    TagIs(num, wireType, rest);
  }

  lemma LengthReads(len: nat, rest: Bytes)
    requires len < TWO64
    ensures ReadString(Varint(len) + rest) == if len > |rest| then Throw else Ok((rest[..len], rest[len..]))
    ensures SkipField(2, Varint(len) + rest) == Ok(if len > |rest| then [] else rest[len..])
  {
    VarintReads(len, rest);
  }

  /** Data that is taken and longer than what is left is refused. */
  lemma OverrunThrows(k: Schema, num: nat, len: nat, rest: Bytes)
    requires num < MAX_FIELD && k(num, 2) == AsBytes && |rest| < len < TWO64
    ensures Fields(k, Tag(num, 2) + (Varint(len) + rest)) == Throw
  {
    TagIs(num, 2, Varint(len) + rest);
    LengthReads(len, rest);
  }

  /** Data that is skipped may be longer than what is left: the message ends there. */
  lemma SkippedOverrunEnds(k: Schema, num: nat, len: nat, rest: Bytes)
    requires num < MAX_FIELD && k(num, 2) == Skipped && |rest| <= len < TWO64
    ensures Fields(k, Tag(num, 2) + (Varint(len) + rest)) == Ok([])
  {
    TagIs(num, 2, Varint(len) + rest);
    LengthReads(len, rest);
    assert rest[|rest|..] == [];
    EndsAfter(k, Tag(num, 2) + (Varint(len) + rest), []);
  }

  lemma EndsAfter(k: Schema, s: Bytes, fs: seq<Field>)
    requires s != [] && ReadField(k, s) == Ok((fs, []))
    ensures Fields(k, s) == Ok(fs)
  {
    assert Fields(k, []) == Ok([]) && fs + [] == fs;
  }

  /** So may the eight or four bytes of a fixed field. */
  lemma SkippedFixedEnds(k: Schema, num: nat, rest: Bytes)
    requires num < MAX_FIELD
    ensures k(num, 1) == Skipped && |rest| <= 8 ==> Fields(k, Tag(num, 1) + rest) == Ok([])
    ensures k(num, 5) == Skipped && |rest| <= 4 ==> Fields(k, Tag(num, 5) + rest) == Ok([])
  {
    TagIs(num, 1, rest);
    TagIs(num, 5, rest);
    if k(num, 1) == Skipped && |rest| <= 8 {
      assert Drop(8, rest) == [];
      EndsAfter(k, Tag(num, 1) + rest, []);
    }
    if k(num, 5) == Skipped && |rest| <= 4 {
      assert Drop(4, rest) == [];
      EndsAfter(k, Tag(num, 5) + rest, []);
    }
  }

  /** A number whose bytes are missing is 0. */
  lemma MissingNumberIsZero(k: Schema, num: nat, wireType: nat)
    requires num < MAX_FIELD && wireType < 8 && k(num, wireType) == AsVarint
    ensures Fields(k, Tag(num, wireType)) == Ok([Number(num, 0)])
  {
    TagIs(num, wireType, []);
    assert Tag(num, wireType) + [] == Tag(num, wireType);
    EndsAfter(k, Tag(num, wireType), [Number(num, 0)]);
  }

  /** A refused field makes the whole task refused, whatever came before it. */
  lemma RefusedTask(a: Bytes, bad: Bytes)
    requires WellFormed(TaskSchema, a) && Fields(TaskSchema, bad) == Throw
    ensures DecodeTask(a + bad) == Throw
  {
    FieldsConcat(TaskSchema, a, bad);
  }

  // ----- unexpected wire types -----------------------------------------------------------------------

  /** The task decoder goes by the number alone: under any wire type field 1 is read as a number and
      fields 2 to 7 as length and data. */
  lemma TaskIgnoresWireType(num: nat, wireType: nat, v: nat, data: Bytes, rest: Bytes)
    requires 2 <= num <= 7 && wireType < 8 && v < TWO64 && |data| < TWO64
    ensures Fields(TaskSchema, Tag(1, wireType) + (Varint(v) + rest)) == Append(Ok([Number(1, v)]), Fields(TaskSchema, rest))
    ensures Fields(TaskSchema, Tag(num, wireType) + (Varint(|data|) + data + rest)) == Append(Ok([Data(num, data)]), Fields(TaskSchema, rest))
  {
    TagIs(1, wireType, Varint(v) + rest);
    VarintReads(v, rest);
    FieldsStep(TaskSchema, Tag(1, wireType) + (Varint(v) + rest), [Number(1, v)], rest);
    TagIs(num, wireType, Varint(|data|) + data + rest);
    DataReads(data, rest);
    FieldsStep(TaskSchema, Tag(num, wireType) + (Varint(|data|) + data + rest), [Data(num, data)], rest);
  }

  /** The decoders of its parts do not: there a field counts only under its own wire type. */
  lemma PartsHeedWireType(num: nat, x: Payload, s: Bytes)
    requires num < MAX_FIELD && ValidPayload(x) && !x.PData?
    ensures DecodeMapEntry(EncodeField(num, x) + s) == DecodeMapEntry(s)
    ensures DecodeStruct(EncodeField(num, x) + s) == DecodeStruct(s)
    ensures DecodeStructEntry(EncodeField(num, x) + s) == DecodeStructEntry(s)
    ensures DecodeNeedEntry(EncodeField(num, x) + s) == DecodeNeedEntry(s)
    ensures Fields(ValueSchema, EncodeField(num, x) + s) == Fields(ValueSchema, s)
    ensures num != 2 || !x.PVarint? ==> Fields(NeedSchema, EncodeField(num, x) + s) == Fields(NeedSchema, s)
  {
    SkippedField(EntrySchema, num, x, s);
    SkippedField(FirstMessageSchema, num, x, s);
    SkippedField(ValueSchema, num, x, s);
    if num != 2 || !x.PVarint? {
      SkippedField(NeedSchema, num, x, s);
    }
  }

  /** Nor do they take a data field of another number. */
  lemma PartsHeedNumber(num: nat, data: Bytes, s: Bytes)
    requires num < MAX_FIELD && |data| < TWO64
    ensures num != 1 && num != 2 ==> DecodeMapEntry(EncodeField(num, PData(data)) + s) == DecodeMapEntry(s)
    ensures num != 1 ==> DecodeStruct(EncodeField(num, PData(data)) + s) == DecodeStruct(s)
    ensures num != 3 ==> Fields(ValueSchema, EncodeField(num, PData(data)) + s) == Fields(ValueSchema, s)
    ensures num != 1 ==> Fields(NeedSchema, EncodeField(num, PData(data)) + s) == Fields(NeedSchema, s)
  {
    var x := PData(data);
    if num != 1 && num != 2 {
      SkippedField(EntrySchema, num, x, s);
    }
    if num != 1 {
      SkippedField(FirstMessageSchema, num, x, s);
      SkippedField(NeedSchema, num, x, s);
    }
    if num != 3 {
      SkippedField(ValueSchema, num, x, s);
    }
  }

  // ----- repeated fields -----------------------------------------------------------------------------

  lemma {:induction false} FoldEntryBoth(entry: (Bytes, Bytes), fs: seq<Field>, gs: seq<Field>)
    ensures FoldEntry(entry, fs + gs) == FoldEntry(FoldEntry(entry, fs), gs)
    decreases |fs|
  {
    if fs == [] {
      assert fs + gs == gs;
    } else {
      FirstOfConcat(fs, gs);
      if fs[0].Data? && fs[0].num == 1 {
        FoldEntryBoth((fs[0].bytes, entry.1), fs[1..], gs);
      } else if fs[0].Data? && fs[0].num == 2 {
        FoldEntryBoth((entry.0, fs[0].bytes), fs[1..], gs);
      } else {
        FoldEntryBoth(entry, fs[1..], gs);
      }
    }
  }

  lemma FoldPair(entry: (Bytes, Bytes), key: Bytes, value: Bytes)
    ensures FoldEntry(entry, [Data(1, key), Data(2, value)]) == (key, value)
    ensures FoldEntry(entry, [Data(2, value), Data(1, key)]) == (key, value)
  {
    var f, g := Data(1, key), Data(2, value);
    assert [f, g][1..] == [g] && [g][1..] == [] && [g, f][1..] == [f] && [f][1..] == [];
    assert FoldEntry((key, value), []) == (key, value);
    assert FoldEntry((key, entry.1), [g]) == (key, value);
    assert FoldEntry((entry.0, value), [f]) == (key, value);
  }

  /** In a map entry the order of key and value does not matter, and of several the last counts. */
  lemma LastOfEntryCounts(p: (Bytes, Bytes), key: Bytes, value: Bytes)
    requires Short([Data(1, p.0), Data(2, p.1)] + [Data(2, value), Data(1, key)])
    ensures DecodeMapEntry(EncodeFields([Data(1, p.0), Data(2, p.1)] + [Data(2, value), Data(1, key)])) == Ok((key, value))
  {
    var fs, gs := [Data(1, p.0), Data(2, p.1)], [Data(2, value), Data(1, key)];
    FieldsRead(EntrySchema, fs + gs);
    FoldEntryBoth(([], []), fs, gs);
    FoldPair(FoldEntry(([], []), fs), key, value);
  }

  lemma FoldNeedFrom(before: Need, need: Need)
    requires NeedInRange(need) && Short(NeedFields(false, need))
    ensures FoldNeed(before, NeedFields(false, need)) == Ok(Need(before.outputs + need.outputs, need.result))
  {
    var ps, rs := PairFields(1, need.outputs), NumberField(false, 2, need.result);
    ShortParts(ps, rs);
    FoldOutputs(before, need.outputs, rs);
    UnsignedFits(need.result);
    var after := before.(outputs := before.outputs + need.outputs);
    assert rs[1..] == [];
    assert FoldNeed(after.(result := need.result), []) == Ok(after.(result := need.result));
  }

  /** A need that comes in two pieces has the outputs of both and the result of the second. */
  lemma NeedInPieces(job: Bytes, a: Need, b: Need)
    requires job != [] && NeedInRange(a) && NeedInRange(b)
    requires Short([Data(1, job), Data(2, EncodeFields(NeedFields(false, a))), Data(2, EncodeFields(NeedFields(false, b)))])
    ensures DecodeNeedEntry(EncodeFields([Data(1, job), Data(2, EncodeFields(NeedFields(false, a))), Data(2, EncodeFields(NeedFields(false, b)))]))
            == Ok([(job, Need(a.outputs + b.outputs, b.result))])
  {
    var f, g, h := Data(1, job), Data(2, EncodeFields(NeedFields(false, a))), Data(2, EncodeFields(NeedFields(false, b)));
    FieldsRead(EntrySchema, [f, g, h]);
    assert [f, g, h] == [f] + ([g] + [h]);
    ShortFirst(f, [g] + [h]);
    ShortFirst(g, [h]);
    ShortFirst(h, []) by {
      assert [h] + [] == [h];
    }
    NeedReads(false, a);
    NeedReads(false, b);
    FoldNeedFrom(a, b);
    FoldPieces(f, g, h, a, Need(a.outputs + b.outputs, b.result));
  }

  lemma FoldPieces(f: Field, g: Field, h: Field, first: Need, both: Need)
    requires f.Data? && f.num == 1 && g.Data? && g.num == 2 && h.Data? && h.num == 2 && f.bytes != []
    requires Fields(NeedSchema, g.bytes).Ok? && FoldNeed(Need([], 0), Fields(NeedSchema, g.bytes).value) == Ok(first)
    requires Fields(NeedSchema, h.bytes).Ok? && FoldNeed(first, Fields(NeedSchema, h.bytes).value) == Ok(both)
    ensures FoldNeedEntry([], Need([], 0), [f, g, h]) == Ok([(f.bytes, both)])
  {
    assert [f, g, h][1..] == [g, h] && [g, h][1..] == [h] && [h][1..] == [];
    assert FoldNeedEntry([], Need([], 0), [f, g, h]) == FoldNeedEntry(f.bytes, Need([], 0), [g, h]);
    assert FoldNeedEntry(f.bytes, Need([], 0), [g, h]) == FoldNeedEntry(f.bytes, first, [h]);
    assert FoldNeedEntry(f.bytes, first, [h]) == FoldNeedEntry(f.bytes, both, []);
  }
}
