/**
 A task as the server writes it, and the round trip through the task decoder of the runner client
 (src/client/RunnerClient.cpp).

 The encoder knows the field numbers of the protocol and how one field is written, and nothing of the
 decoder.  It may leave defaults out, as protobuf encoders do, or write them.
 */
module ProtoTask {
  import opened Sequences
  import opened ProtoCodec

  // ----- a message of fields -----------------------------------------------------------------------

  function PayloadOf(f: Field): Payload {
    match f
    case Number(_, v) => PVarint(v)
    case Data(_, b) => PData(b)
  }

  function EncodeFields(fs: seq<Field>): Bytes {
    if fs == [] then [] else EncodeField(fs[0].num, PayloadOf(fs[0])) + EncodeFields(fs[1..])
  }

  /** On the wire: number 150 in field 1 is 08 96 01, the bytes "hi" in field 2 are 12 02 68 69. */
  lemma OnTheWire()
    ensures EncodeField(1, PVarint(150)) == [0x08, 0x96, 0x01]
    ensures EncodeField(2, PData([0x68, 0x69])) == [0x12, 0x02, 0x68, 0x69]
  {
    assert Varint(1) == [1];
    assert Varint(150) == [0x96] + Varint(1);
  }

  predicate Takes(k: Schema, f: Field) {
    match f
    case Number(n, v) => n < MAX_FIELD && v < TWO64 && k(n, 0) == AsVarint
    case Data(n, b) => n < MAX_FIELD && k(n, 2) == AsBytes
  }

  predicate TakesAll(k: Schema, fs: seq<Field>) {
    forall i :: 0 <= i < |fs| ==> Takes(k, fs[i])
  }

  predicate Short(fs: seq<Field>) { |EncodeFields(fs)| < TWO64 }

  lemma FirstIsShorter(fs: seq<Field>)
    requires fs != []
    ensures |EncodeFields(fs)| >= |EncodeFields(fs[1..])|
    ensures fs[0].Data? ==> |EncodeFields(fs)| > |fs[0].bytes|
  {
  }

  /** A message of fields that a decoder takes is read as these fields. */
  lemma {:induction false} FieldsRead(k: Schema, fs: seq<Field>)
    requires TakesAll(k, fs) && Short(fs)
    ensures Fields(k, EncodeFields(fs)) == Ok(fs)
  {
    if fs != [] {
      assert Takes(k, fs[0]);
      FirstIsShorter(fs);
      FieldsRead(k, fs[1..]);
      TakenField(k, fs[0].num, PayloadOf(fs[0]), EncodeFields(fs[1..]));
      assert [fs[0]] + fs[1..] == fs;
    }
  }

  lemma {:induction false} EncodeBoth(fs: seq<Field>, gs: seq<Field>)
    ensures EncodeFields(fs + gs) == EncodeFields(fs) + EncodeFields(gs)
  {
    if fs == [] {
      assert fs + gs == gs && [] + EncodeFields(gs) == EncodeFields(gs);
    } else {
      var f, rest := fs[0], fs[1..];
      assert fs == [f] + rest;
      EncodeBoth(rest, gs);
      EncodeMore(f, rest, gs);
    }
  }

  lemma EncodeMore(f: Field, fs: seq<Field>, gs: seq<Field>)
    requires EncodeFields(fs + gs) == EncodeFields(fs) + EncodeFields(gs)
    ensures EncodeFields(([f] + fs) + gs) == EncodeFields([f] + fs) + EncodeFields(gs)
  {
    Regroup([f], fs, gs);
    EncodeFirst(f, fs + gs);
    EncodeFirst(f, fs);
    Regroup(EncodeField(f.num, PayloadOf(f)), EncodeFields(fs), EncodeFields(gs));
  }

  lemma EncodeFirst(f: Field, fs: seq<Field>)
    ensures EncodeFields([f] + fs) == EncodeField(f.num, PayloadOf(f)) + EncodeFields(fs)
  {
    assert ([f] + fs)[1..] == fs;
  }

  lemma ShortParts(fs: seq<Field>, gs: seq<Field>)
    requires Short(fs + gs)
    ensures Short(fs) && Short(gs)
  {
    EncodeBoth(fs, gs);
  }

  lemma OneField(f: Field)
    ensures f.Data? && Short([f]) ==> |f.bytes| < TWO64
  {
    FirstIsShorter([f]);
  }

  lemma TwoFields(k: Schema, f: Field, g: Field)
    requires Takes(k, f) && Takes(k, g) && Short([f, g])
    ensures Fields(k, EncodeFields([f, g])) == Ok([f, g])
    ensures f.Data? ==> |f.bytes| < TWO64
    ensures g.Data? ==> |g.bytes| < TWO64
  {
    FieldsRead(k, [f, g]);
    assert [f, g] == [f] + [g];
    ShortParts([f], [g]);
    OneField(f);
    OneField(g);
  }

  // ----- the encoder -------------------------------------------------------------------------------

  /** A map entry: the key is field 1, the value field 2. */
  function EncodePair(pair: (Bytes, Bytes)): Bytes { EncodeFields([Data(1, pair.0), Data(2, pair.1)]) }

  /** A list of map entries, each a message in field num. */
  function PairFields(num: nat, pairs: Pairs): seq<Field> {
    if pairs == [] then [] else [Data(num, EncodePair(pairs[0]))] + PairFields(num, pairs[1..])
  }

  /** A value of a Struct that is a string: field 3. */
  function EncodeText(text: Bytes): Bytes { EncodeFields([Data(3, text)]) }

  function EncodeStructEntry(pair: (Bytes, Bytes)): Bytes { EncodeFields([Data(1, pair.0), Data(2, EncodeText(pair.1))]) }

  function StructFields(pairs: Pairs): seq<Field> {
    if pairs == [] then [] else [Data(1, EncodeStructEntry(pairs[0]))] + StructFields(pairs[1..])
  }

  function NumberField(terse: bool, num: nat, x: Int64): seq<Field> {
    if terse && x == 0 then [] else [Number(num, Unsigned64(x))]
  }

  function DataField(terse: bool, num: nat, bytes: Bytes): seq<Field> {
    if terse && bytes == [] then [] else [Data(num, bytes)]
  }

  predicate NeedInRange(need: Need) { -TWO31 <= need.result < TWO31 }

  /** The outputs of a needed job are field 1, its result field 2. */
  function NeedFields(terse: bool, need: Need): seq<Field>
    requires NeedInRange(need)
  {
    PairFields(1, need.outputs) + NumberField(terse, 2, need.result)
  }

  function EncodeNeedEntry(terse: bool, job: Bytes, need: Need): Bytes
    requires NeedInRange(need)
  {
    EncodeFields([Data(1, job), Data(2, EncodeFields(NeedFields(terse, need)))])
  }

  predicate NeedsInRange(needs: seq<(Bytes, Need)>) {
    forall i :: 0 <= i < |needs| ==> NeedInRange(needs[i].1)
  }

  function NeedEntryFields(terse: bool, needs: seq<(Bytes, Need)>): seq<Field>
    requires NeedsInRange(needs)
  {
    if needs == [] then []
    else [Data(6, EncodeNeedEntry(terse, needs[0].0, needs[0].1))] + NeedEntryFields(terse, needs[1..])
  }

  predicate InRange(t: Task) { -TWO63 <= t.id < TWO63 && NeedsInRange(t.needs) }

  function TaskFields(terse: bool, t: Task): seq<Field>
    requires InRange(t)
  {
    NumberField(terse, 1, t.id) + (DataField(terse, 2, t.payload)
    + (DataField(terse, 3, EncodeFields(StructFields(t.context))) + (PairFields(4, t.secrets)
    + (DataField(terse, 5, t.machine) + (NeedEntryFields(terse, t.needs) + PairFields(7, t.vars))))))
  }

  function EncodeTask(terse: bool, t: Task): Bytes
    requires InRange(t)
  {
    EncodeFields(TaskFields(terse, t))
  }

  // ----- what the decoder makes of it --------------------------------------------------------------

  /** The entries with a name: the decoder drops the others. */
  function Named<T>(entries: seq<(Bytes, T)>): seq<(Bytes, T)> {
    if entries == [] then []
    else (if entries[0].0 == [] then [] else [entries[0]]) + Named(entries[1..])
  }

  predicate AllNamed<T>(entries: seq<(Bytes, T)>) {
    forall i :: 0 <= i < |entries| ==> entries[i].0 != []
  }

  lemma {:induction false} NamedLength<T>(entries: seq<(Bytes, T)>)
    ensures |Named(entries)| <= |entries|
  {
    if entries != [] {
      NamedLength(entries[1..]);
    }
  }

  lemma {:induction false} NamedIff<T>(entries: seq<(Bytes, T)>)
    ensures Named(entries) == entries <==> AllNamed(entries)
  {
    if entries != [] {
      NamedIff(entries[1..]);
      NamedLength(entries[1..]);
      assert entries == [entries[0]] + entries[1..];
      if AllNamed(entries) {
        assert entries[0].0 != [] && AllNamed(entries[1..]);
      }
      if AllNamed(entries[1..]) && entries[0].0 != [] {
        assert forall i :: 0 < i < |entries| ==> entries[i] == entries[1..][i - 1];
      }
    }
  }

  /** A map entry is read as its key and its value. */
  lemma PairReads(pair: (Bytes, Bytes))
    requires |EncodePair(pair)| < TWO64
    ensures DecodeMapEntry(EncodePair(pair)) == Ok(pair)
  {
    var f, g := Data(1, pair.0), Data(2, pair.1);
    TwoFields(EntrySchema, f, g);
    FoldTwo(f, g);
  }

  lemma FoldTwo(f: Field, g: Field)
    requires f.Data? && f.num == 1 && g.Data? && g.num == 2
    ensures FoldEntry(([], []), [f, g]) == (f.bytes, g.bytes)
  {
    assert [f, g][1..] == [g] && [g][1..] == [];
    assert FoldEntry((f.bytes, g.bytes), []) == (f.bytes, g.bytes);
  }

  lemma TextReads(text: Bytes)
    requires |EncodeText(text)| < TWO64
    ensures Fields(ValueSchema, EncodeText(text)) == Ok([Data(3, text)])
  {
    FieldsRead(ValueSchema, [Data(3, text)]);
  }

  lemma FoldOneValue(before: Bytes, text: Bytes)
    ensures FoldValue(before, [Data(3, text)]) == text
  {
    assert [Data(3, text)][1..] == [];
    assert FoldValue(text, []) == text;
  }

  lemma StructEntryReads(pair: (Bytes, Bytes))
    requires |EncodeStructEntry(pair)| < TWO64
    ensures DecodeStructEntry(EncodeStructEntry(pair)) == Ok(Named([pair]))
  {
    var f, g := Data(1, pair.0), Data(2, EncodeText(pair.1));
    TwoFields(EntrySchema, f, g);
    TextReads(pair.1);
    FoldOneValue([], pair.1);
    FoldKeyAndValue(f, g, pair.1);
    NamedOne(pair);
  }

  lemma FoldKeyAndValue(f: Field, g: Field, text: Bytes)
    requires f.Data? && f.num == 1 && g.Data? && g.num == 2
    requires Fields(ValueSchema, g.bytes).Ok? && FoldValue([], Fields(ValueSchema, g.bytes).value) == text
    ensures FoldStructEntry([], [], [f, g]) == Ok(if f.bytes == [] then [] else [(f.bytes, text)])
  {
    assert [f, g][1..] == [g] && [g][1..] == [];
    assert FoldStructEntry([], [], [f, g]) == FoldStructEntry(f.bytes, [], [g]);
    assert FoldStructEntry(f.bytes, [], [g]) == FoldStructEntry(f.bytes, text, []);
  }

  lemma NamedOne<T>(entry: (Bytes, T))
    ensures Named([entry]) == if entry.0 == [] then [] else [entry]
  {
    assert [entry][1..] == [];
    assert Named<T>([]) == [];
  }

  lemma {:induction false} FoldStructFields(before: Pairs, pairs: Pairs)
    requires Short(StructFields(pairs))
    ensures FoldStruct(before, StructFields(pairs)) == Ok(before + Named(pairs))
    decreases |pairs|
  {
    if pairs == [] {
      assert before + Named(pairs) == before;
    } else {
      var f, fs := Data(1, EncodeStructEntry(pairs[0])), StructFields(pairs[1..]);
      ShortFirst(f, fs);
      StructEntryReads(pairs[0]);
      FoldStructFirst(before, f, fs);
      FoldStructFields(before + Named([pairs[0]]), pairs[1..]);
      NamedSplits(before, pairs);
    }
  }

  lemma ShortFirst(f: Field, fs: seq<Field>)
    requires Short([f] + fs)
    ensures Short(fs) && (f.Data? ==> |f.bytes| < TWO64)
  {
    ShortParts([f], fs);
    OneField(f);
  }

  lemma FoldStructFirst(before: Pairs, f: Field, fs: seq<Field>)
    requires f.Data? && DecodeStructEntry(f.bytes).Ok?
    ensures FoldStruct(before, [f] + fs) == FoldStruct(before + DecodeStructEntry(f.bytes).value, fs)
  {
    assert ([f] + fs)[1..] == fs;
  }

  lemma NamedSplits<T>(before: seq<(Bytes, T)>, entries: seq<(Bytes, T)>)
    requires entries != []
    ensures before + Named([entries[0]]) + Named(entries[1..]) == before + Named(entries)
  {
    NamedOne(entries[0]);
    assert Named(entries) == Named([entries[0]]) + Named(entries[1..]);
    Regroup(before, Named([entries[0]]), Named(entries[1..]));
  }

  lemma {:induction false} StructFieldsTaken(pairs: Pairs)
    ensures TakesAll(FirstMessageSchema, StructFields(pairs))
  {
    if pairs != [] {
      StructFieldsTaken(pairs[1..]);
    }
  }

  lemma StructReads(pairs: Pairs)
    requires Short(StructFields(pairs))
    ensures DecodeStruct(EncodeFields(StructFields(pairs))) == Ok(Named(pairs))
  {
    StructFieldsTaken(pairs);
    FieldsRead(FirstMessageSchema, StructFields(pairs));
    FoldStructFields([], pairs);
    assert [] + Named(pairs) == Named(pairs);
  }

  lemma {:induction false} PairFieldsTaken(k: Schema, num: nat, pairs: Pairs)
    requires num < MAX_FIELD && k(num, 2) == AsBytes
    ensures TakesAll(k, PairFields(num, pairs))
  {
    if pairs != [] {
      PairFieldsTaken(k, num, pairs[1..]);
    }
  }

  /** The outputs of a need, with the fields after them. */
  lemma {:induction false} FoldOutputs(need: Need, pairs: Pairs, rest: seq<Field>)
    requires Short(PairFields(1, pairs))
    ensures FoldNeed(need, PairFields(1, pairs) + rest) == FoldNeed(need.(outputs := need.outputs + pairs), rest)
    decreases |pairs|
  {
    if pairs == [] {
      assert PairFields(1, pairs) + rest == rest && need.outputs + pairs == need.outputs;
    } else {
      var f, fs := Data(1, EncodePair(pairs[0])), PairFields(1, pairs[1..]);
      ShortFirst(f, fs);
      PairReads(pairs[0]);
      Regroup([f], fs, rest);
      FoldNeedFirst(need, f, fs + rest);
      FoldOutputs(need.(outputs := need.outputs + [pairs[0]]), pairs[1..], rest);
      FirstOf(need.outputs, pairs);
    }
  }

  lemma FirstOf(before: Pairs, pairs: Pairs)
    requires pairs != []
    ensures before + [pairs[0]] + pairs[1..] == before + pairs
  {
  }

  lemma FoldNeedFirst(need: Need, f: Field, fs: seq<Field>)
    requires f.Data? && DecodeMapEntry(f.bytes).Ok?
    ensures FoldNeed(need, [f] + fs) == FoldNeed(need.(outputs := need.outputs + [DecodeMapEntry(f.bytes).value]), fs)
  {
    assert ([f] + fs)[1..] == fs;
  }

  lemma FoldResult(terse: bool, outputs: Pairs, result: Int32)
    ensures FoldNeed(Need(outputs, 0), NumberField(terse, 2, result)) == Ok(Need(outputs, result))
  {
    UnsignedFits(result);
    var fs := NumberField(terse, 2, result);
    if fs != [] {
      assert fs[1..] == [];
      assert FoldNeed(Need(outputs, result), []) == Ok(Need(outputs, result));
    }
  }

  lemma NumberTaken(k: Schema, terse: bool, num: nat, x: Int64)
    requires num < MAX_FIELD && k(num, 0) == AsVarint
    ensures TakesAll(k, NumberField(terse, num, x))
  {
    UnsignedFits(x);
  }

  /** The outputs and the result of a needed job are read back. */
  lemma NeedReads(terse: bool, need: Need)
    requires NeedInRange(need) && Short(NeedFields(terse, need))
    ensures Fields(NeedSchema, EncodeFields(NeedFields(terse, need))) == Ok(NeedFields(terse, need))
    ensures FoldNeed(Need([], 0), NeedFields(terse, need)) == Ok(need)
  {
    PairFieldsTaken(NeedSchema, 1, need.outputs);
    NumberTaken(NeedSchema, terse, 2, need.result);
    FieldsRead(NeedSchema, NeedFields(terse, need));
    ShortParts(PairFields(1, need.outputs), NumberField(terse, 2, need.result));
    FoldOutputs(Need([], 0), need.outputs, NumberField(terse, 2, need.result));
    assert [] + need.outputs == need.outputs;
    FoldResult(terse, need.outputs, need.result);
  }

  lemma NeedEntryReads(terse: bool, job: Bytes, need: Need)
    requires NeedInRange(need) && |EncodeNeedEntry(terse, job, need)| < TWO64
    ensures DecodeNeedEntry(EncodeNeedEntry(terse, job, need)) == Ok(Named([(job, need)]))
  {
    var f, g := Data(1, job), Data(2, EncodeFields(NeedFields(terse, need)));
    TwoFields(EntrySchema, f, g);
    NeedReads(terse, need);
    FoldJobAndNeed(f, g, need);
    NamedOne((job, need));
  }

  lemma FoldJobAndNeed(f: Field, g: Field, need: Need)
    requires f.Data? && f.num == 1 && g.Data? && g.num == 2
    requires Fields(NeedSchema, g.bytes).Ok? && FoldNeed(Need([], 0), Fields(NeedSchema, g.bytes).value) == Ok(need)
    ensures FoldNeedEntry([], Need([], 0), [f, g]) == Ok(if f.bytes == [] then [] else [(f.bytes, need)])
  {
    assert [f, g][1..] == [g] && [g][1..] == [];
    assert FoldNeedEntry([], Need([], 0), [f, g]) == FoldNeedEntry(f.bytes, Need([], 0), [g]);
    assert FoldNeedEntry(f.bytes, Need([], 0), [g]) == FoldNeedEntry(f.bytes, need, []);
  }

  // ----- the fields of the task --------------------------------------------------------------------

  lemma {:induction false} FoldBoth(t: Task, fs: seq<Field>, gs: seq<Field>)
    requires FoldTask(t, fs).Ok?
    ensures FoldTask(t, fs + gs) == FoldTask(FoldTask(t, fs).value, gs)
    decreases |fs|
  {
    if fs == [] {
      assert fs + gs == gs;
    } else {
      assert (fs + gs)[0] == fs[0] && (fs + gs)[1..] == fs[1..] + gs;
      FoldBoth(ApplyField(t, fs[0]).value, fs[1..], gs);
    }
  }

  lemma FoldFirst(t: Task, f: Field, fs: seq<Field>)
    requires ApplyField(t, f).Ok?
    ensures FoldTask(t, [f] + fs) == FoldTask(ApplyField(t, f).value, fs)
  {
    assert ([f] + fs)[1..] == fs;
  }

  lemma FoldOne(t: Task, f: Field)
    ensures FoldTask(t, [f]) == ApplyField(t, f)
  {
    assert [f][1..] == [];
    if ApplyField(t, f).Ok? {
      assert FoldTask(ApplyField(t, f).value, []) == ApplyField(t, f);
    }
  }

  lemma FoldId(t: Task, terse: bool, id: Int64)
    requires t.id == 0
    ensures FoldTask(t, NumberField(terse, 1, id)) == Ok(t.(id := id))
  {
    UnsignedFits(id);
    FoldOne(t, Number(1, Unsigned64(id)));
  }

  lemma FoldPayload(t: Task, terse: bool, bytes: Bytes)
    requires t.payload == []
    ensures FoldTask(t, DataField(terse, 2, bytes)) == Ok(t.(payload := bytes))
  {
    FoldOne(t, Data(2, bytes));
  }

  lemma FoldMachine(t: Task, terse: bool, bytes: Bytes)
    requires t.machine == []
    ensures FoldTask(t, DataField(terse, 5, bytes)) == Ok(t.(machine := bytes))
  {
    FoldOne(t, Data(5, bytes));
  }

  lemma NoStruct(pairs: Pairs)
    ensures EncodeFields(StructFields(pairs)) == [] <==> pairs == []
  {
  }

  lemma FoldContext(t: Task, terse: bool, pairs: Pairs)
    requires t.context == [] && Short(DataField(terse, 3, EncodeFields(StructFields(pairs))))
    ensures FoldTask(t, DataField(terse, 3, EncodeFields(StructFields(pairs)))) == Ok(t.(context := Named(pairs)))
  {
    var f := Data(3, EncodeFields(StructFields(pairs)));
    NoStruct(pairs);
    if !(terse && pairs == []) {
      OneField(f);
      StructReads(pairs);
      FoldOne(t, f);
      assert [] + Named(pairs) == Named(pairs);
    }
  }

  lemma {:induction false} FoldSecrets(t: Task, pairs: Pairs)
    requires Short(PairFields(4, pairs))
    ensures FoldTask(t, PairFields(4, pairs)) == Ok(t.(secrets := t.secrets + pairs))
    decreases |pairs|
  {
    if pairs == [] {
      assert t.secrets + pairs == t.secrets;
    } else {
      var f, fs := Data(4, EncodePair(pairs[0])), PairFields(4, pairs[1..]);
      ShortFirst(f, fs);
      PairReads(pairs[0]);
      FoldFirst(t, f, fs);
      FoldSecrets(t.(secrets := t.secrets + [pairs[0]]), pairs[1..]);
      FirstOf(t.secrets, pairs);
    }
  }

  lemma {:induction false} FoldVars(t: Task, pairs: Pairs)
    requires Short(PairFields(7, pairs))
    ensures FoldTask(t, PairFields(7, pairs)) == Ok(t.(vars := t.vars + pairs))
    decreases |pairs|
  {
    if pairs == [] {
      assert t.vars + pairs == t.vars;
    } else {
      var f, fs := Data(7, EncodePair(pairs[0])), PairFields(7, pairs[1..]);
      ShortFirst(f, fs);
      PairReads(pairs[0]);
      FoldFirst(t, f, fs);
      FoldVars(t.(vars := t.vars + [pairs[0]]), pairs[1..]);
      FirstOf(t.vars, pairs);
    }
  }

  lemma {:induction false} FoldNeeds(t: Task, terse: bool, needs: seq<(Bytes, Need)>)
    requires NeedsInRange(needs) && Short(NeedEntryFields(terse, needs))
    ensures FoldTask(t, NeedEntryFields(terse, needs)) == Ok(t.(needs := t.needs + Named(needs)))
    decreases |needs|
  {
    if needs == [] {
      assert t.needs + Named(needs) == t.needs;
    } else {
      var f, fs := Data(6, EncodeNeedEntry(terse, needs[0].0, needs[0].1)), NeedEntryFields(terse, needs[1..]);
      ShortFirst(f, fs);
      ApplyNeed(t, terse, needs[0].0, needs[0].1);
      FoldFirst(t, f, fs);
      FoldNeeds(t.(needs := t.needs + Named([needs[0]])), terse, needs[1..]);
      NamedSplits(t.needs, needs);
    }
  }

  lemma ApplyNeed(t: Task, terse: bool, job: Bytes, need: Need)
    requires NeedInRange(need) && |EncodeNeedEntry(terse, job, need)| < TWO64
    ensures ApplyField(t, Data(6, EncodeNeedEntry(terse, job, need))) == Ok(t.(needs := t.needs + Named([(job, need)])))
  {
    NeedEntryReads(terse, job, need);
  }

  lemma {:induction false} NeedEntriesTaken(terse: bool, needs: seq<(Bytes, Need)>)
    requires NeedsInRange(needs)
    ensures TakesAll(TaskSchema, NeedEntryFields(terse, needs))
  {
    if needs != [] {
      NeedEntriesTaken(terse, needs[1..]);
    }
  }

  lemma TakesBoth(k: Schema, fs: seq<Field>, gs: seq<Field>)
    requires TakesAll(k, fs) && TakesAll(k, gs)
    ensures TakesAll(k, fs + gs)
  {
  }

  lemma TaskFieldsTaken(terse: bool, t: Task)
    requires InRange(t)
    ensures TakesAll(TaskSchema, TaskFields(terse, t))
  {
    NumberTaken(TaskSchema, terse, 1, t.id);
    PairFieldsTaken(TaskSchema, 4, t.secrets);
    PairFieldsTaken(TaskSchema, 7, t.vars);
    NeedEntriesTaken(terse, t.needs);
    var f6 := NeedEntryFields(terse, t.needs) + PairFields(7, t.vars);
    TakesBoth(TaskSchema, NeedEntryFields(terse, t.needs), PairFields(7, t.vars));
    var f5 := DataField(terse, 5, t.machine) + f6;
    TakesBoth(TaskSchema, DataField(terse, 5, t.machine), f6);
    var f4 := PairFields(4, t.secrets) + f5;
    TakesBoth(TaskSchema, PairFields(4, t.secrets), f5);
    var context := DataField(terse, 3, EncodeFields(StructFields(t.context)));
    TakesBoth(TaskSchema, context, f4);
    TakesBoth(TaskSchema, DataField(terse, 2, t.payload), context + f4);
    TakesBoth(TaskSchema, NumberField(terse, 1, t.id), DataField(terse, 2, t.payload) + (context + f4));
  }

  /** The tail of the fields: secrets, machine, needs and variables. */
  lemma FoldTail(t: Task, terse: bool, secrets: Pairs, machine: Bytes, needs: seq<(Bytes, Need)>, vars: Pairs)
    requires t.secrets == [] && t.machine == [] && t.needs == [] && t.vars == [] && NeedsInRange(needs)
    requires Short(PairFields(4, secrets) + (DataField(terse, 5, machine) + (NeedEntryFields(terse, needs) + PairFields(7, vars))))
    ensures FoldTask(t, PairFields(4, secrets) + (DataField(terse, 5, machine) + (NeedEntryFields(terse, needs) + PairFields(7, vars))))
            == Ok(t.(secrets := secrets, machine := machine, needs := Named(needs), vars := vars))
  {
    var f7, f6, f5, f4 := PairFields(7, vars), NeedEntryFields(terse, needs), DataField(terse, 5, machine), PairFields(4, secrets);
    ShortParts(f4, f5 + (f6 + f7));
    ShortParts(f5, f6 + f7);
    ShortParts(f6, f7);
    FoldSecrets(t, secrets);
    assert [] + secrets == secrets && [] + vars == vars && [] + Named(needs) == Named(needs);
    var t4 := t.(secrets := secrets);
    FoldBoth(t, f4, f5 + (f6 + f7));
    FoldMachine(t4, terse, machine);
    var t5 := t4.(machine := machine);
    FoldBoth(t4, f5, f6 + f7);
    FoldNeeds(t5, terse, needs);
    var t6 := t5.(needs := Named(needs));
    FoldBoth(t5, f6, f7);
    FoldVars(t6, vars);
  }

  lemma FoldTaskFields(terse: bool, t: Task)
    requires InRange(t) && Short(TaskFields(terse, t))
    ensures FoldTask(EMPTY_TASK, TaskFields(terse, t)) == Ok(t.(context := Named(t.context), needs := Named(t.needs)))
  {
    var f1, f2, f3 := NumberField(terse, 1, t.id), DataField(terse, 2, t.payload), DataField(terse, 3, EncodeFields(StructFields(t.context)));
    var tail := PairFields(4, t.secrets) + (DataField(terse, 5, t.machine) + (NeedEntryFields(terse, t.needs) + PairFields(7, t.vars)));
    ShortParts(f1, f2 + (f3 + tail));
    ShortParts(f2, f3 + tail);
    ShortParts(f3, tail);
    FoldId(EMPTY_TASK, terse, t.id);
    var t1 := EMPTY_TASK.(id := t.id);
    FoldBoth(EMPTY_TASK, f1, f2 + (f3 + tail));
    FoldPayload(t1, terse, t.payload);
    var t2 := t1.(payload := t.payload);
    FoldBoth(t1, f2, f3 + tail);
    FoldContext(t2, terse, t.context);
    var t3 := t2.(context := Named(t.context));
    FoldBoth(t2, f3, tail);
    FoldTail(t3, terse, t.secrets, t.machine, t.needs, t.vars);
  }

  /**
   The task round trip: decoding gives back id, payload, secrets, machine and variables as they were
   written, and of the context and the needs exactly the entries that have a name, in order.
   */
  lemma TaskRoundTrip(terse: bool, t: Task)
    requires InRange(t) && |EncodeTask(terse, t)| < TWO64
    ensures DecodeTask(EncodeTask(terse, t)) == Ok(t.(context := Named(t.context), needs := Named(t.needs)))
  {
    TaskFieldsTaken(terse, t);
    FieldsRead(TaskSchema, TaskFields(terse, t));
    FoldTaskFields(terse, t);
  }

  /** So the whole task comes back exactly when no context key and no needed job has an empty name. */
  lemma TaskRoundTripIff(terse: bool, t: Task)
    requires InRange(t) && |EncodeTask(terse, t)| < TWO64
    ensures DecodeTask(EncodeTask(terse, t)) == Ok(t) <==> AllNamed(t.context) && AllNamed(t.needs)
  {
    TaskRoundTrip(terse, t);
    NamedIff(t.context);
    NamedIff(t.needs);
  }
}
