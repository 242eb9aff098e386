/**
 The hand-written protobuf codec of the runner client: varints, length-delimited fields, skipping of
 unknown fields, the decoder of a task and the UpdateTask messages.

 A decoder's pointer is the sequence of bytes it has not read yet.  64-bit values are naturals below
 2^64; shifts that leave the 64 bits drop what they shift out.
 */
module ProtoCodec {
  import opened Sequences

  type Byte = b: int | 0 <= b < 256
  type Bytes = seq<Byte>

  const TWO31 := 0x8000_0000
  const TWO32 := 0x1_0000_0000
  const TWO63 := 0x8000_0000_0000_0000
  const TWO64 := 0x1_0000_0000_0000_0000

  datatype Result<T> = Ok(value: T) | Throw

  // ----- varints ---------------------------------------------------------------------------------

  function Varint(v: nat): (r: Bytes)
    ensures |r| >= 1
  {
    if v > 127 then [v % 128 + 128] + Varint(v / 128) else [v]
  }

  /** The number a varint spells, before it is cut to 64 bits, and what follows it.  At the end of the
      input the digits read so far count. */
  function RawVarint(s: Bytes): (r: (nat, Bytes))
    ensures |r.1| <= |s| && (s != [] ==> |r.1| < |s|)
  {
    if s == [] then (0, [])
    else if s[0] < 128 then (s[0], s[1..])
    else var (v, rest) := RawVarint(s[1..]); (s[0] - 128 + 128 * v, rest)
  }

  function ReadVarint(s: Bytes): (r: (nat, Bytes))
    ensures |r.1| <= |s| && (s != [] ==> |r.1| < |s|) && r.0 < TWO64
  {
    var (v, rest) := RawVarint(s);
    (v % TWO64, rest)
  }

  method AppendVarint(buffer: Bytes, value: nat) returns (out: Bytes)
    ensures out == buffer + Varint(value)
  {
    out := buffer;
    var v := value;
    while v > 127
      invariant out + Varint(v) == buffer + Varint(value)
    {
      assert out + ([v % 128 + 128] + Varint(v / 128)) == (out + [v % 128 + 128]) + Varint(v / 128);
      out := out + [v % 128 + 128];
      v := v / 128;
    }
    out := out + [v];
  }

  /** The value of a varint of which the digits in raw are read and the next one weighs scale. */
  function Weighted(raw: int, scale: int, s: Bytes): (int, Bytes) {
    (raw + scale * RawVarint(s).0, RawVarint(s).1)
  }

  lemma WeightedStep(raw: int, scale: int, s: Bytes)
    requires s != [] && s[0] >= 128
    ensures Weighted(raw, scale, s) == Weighted(raw + scale * (s[0] - 128), scale * 128, s[1..])
  {
    var low, rest := s[0] - 128, RawVarint(s[1..]).0;
    assert scale * (low + 128 * rest) == scale * low + scale * 128 * rest;
  }

  lemma WeightedEnd(raw: int, scale: int, s: Bytes)
    ensures s == [] ==> Weighted(raw, scale, s) == (raw, [])
    ensures s != [] && s[0] < 128 ==> Weighted(raw, scale, s) == (raw + scale * s[0], s[1..])
  {
  }

  lemma WeightedStart(s: Bytes)
    ensures Weighted(0, 1, s) == RawVarint(s)
  {
  }

  /** The decoding loop: seven bits a byte, the least significant first. */
  method DecodeVarint(b: Bytes, start: nat) returns (value: nat, p: nat)
    requires start <= |b|
    ensures start <= p <= |b| && (value, b[p..]) == ReadVarint(b[start..])
  {
    p := start;
    var raw, scale := 0, 1;
    WeightedStart(b[start..]);
    while p < |b|
      invariant start <= p <= |b|
      invariant RawVarint(b[start..]) == Weighted(raw, scale, b[p..])
    {
      var byte := b[p];
      assert b[p..][0] == byte && b[p..][1..] == b[p + 1..];
      WeightedEnd(raw, scale, b[p..]);
      if byte < 128 {
        value, p := (raw + scale * byte) % TWO64, p + 1;
        return;
      }
      WeightedStep(raw, scale, b[p..]);
      raw, scale, p := raw + scale * (byte - 128), scale * 128, p + 1;
    }
    WeightedEnd(raw, scale, b[p..]);
    value := raw % TWO64;
  }

  lemma {:induction false} RawRoundTrip(v: nat, rest: Bytes)
    ensures RawVarint(Varint(v) + rest) == (v, rest)
  {
    var s := Varint(v) + rest;
    if v > 127 {
      RawRoundTrip(v / 128, rest);
      assert s[1..] == Varint(v / 128) + rest;
    } else {
      assert s[1..] == rest;
    }
  }

  function Pow128(n: nat): nat { if n == 0 then 1 else 128 * Pow128(n - 1) }

  lemma {:induction false} VarintLength(v: nat, n: nat)
    requires v < Pow128(n) && n >= 1
    ensures |Varint(v)| <= n
  {
    if v > 127 {
      VarintLength(v / 128, n - 1);
    }
  }

  lemma VarintReads(v: nat, rest: Bytes)
    requires v < TWO64
    ensures ReadVarint(Varint(v) + rest) == (v, rest)
  {
    RawRoundTrip(v, rest);
    NothingCut(Varint(v) + rest, v, rest);
  }

  lemma NothingCut(s: Bytes, v: nat, rest: Bytes)
    requires v < TWO64 && RawVarint(s) == (v, rest)
    ensures ReadVarint(s) == (v, rest)
  {
  }

  lemma VarintFits(v: nat)
    requires v < TWO64
    ensures 1 <= |Varint(v)| <= 10
  {
    var n := TenDigits();
    VarintLength(v, n);
  }

  /** Decoding inverts encoding on every 64-bit value, in one to ten bytes, and leaves the rest. */
  lemma VarintRoundTrip(v: nat, rest: Bytes)
    requires v < TWO64
    ensures ReadVarint(Varint(v) + rest) == (v, rest)
    ensures 1 <= |Varint(v)| <= 10
  {
    VarintReads(v, rest);
    VarintFits(v);
  }

  lemma TenDigits() returns (n: nat)
    ensures n == 10 && TWO64 <= Pow128(n)
  {
    n := 10;
    PowStep(1);
    PowStep(2);
    PowStep(3);
    PowStep(4);
    PowStep(5);
    PowStep(6);
    PowStep(7);
    PowStep(8);
    PowStep(9);
    PowStep(10);
  }

  lemma PowStep(n: nat)
    requires n >= 1
    ensures Pow128(n) == 128 * Pow128(n - 1)
  {
  }

  // ----- fields ----------------------------------------------------------------------------------

  function ReadString(s: Bytes): (r: Result<(Bytes, Bytes)>)
    ensures r.Ok? ==> |r.value.1| <= |s|
  {
    var (len, rest) := ReadVarint(s);
    if len > |rest| then Throw else Ok((rest[..len], rest[len..]))
  }

  function Drop(n: nat, s: Bytes): Bytes { if n <= |s| then s[n..] else [] }

  function SkipField(wireType: nat, s: Bytes): (r: Result<Bytes>)
    ensures r.Ok? ==> |r.value| <= |s|
  {
    match wireType
    case 0 => Ok(ReadVarint(s).1)
    case 1 => Ok(Drop(8, s))
    case 2 => var (len, rest) := ReadVarint(s); Ok(Drop(len, rest))
    case 5 => Ok(Drop(4, s))
    case _ => Throw
  }

  /** How a decoder takes a field: as a number, as bytes, or not at all. */
  datatype Mode = AsVarint | AsBytes | Skipped
  type Schema = (nat, nat) -> Mode

  datatype Field = Number(num: nat, value: nat) | Data(num: nat, bytes: Bytes)

  function FieldNumber(tag: nat): nat { tag / 8 % TWO32 }

  /** One round of a decoder's loop: the field it takes, if any, and what is left. */
  function ReadField(k: Schema, s: Bytes): (r: Result<(seq<Field>, Bytes)>)
    requires s != []
    ensures r.Ok? ==> |r.value.1| < |s|
  {
    var (tag, rest) := ReadVarint(s);
    var num := FieldNumber(tag);
    match k(num, tag % 8)
    case AsVarint => var (v, after) := ReadVarint(rest); Ok(([Number(num, v)], after))
    case AsBytes =>
      (match ReadString(rest)
       case Ok((data, after)) => Ok(([Data(num, data)], after))
       case Throw => Throw)
    case Skipped =>
      (match SkipField(tag % 8, rest)
       case Ok(after) => Ok(([], after))
       case Throw => Throw)
  }

  /** All the fields a decoder takes from a message. */
  function Fields(k: Schema, s: Bytes): Result<seq<Field>>
    decreases |s|
  {
    if s == [] then Ok([])
    else
      match ReadField(k, s)
      case Throw => Throw
      case Ok((fs, rest)) =>
        match Fields(k, rest)
        case Throw => Throw
        case Ok(gs) => Ok(fs + gs)
  }

  // ----- well-formed messages --------------------------------------------------------------------

  predicate Terminated(s: Bytes) { s != [] && (s[0] < 128 || Terminated(s[1..])) }

  /** The payload the decoder is about to read or skip lies wholly inside s. */
  predicate PayloadInside(mode: Mode, wireType: nat, s: Bytes) {
    match mode
    case AsVarint => Terminated(s)
    case AsBytes => Terminated(s) && ReadVarint(s).0 <= |ReadVarint(s).1|
    case Skipped =>
      match wireType
      case 0 => Terminated(s)
      case 1 => 8 <= |s|
      case 2 => Terminated(s) && ReadVarint(s).0 <= |ReadVarint(s).1|
      case 5 => 4 <= |s|
      case _ => false
  }

  predicate FieldInside(k: Schema, s: Bytes) {
    && Terminated(s)
    && var (tag, rest) := ReadVarint(s);
       PayloadInside(k(FieldNumber(tag), tag % 8), tag % 8, rest)
  }

  /** s is a sequence of whole fields. */
  predicate WellFormed(k: Schema, s: Bytes)
    decreases |s|
  {
    s == [] || (FieldInside(k, s) && ReadField(k, s).Ok? && WellFormed(k, ReadField(k, s).value.1))
  }

  lemma {:induction false} RawLocal(s: Bytes, more: Bytes)
    requires Terminated(s)
    ensures RawVarint(s + more) == (RawVarint(s).0, RawVarint(s).1 + more)
  {
    assert (s + more)[1..] == s[1..] + more;
    if s[0] >= 128 {
      RawLocal(s[1..], more);
    }
  }

  lemma VarintLocal(s: Bytes, more: Bytes)
    requires Terminated(s)
    ensures ReadVarint(s + more) == (ReadVarint(s).0, ReadVarint(s).1 + more)
  {
    RawLocal(s, more);
  }

  lemma CutLocal(n: nat, s: Bytes, more: Bytes)
    requires n <= |s|
    ensures (s + more)[..n] == s[..n] && (s + more)[n..] == s[n..] + more
  {
  }

  lemma StringLocal(s: Bytes, more: Bytes)
    requires Terminated(s) && ReadVarint(s).0 <= |ReadVarint(s).1|
    ensures ReadString(s).Ok?
    ensures ReadString(s + more) == Ok((ReadString(s).value.0, ReadString(s).value.1 + more))
  {
    VarintLocal(s, more);
    CutLocal(ReadVarint(s).0, ReadVarint(s).1, more);
  }

  lemma SkipLocal(wireType: nat, s: Bytes, more: Bytes)
    requires PayloadInside(Skipped, wireType, s)
    ensures SkipField(wireType, s).Ok?
    ensures SkipField(wireType, s + more) == Ok(SkipField(wireType, s).value + more)
  {
    if wireType == 0 || wireType == 2 {
      VarintLocal(s, more);
      if wireType == 2 {
        CutLocal(ReadVarint(s).0, ReadVarint(s).1, more);
      }
    } else {
      CutLocal(if wireType == 1 then 8 else 4, s, more);
    }
  }

  /** Reading a whole field does not look past it. */
  lemma FieldLocal(k: Schema, s: Bytes, more: Bytes)
    requires s != [] && FieldInside(k, s)
    ensures ReadField(k, s).Ok?
    ensures ReadField(k, s + more) == Ok((ReadField(k, s).value.0, ReadField(k, s).value.1 + more))
  {
    VarintLocal(s, more);
    var (tag, rest) := ReadVarint(s);
    match k(FieldNumber(tag), tag % 8)
    case AsVarint => VarintLocal(rest, more);
    case AsBytes => StringLocal(rest, more);
    case Skipped => SkipLocal(tag % 8, rest, more);
  }

  function Append(a: Result<seq<Field>>, b: Result<seq<Field>>): Result<seq<Field>> {
    if a.Ok? && b.Ok? then Ok(a.value + b.value) else Throw
  }

  /** The fields of a concatenation are the fields of its parts. */
  lemma {:induction false} FieldsConcat(k: Schema, a: Bytes, b: Bytes)
    requires WellFormed(k, a)
    ensures Fields(k, a).Ok? && Fields(k, a + b) == Append(Fields(k, a), Fields(k, b))
    decreases |a|
  {
    if a == [] {
      assert a + b == b;
      assert Fields(k, b).Ok? ==> [] + Fields(k, b).value == Fields(k, b).value;
    } else {
      FieldLocal(k, a, b);
      var (fs, rest) := ReadField(k, a).value;
      FieldsConcat(k, rest, b);
      FieldsStep(k, a, fs, rest);
      FieldsStep(k, a + b, fs, rest + b);
      AppendAssoc(Ok(fs), Fields(k, rest), Fields(k, b));
    }
  }

  lemma FieldsStep(k: Schema, s: Bytes, fs: seq<Field>, rest: Bytes)
    requires s != [] && ReadField(k, s) == Ok((fs, rest))
    ensures Fields(k, s) == Append(Ok(fs), Fields(k, rest))
  {
  }

  lemma AppendAssoc(a: Result<seq<Field>>, b: Result<seq<Field>>, c: Result<seq<Field>>)
    ensures Append(Append(a, b), c) == Append(a, Append(b, c))
  {
    if a.Ok? && b.Ok? && c.Ok? {
      assert a.value + b.value + c.value == a.value + (b.value + c.value);
    }
  }

  // ----- the task --------------------------------------------------------------------------------

  type Pairs = seq<(Bytes, Bytes)>
  datatype Need = Need(outputs: Pairs, result: int)

  datatype Task = Task(
    id: int, payload: Bytes, context: Pairs, secrets: Pairs, machine: Bytes,
    needs: seq<(Bytes, Need)>, vars: Pairs)

  const EMPTY_TASK := Task(0, [], [], [], [], [], [])

  function Signed64(u: nat): int { if u < TWO63 then u else u - TWO64 }

  function Signed32(u: nat): int { var w := u % TWO32; if w < TWO31 then w else w - TWO32 }

  /** Map entries: key and value, both strings. */
  function EntrySchema(num: nat, wireType: nat): Mode {
    if (num == 1 || num == 2) && wireType == 2 then AsBytes else Skipped
  }

  function FoldEntry(entry: (Bytes, Bytes), fs: seq<Field>): (Bytes, Bytes)
    decreases |fs|
  {
    if fs == [] then entry
    else if fs[0].Data? && fs[0].num == 1 then FoldEntry((fs[0].bytes, entry.1), fs[1..])
    else if fs[0].Data? && fs[0].num == 2 then FoldEntry((entry.0, fs[0].bytes), fs[1..])
    else FoldEntry(entry, fs[1..])
  }

  function DecodeMapEntry(s: Bytes): Result<(Bytes, Bytes)> {
    match Fields(EntrySchema, s)
    case Throw => Throw
    case Ok(fs) => Ok(FoldEntry(([], []), fs))
  }

  /** The string member of a Struct value. */
  function ValueSchema(num: nat, wireType: nat): Mode {
    if num == 3 && wireType == 2 then AsBytes else Skipped
  }

  function FoldValue(text: Bytes, fs: seq<Field>): Bytes
    decreases |fs|
  {
    if fs == [] then text else FoldValue(if fs[0].Data? then fs[0].bytes else text, fs[1..])
  }

  /** An entry of a Struct: its value is a message of its own, which may come in several pieces. */
  function FoldStructEntry(key: Bytes, text: Bytes, fs: seq<Field>): Result<Pairs>
    decreases |fs|
  {
    if fs == [] then Ok(if key == [] then [] else [(key, text)])
    else if fs[0].Data? && fs[0].num == 1 then FoldStructEntry(fs[0].bytes, text, fs[1..])
    else if fs[0].Data? && fs[0].num == 2 then
      match Fields(ValueSchema, fs[0].bytes)
      case Throw => Throw
      case Ok(vs) => FoldStructEntry(key, FoldValue(text, vs), fs[1..])
    else FoldStructEntry(key, text, fs[1..])
  }

  function DecodeStructEntry(s: Bytes): Result<Pairs> {
    match Fields(EntrySchema, s)
    case Throw => Throw
    case Ok(fs) => FoldStructEntry([], [], fs)
  }

  /** A message of which only field 1, itself a message, is taken. */
  function FirstMessageSchema(num: nat, wireType: nat): Mode {
    if num == 1 && wireType == 2 then AsBytes else Skipped
  }

  function FoldStruct(pairs: Pairs, fs: seq<Field>): Result<Pairs>
    decreases |fs|
  {
    if fs == [] then Ok(pairs)
    else if fs[0].Data? then
      match DecodeStructEntry(fs[0].bytes)
      case Throw => Throw
      case Ok(more) => FoldStruct(pairs + more, fs[1..])
    else FoldStruct(pairs, fs[1..])
  }

  function DecodeStruct(s: Bytes): Result<Pairs> {
    match Fields(FirstMessageSchema, s)
    case Throw => Throw
    case Ok(fs) => FoldStruct([], fs)
  }

  /** The outputs and the result of a needed job. */
  function NeedSchema(num: nat, wireType: nat): Mode {
    if num == 1 && wireType == 2 then AsBytes else if num == 2 && wireType == 0 then AsVarint else Skipped
  }

  function FoldNeed(need: Need, fs: seq<Field>): Result<Need>
    decreases |fs|
  {
    if fs == [] then Ok(need)
    else
      match fs[0]
      case Number(_, v) => FoldNeed(need.(result := Signed32(v)), fs[1..])
      case Data(_, bytes) =>
        match DecodeMapEntry(bytes)
        case Throw => Throw
        case Ok(pair) => FoldNeed(need.(outputs := need.outputs + [pair]), fs[1..])
  }

  function FoldNeedEntry(job: Bytes, need: Need, fs: seq<Field>): Result<seq<(Bytes, Need)>>
    decreases |fs|
  {
    if fs == [] then Ok(if job == [] then [] else [(job, need)])
    else if fs[0].Data? && fs[0].num == 1 then FoldNeedEntry(fs[0].bytes, need, fs[1..])
    else if fs[0].Data? && fs[0].num == 2 then
      match Fields(NeedSchema, fs[0].bytes)
      case Throw => Throw
      case Ok(ns) =>
        match FoldNeed(need, ns)
        case Throw => Throw
        case Ok(need') => FoldNeedEntry(job, need', fs[1..])
    else FoldNeedEntry(job, need, fs[1..])
  }

  function DecodeNeedEntry(s: Bytes): Result<seq<(Bytes, Need)>> {
    match Fields(EntrySchema, s)
    case Throw => Throw
    case Ok(fs) => FoldNeedEntry([], Need([], 0), fs)
  }

  /** The task decoder takes its known fields by number alone, whatever their wire type. */
  function TaskSchema(num: nat, wireType: nat): Mode {
    if num == 1 then AsVarint else if 2 <= num <= 7 then AsBytes else Skipped
  }

  function ApplyField(t: Task, f: Field): Result<Task> {
    match f
    case Number(_, v) => Ok(t.(id := Signed64(v)))
    case Data(num, bytes) =>
      match num
      case 2 => Ok(t.(payload := bytes))
      case 3 => (match DecodeStruct(bytes) case Throw => Throw case Ok(kv) => Ok(t.(context := t.context + kv)))
      case 4 => (match DecodeMapEntry(bytes) case Throw => Throw case Ok(kv) => Ok(t.(secrets := t.secrets + [kv])))
      case 5 => Ok(t.(machine := bytes))
      case 6 => (match DecodeNeedEntry(bytes) case Throw => Throw case Ok(ns) => Ok(t.(needs := t.needs + ns)))
      case _ => (match DecodeMapEntry(bytes) case Throw => Throw case Ok(kv) => Ok(t.(vars := t.vars + [kv])))
  }

  function FoldTask(t: Task, fs: seq<Field>): Result<Task>
    decreases |fs|
  {
    if fs == [] then Ok(t)
    else
      match ApplyField(t, fs[0])
      case Throw => Throw
      case Ok(t') => FoldTask(t', fs[1..])
  }

  function DecodeTask(s: Bytes): Result<Task> {
    match Fields(TaskSchema, s)
    case Throw => Throw
    case Ok(fs) => FoldTask(EMPTY_TASK, fs)
  }

  /** What is left to decode, with t decoded so far. */
  function DecodeRest(t: Task, s: Bytes): Result<Task> {
    match Fields(TaskSchema, s)
    case Throw => Throw
    case Ok(fs) => FoldTask(t, fs)
  }

  /** The decoding loop: one field a round, each changing the task at once. */
  method DecodeTaskLoop(b: Bytes) returns (r: Result<Task>)
    ensures r == DecodeTask(b)
  {
    var t, rest := EMPTY_TASK, b;
    while rest != []
      invariant DecodeRest(t, rest) == DecodeTask(b)
      decreases |rest|
    {
      var f := ReadField(TaskSchema, rest);
      if f.Throw? {
        return Throw;
      }
      var taken, after := f.value.0, f.value.1;
      TakeOne(t, taken, after, rest);
      if taken != [] {
        var next := ApplyField(t, taken[0]);
        if next.Throw? {
          return Throw;
        }
        t := next.value;
      }
      rest := after;
    }
    r := Ok(t);
  }

  lemma TakeOne(t: Task, taken: seq<Field>, after: Bytes, s: Bytes)
    requires s != [] && ReadField(TaskSchema, s) == Ok((taken, after))
    ensures |taken| <= 1
    ensures taken == [] ==> DecodeRest(t, s) == DecodeRest(t, after)
    ensures taken != [] && ApplyField(t, taken[0]).Throw? ==> DecodeRest(t, s).Throw?
    ensures taken != [] && ApplyField(t, taken[0]).Ok? ==> DecodeRest(t, s) == DecodeRest(ApplyField(t, taken[0]).value, after)
  {
    if Fields(TaskSchema, after).Ok? {
      var fs := Fields(TaskSchema, after).value;
      assert [] + fs == fs;
      if taken != [] {
        assert (taken + fs)[0] == taken[0] && (taken + fs)[1..] == fs;
      }
    }
  }

  // ----- the merge law ---------------------------------------------------------------------------

  /** What a message says: scalars that are present, and the entries of the lists. */
  datatype Option<T> = None | Some(value: T)

  datatype Says = Says(
    id: Option<int>, payload: Option<Bytes>, context: Pairs, secrets: Pairs, machine: Option<Bytes>,
    needs: seq<(Bytes, Need)>, vars: Pairs)

  const SILENT := Says(None, None, [], [], None, [], [])

  function Last<T>(a: Option<T>, b: Option<T>): Option<T> { if b.Some? then b else a }

  function Or<T>(a: Option<T>, default: T): T { if a.Some? then a.value else default }

  /** Later scalars win, lists append. */
  function Both(a: Says, b: Says): Says {
    Says(Last(a.id, b.id), Last(a.payload, b.payload), a.context + b.context, a.secrets + b.secrets,
         Last(a.machine, b.machine), a.needs + b.needs, a.vars + b.vars)
  }

  function Merge(t: Task, d: Says): Task {
    Task(Or(d.id, t.id), Or(d.payload, t.payload), t.context + d.context, t.secrets + d.secrets,
         Or(d.machine, t.machine), t.needs + d.needs, t.vars + d.vars)
  }

  function SaysOf(f: Field): Result<Says> {
    match f
    case Number(_, v) => Ok(SILENT.(id := Some(Signed64(v))))
    case Data(num, bytes) =>
      match num
      case 2 => Ok(SILENT.(payload := Some(bytes)))
      case 3 => (match DecodeStruct(bytes) case Throw => Throw case Ok(kv) => Ok(SILENT.(context := kv)))
      case 4 => (match DecodeMapEntry(bytes) case Throw => Throw case Ok(kv) => Ok(SILENT.(secrets := [kv])))
      case 5 => Ok(SILENT.(machine := Some(bytes)))
      case 6 => (match DecodeNeedEntry(bytes) case Throw => Throw case Ok(ns) => Ok(SILENT.(needs := ns)))
      case _ => (match DecodeMapEntry(bytes) case Throw => Throw case Ok(kv) => Ok(SILENT.(vars := [kv])))
  }

  function SaysAll(fs: seq<Field>): Result<Says> {
    if fs == [] then Ok(SILENT)
    else
      match (SaysOf(fs[0]), SaysAll(fs[1..]))
      case (Ok(a), Ok(b)) => Ok(Both(a, b))
      case _ => Throw
  }

  /** What a whole message says. */
  function Message(s: Bytes): Result<Says> {
    match Fields(TaskSchema, s)
    case Throw => Throw
    case Ok(fs) => SaysAll(fs)
  }

  function MergeResult(t: Task, d: Result<Says>): Result<Task> {
    match d
    case Throw => Throw
    case Ok(says) => Ok(Merge(t, says))
  }

  function BothResults(a: Result<Says>, b: Result<Says>): Result<Says> {
    if a.Ok? && b.Ok? then Ok(Both(a.value, b.value)) else Throw
  }

  lemma ApplyIsMerge(t: Task, f: Field)
    ensures ApplyField(t, f) == MergeResult(t, SaysOf(f))
  {
    assert t.context + [] == t.context && t.secrets + [] == t.secrets && t.needs + [] == t.needs && t.vars + [] == t.vars;
  }

  lemma MergeTwice(t: Task, a: Says, b: Says)
    ensures Merge(Merge(t, a), b) == Merge(t, Both(a, b))
  {
    assert t.context + a.context + b.context == t.context + (a.context + b.context);
    assert t.secrets + a.secrets + b.secrets == t.secrets + (a.secrets + b.secrets);
    assert t.needs + a.needs + b.needs == t.needs + (a.needs + b.needs);
    assert t.vars + a.vars + b.vars == t.vars + (a.vars + b.vars);
  }

  lemma MergeSilent(t: Task)
    ensures Merge(t, SILENT) == t
  {
    assert t.context + [] == t.context && t.secrets + [] == t.secrets && t.needs + [] == t.needs && t.vars + [] == t.vars;
  }

  lemma BothAssociates(a: Says, b: Says, c: Says)
    ensures Both(Both(a, b), c) == Both(a, Both(b, c))
  {
    assert a.context + b.context + c.context == a.context + (b.context + c.context);
    assert a.secrets + b.secrets + c.secrets == a.secrets + (b.secrets + c.secrets);
    assert a.needs + b.needs + c.needs == a.needs + (b.needs + c.needs);
    assert a.vars + b.vars + c.vars == a.vars + (b.vars + c.vars);
  }

  lemma BothSilent(a: Says)
    ensures Both(SILENT, a) == a
  {
    assert [] + a.context == a.context && [] + a.secrets == a.secrets && [] + a.needs == a.needs && [] + a.vars == a.vars;
  }

  /** The decoder's running update is one merge of all that was said. */
  lemma {:induction false} FoldIsMerge(t: Task, fs: seq<Field>)
    ensures FoldTask(t, fs) == MergeResult(t, SaysAll(fs))
    decreases |fs|
  {
    if fs == [] {
      MergeSilent(t);
    } else {
      ApplyIsMerge(t, fs[0]);
      if SaysOf(fs[0]).Ok? {
        var a := SaysOf(fs[0]).value;
        FoldIsMerge(Merge(t, a), fs[1..]);
        if SaysAll(fs[1..]).Ok? {
          MergeTwice(t, a, SaysAll(fs[1..]).value);
        }
      }
    }
  }

  lemma {:induction false} SaysConcat(fs: seq<Field>, gs: seq<Field>)
    ensures SaysAll(fs + gs) == BothResults(SaysAll(fs), SaysAll(gs))
  {
    if fs == [] {
      assert fs + gs == gs;
      if SaysAll(gs).Ok? {
        BothSilent(SaysAll(gs).value);
      }
    } else {
      assert (fs + gs)[1..] == fs[1..] + gs;
      SaysConcat(fs[1..], gs);
      if SaysOf(fs[0]).Ok? && SaysAll(fs[1..]).Ok? && SaysAll(gs).Ok? {
        BothAssociates(SaysOf(fs[0]).value, SaysAll(fs[1..]).value, SaysAll(gs).value);
      }
    }
  }

  /** Decoding is merging what the message says into an empty task. */
  lemma DecodeIsMerge(s: Bytes)
    ensures DecodeTask(s) == MergeResult(EMPTY_TASK, Message(s))
  {
    if Fields(TaskSchema, s).Ok? {
      FoldIsMerge(EMPTY_TASK, Fields(TaskSchema, s).value);
    }
  }

  /** The merge law: after a sequence of whole fields, more bytes add what they say, the last scalar
      winning and lists appending; so decoding a concatenation merges into the first decode. */
  lemma ConcatenationMerges(a: Bytes, b: Bytes)
    requires WellFormed(TaskSchema, a)
    ensures Message(a + b) == BothResults(Message(a), Message(b))
    ensures DecodeTask(a).Ok? ==> DecodeTask(a + b) == MergeResult(DecodeTask(a).value, Message(b))
    ensures DecodeTask(a).Throw? ==> DecodeTask(a + b).Throw?
  {
    FieldsConcat(TaskSchema, a, b);
    if Fields(TaskSchema, b).Ok? {
      SaysConcat(Fields(TaskSchema, a).value, Fields(TaskSchema, b).value);
    }
    DecodeIsMerge(a);
    DecodeIsMerge(a + b);
    if Message(a).Ok? && Message(b).Ok? {
      MergeTwice(EMPTY_TASK, Message(a).value, Message(b).value);
    }
  }

  // ----- fields as encoders write them -----------------------------------------------------------

  /** What can follow a tag: a varint, eight bytes, a length and data, or four bytes. */
  datatype Payload = PVarint(v: nat) | P64(bytes: Bytes) | PData(bytes: Bytes) | P32(bytes: Bytes)

  predicate ValidPayload(x: Payload) {
    match x
    case PVarint(v) => v < TWO64
    case P64(b) => |b| == 8
    case PData(b) => |b| < TWO64
    case P32(b) => |b| == 4
  }

  function WireType(x: Payload): nat {
    match x
    case PVarint(_) => 0
    case P64(_) => 1
    case PData(_) => 2
    case P32(_) => 5
  }

  function PayloadBytes(x: Payload): Bytes {
    match x
    case PVarint(v) => Varint(v)
    case P64(b) => b
    case PData(b) => Varint(|b|) + b
    case P32(b) => b
  }

  const MAX_FIELD := 0x2000_0000

  function EncodeField(num: nat, x: Payload): (r: Bytes)
    ensures r != []
  {
    Varint(8 * num + WireType(x)) + PayloadBytes(x)
  }

  lemma TagReads(num: nat, x: Payload, rest: Bytes)
    requires num < MAX_FIELD
    ensures var (tag, after) := ReadVarint(EncodeField(num, x) + rest);
            FieldNumber(tag) == num && tag % 8 == WireType(x) && after == PayloadBytes(x) + rest
  {
    var tag := 8 * num + WireType(x);
    VarintReads(tag, PayloadBytes(x) + rest);
    Regroup(Varint(tag), PayloadBytes(x), rest);
    TagSplits(num, WireType(x));
  }

  lemma TagSplits(num: nat, wireType: nat)
    requires num < MAX_FIELD && wireType < 8
    ensures FieldNumber(8 * num + wireType) == num && (8 * num + wireType) % 8 == wireType
  {
  }

  lemma DataReads(data: Bytes, rest: Bytes)
    requires |data| < TWO64
    ensures ReadVarint(Varint(|data|) + data + rest) == (|data|, data + rest)
    ensures ReadString(Varint(|data|) + data + rest) == Ok((data, rest))
    ensures Drop(|data|, data + rest) == rest
  {
    VarintReads(|data|, data + rest);
    Regroup(Varint(|data|), data, rest);
    FrontAndBack(data, rest);
  }

  lemma SkipReads(x: Payload, rest: Bytes)
    requires ValidPayload(x)
    ensures SkipField(WireType(x), PayloadBytes(x) + rest) == Ok(rest)
  {
    match x
    case PVarint(v) => VarintReads(v, rest);
    case PData(b) => DataReads(b, rest);
    case P64(b) => assert (b + rest)[8..] == rest;
    case P32(b) => assert (b + rest)[4..] == rest;
  }

  /** A field the decoder skips leaves no trace. */
  lemma SkippedField(k: Schema, num: nat, x: Payload, rest: Bytes)
    requires num < MAX_FIELD && ValidPayload(x) && k(num, WireType(x)) == Skipped
    ensures Fields(k, EncodeField(num, x) + rest) == Fields(k, rest)
  {
    TagReads(num, x, rest);
    SkipReads(x, rest);
    assert ReadField(k, EncodeField(num, x) + rest) == Ok(([], rest));
    if Fields(k, rest).Ok? {
      assert [] + Fields(k, rest).value == Fields(k, rest).value;
    }
  }

  /** A number or data field the decoder takes is its next field. */
  lemma TakenField(k: Schema, num: nat, x: Payload, rest: Bytes)
    requires num < MAX_FIELD && ValidPayload(x)
    requires (x.PVarint? && k(num, 0) == AsVarint) || (x.PData? && k(num, 2) == AsBytes)
    ensures Fields(k, EncodeField(num, x) + rest) ==
            Append(Ok([if x.PVarint? then Number(num, x.v) else Data(num, x.bytes)]), Fields(k, rest))
  {
    TagReads(num, x, rest);
    if x.PVarint? {
      VarintReads(x.v, rest);
    } else {
      DataReads(x.bytes, rest);
    }
  }

  /** Forward compatibility: a field with an unknown number changes nothing, wherever a field may
      begin. */
  lemma UnknownFieldIsIgnored(a: Bytes, num: nat, x: Payload, b: Bytes)
    requires WellFormed(TaskSchema, a)
    requires num < MAX_FIELD && !(1 <= num <= 7) && ValidPayload(x)
    ensures DecodeTask(a + EncodeField(num, x) + b) == DecodeTask(a + b)
  {
    var unknown := EncodeField(num, x);
    SkippedField(TaskSchema, num, x, b);
    FieldsConcat(TaskSchema, a, b);
    FieldsConcat(TaskSchema, a, unknown + b);
    assert a + (unknown + b) == a + unknown + b;
  }

  // ----- UpdateTask ------------------------------------------------------------------------------

  function Unsigned64(x: int): nat
    requires -TWO63 <= x < TWO63
  {
    if x >= 0 then x else x + TWO64
  }

  /** Default values are not written. */
  function Int64Field(num: nat, x: int): Bytes
    requires -TWO63 <= x < TWO63
  {
    if x == 0 then [] else EncodeField(num, PVarint(Unsigned64(x)))
  }

  function MessageField(num: nat, message: Bytes): Bytes {
    if message == [] then [] else EncodeField(num, PData(message))
  }

  type Int64 = x: int | -TWO63 <= x < TWO63
  type Int32 = x: int | -TWO31 <= x < TWO31

  datatype StepState = StepState(id: Int64, result: Int32, startedAt: Int64, stoppedAt: Int64, logIndex: Int64, logLength: Int64)

  function Timestamp(seconds: Int64): Bytes { Int64Field(1, seconds) }

  function EncodeStep(s: StepState): Bytes {
    Int64Field(1, s.id) + (Int64Field(2, s.result) + (MessageField(3, Timestamp(s.startedAt))
    + (MessageField(4, Timestamp(s.stoppedAt)) + (Int64Field(5, s.logIndex) + Int64Field(6, s.logLength)))))
  }

  function EncodeSteps(steps: seq<StepState>): Bytes {
    if steps == [] then [] else MessageField(5, EncodeStep(steps[0])) + EncodeSteps(steps[1..])
  }

  function EncodeOutputs(outputs: Pairs): Bytes {
    if outputs == [] then []
    else MessageField(2, EncodeField(1, PData(outputs[0].0)) + EncodeField(2, PData(outputs[0].1))) + EncodeOutputs(outputs[1..])
  }

  function EncodeState(id: Int64, state: Int32, steps: seq<StepState>, startedAt: Int64, stoppedAt: Int64): Bytes {
    Int64Field(1, id) + (Int64Field(2, state) + (MessageField(3, Timestamp(startedAt))
    + (MessageField(4, Timestamp(stoppedAt)) + EncodeSteps(steps))))
  }

  function EncodeUpdateTask(id: Int64, state: Int32, steps: seq<StepState>, startedAt: Int64, stoppedAt: Int64, outputs: Pairs): Bytes {
    MessageField(1, EncodeState(id, state, steps, startedAt, stoppedAt)) + EncodeOutputs(outputs)
  }

  datatype UpdateResult = UpdateResult(taskId: int, state: string)

  function StateName(result: int): string {
    match result
    case 1 => "success"
    case 2 => "failure"
    case 3 => "cancelled"
    case 4 => "skipped"
    case _ => "unknown"
  }

  function StateSchema(num: nat, wireType: nat): Mode {
    if (num == 1 || num == 2) && wireType == 0 then AsVarint else Skipped
  }

  function FoldState(r: UpdateResult, fs: seq<Field>): UpdateResult
    decreases |fs|
  {
    if fs == [] then r
    else if !fs[0].Number? then FoldState(r, fs[1..])
    else if fs[0].num == 1 then FoldState(r.(taskId := Signed64(fs[0].value)), fs[1..])
    else FoldState(r.(state := StateName(Signed32(fs[0].value))), fs[1..])
  }

  function FoldUpdate(r: UpdateResult, fs: seq<Field>): Result<UpdateResult>
    decreases |fs|
  {
    if fs == [] then Ok(r)
    else if !fs[0].Data? then FoldUpdate(r, fs[1..])
    else
      match Fields(StateSchema, fs[0].bytes)
      case Throw => Throw
      case Ok(gs) => FoldUpdate(FoldState(r, gs), fs[1..])
  }

  function DecodeUpdateTask(s: Bytes): Result<UpdateResult> {
    match Fields(FirstMessageSchema, s)
    case Throw => Throw
    case Ok(fs) => FoldUpdate(UpdateResult(0, ""), fs)
  }

  lemma UnsignedFits(x: int)
    requires -TWO63 <= x < TWO63
    ensures Unsigned64(x) < TWO64 && Signed64(Unsigned64(x)) == x
    ensures -TWO31 <= x < TWO31 ==> Signed32(Unsigned64(x)) == x
  {
  }

  /** Skipped messages, present or elided, leave no trace. */
  lemma SkippedMessage(k: Schema, num: nat, message: Bytes, rest: Bytes)
    requires num < MAX_FIELD && |message| < TWO64 && k(num, 2) == Skipped
    ensures Fields(k, MessageField(num, message) + rest) == Fields(k, rest)
  {
    if message == [] {
      assert [] + rest == rest;
    } else {
      SkippedField(k, num, PData(message), rest);
    }
  }

  lemma {:induction false} StepsAreSkipped(steps: seq<StepState>)
    requires |EncodeSteps(steps)| < TWO64
    ensures Fields(StateSchema, EncodeSteps(steps)) == Ok([])
  {
    if steps != [] {
      StepsAreSkipped(steps[1..]);
      SkippedMessage(StateSchema, 5, EncodeStep(steps[0]), EncodeSteps(steps[1..]));
    }
  }

  lemma {:induction false} OutputsAreSkipped(outputs: Pairs)
    requires |EncodeOutputs(outputs)| < TWO64
    ensures Fields(FirstMessageSchema, EncodeOutputs(outputs)) == Ok([])
  {
    if outputs != [] {
      OutputsAreSkipped(outputs[1..]);
      SkippedMessage(FirstMessageSchema, 2, EncodeField(1, PData(outputs[0].0)) + EncodeField(2, PData(outputs[0].1)), EncodeOutputs(outputs[1..]));
    }
  }

  function IfPresent(num: nat, x: int): seq<Field>
    requires -TWO63 <= x < TWO63
  {
    if x == 0 then [] else [Number(num, Unsigned64(x))]
  }

  lemma TakenInt64(k: Schema, num: nat, x: Int64, rest: Bytes)
    requires num < MAX_FIELD && k(num, 0) == AsVarint
    ensures Fields(k, Int64Field(num, x) + rest) == Append(Ok(IfPresent(num, x)), Fields(k, rest))
  {
    UnsignedFits(x);
    if x == 0 {
      assert [] + rest == rest;
      if Fields(k, rest).Ok? {
        assert [] + Fields(k, rest).value == Fields(k, rest).value;
      }
    } else {
      TakenField(k, num, PVarint(Unsigned64(x)), rest);
    }
  }

  lemma StateFields(id: Int64, state: Int32, steps: seq<StepState>, startedAt: Int64, stoppedAt: Int64)
    requires |EncodeState(id, state, steps, startedAt, stoppedAt)| < TWO64
    ensures Fields(StateSchema, EncodeState(id, state, steps, startedAt, stoppedAt)) == Ok(IfPresent(1, id) + IfPresent(2, state))
  {
    StepsAreSkipped(steps);
    var s4 := MessageField(4, Timestamp(stoppedAt)) + EncodeSteps(steps);
    SkippedMessage(StateSchema, 4, Timestamp(stoppedAt), EncodeSteps(steps));
    var s3 := MessageField(3, Timestamp(startedAt)) + s4;
    SkippedMessage(StateSchema, 3, Timestamp(startedAt), s4);
    TakenInt64(StateSchema, 2, state, s3);
    assert IfPresent(2, state) + [] == IfPresent(2, state);
    TakenInt64(StateSchema, 1, id, Int64Field(2, state) + s3);
  }

  lemma OneState(id: Int64, n: nat)
    requires n < TWO64
    ensures FoldState(UpdateResult(id, ""), [Number(2, n)]) == UpdateResult(id, StateName(Signed32(n)))
  {
    var fs := [Number(2, n)];
    assert fs[1..] == [];
    assert FoldState(UpdateResult(id, StateName(Signed32(n))), fs[1..]) == UpdateResult(id, StateName(Signed32(n)));
  }

  lemma FoldedState(id: Int64, state: Int32)
    ensures FoldState(UpdateResult(0, ""), IfPresent(1, id) + IfPresent(2, state)) ==
            UpdateResult(id, if state == 0 then "" else StateName(state))
  {
    UnsignedFits(id);
    UnsignedFits(state);
    var fs, gs := IfPresent(1, id) + IfPresent(2, state), IfPresent(2, state);
    assert fs == if id == 0 then gs else [Number(1, Unsigned64(id))] + gs;
    assert FoldState(UpdateResult(0, ""), fs) == FoldState(UpdateResult(id, ""), gs) by {
      if id != 0 {
        assert fs[1..] == gs;
      }
    }
    if state != 0 {
      OneState(id, Unsigned64(state));
    }
  }

  /** The outer message holds one field, the task state, unless that is empty. */
  lemma OuterFields(inner: Bytes, outputs: Pairs)
    requires |MessageField(1, inner) + EncodeOutputs(outputs)| < TWO64
    ensures Fields(FirstMessageSchema, MessageField(1, inner) + EncodeOutputs(outputs)) ==
            Ok(if inner == [] then [] else [Data(1, inner)])
  {
    var rest := EncodeOutputs(outputs);
    OutputsAreSkipped(outputs);
    if inner == [] {
      assert [] + rest == rest;
    } else {
      TakenField(FirstMessageSchema, 1, PData(inner), rest);
      assert [Data(1, inner)] + [] == [Data(1, inner)];
    }
  }

  lemma FoldOuter(inner: Bytes, fs: seq<Field>)
    requires Fields(StateSchema, inner) == Ok(fs)
    ensures FoldUpdate(UpdateResult(0, ""), if inner == [] then [] else [Data(1, inner)]) == Ok(FoldState(UpdateResult(0, ""), fs))
  {
    if inner != [] {
      assert [Data(1, inner)][1..] == [];
    }
  }

  /** Decoding what was encoded gives back the task id and the name of the result, whatever the steps,
      times and outputs; a default that was not written reads as the default. */
  lemma UpdateRoundTrip(id: Int64, state: Int32, steps: seq<StepState>, startedAt: Int64, stoppedAt: Int64, outputs: Pairs)
    requires |EncodeUpdateTask(id, state, steps, startedAt, stoppedAt, outputs)| < TWO64
    ensures DecodeUpdateTask(EncodeUpdateTask(id, state, steps, startedAt, stoppedAt, outputs)) ==
            Ok(UpdateResult(id, if state == 0 then "" else StateName(state)))
  {
    var inner := EncodeState(id, state, steps, startedAt, stoppedAt);
    OuterFields(inner, outputs);
    InnerIsShorter(inner, EncodeOutputs(outputs));
    StateFields(id, state, steps, startedAt, stoppedAt);
    FoldOuter(inner, IfPresent(1, id) + IfPresent(2, state));
    FoldedState(id, state);
  }

  lemma InnerIsShorter(inner: Bytes, rest: Bytes)
    ensures |inner| <= |MessageField(1, inner) + rest|
  {
  }

  /** In one corner eliding a default is visible: a result that is written out always has a name, so a
      written 0 reads "unknown" where an elided one reads as the empty name. */
  lemma WrittenResultHasAName(v: nat)
    requires v < TWO64
    ensures DecodeUpdateTask(MessageField(1, EncodeField(2, PVarint(v)))) == Ok(UpdateResult(0, StateName(Signed32(v))))
    ensures StateName(Signed32(v)) != ""
    ensures DecodeUpdateTask([]) == Ok(UpdateResult(0, ""))
  {
    var inner := EncodeField(2, PVarint(v));
    OneResult(v);
    OneResultIsShort(v);
    OuterFields(inner, []);
    NoOutputs(inner);
    FoldOuter(inner, [Number(2, v)]);
    OneState(0, v);
  }

  lemma OneResult(v: nat)
    requires v < TWO64
    ensures Fields(StateSchema, EncodeField(2, PVarint(v))) == Ok([Number(2, v)])
  {
    var inner := EncodeField(2, PVarint(v));
    TakenField(StateSchema, 2, PVarint(v), []);
    assert inner + [] == inner && [Number(2, v)] + [] == [Number(2, v)];
  }

  lemma NoOutputs(inner: Bytes)
    ensures MessageField(1, inner) + EncodeOutputs([]) == MessageField(1, inner)
  {
  }

  lemma OneResultIsShort(v: nat)
    requires v < TWO64
    ensures |MessageField(1, EncodeField(2, PVarint(v))) + EncodeOutputs([])| < TWO64
  {
    var inner := EncodeField(2, PVarint(v));
    var tag, outer := 8 * 2 + WireType(PVarint(v)), 8 * 1 + WireType(PData(inner));
    VarintFits(tag);
    VarintFits(v);
    VarintFits(outer);
    VarintFits(|inner|);
    NoOutputs(inner);
  }
}
