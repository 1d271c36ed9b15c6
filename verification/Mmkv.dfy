/**
 The reader of the app's MMKV v3/v4 storage: bounded varints, length-prefixed fields and an
 append-only log of records in which an empty value deletes its key. Keys stay UTF-8 bytes.
 */
module Mmkv {
  import opened Common

  type Byte = b: nat | b < 256

  type Bytes = seq<Byte>

  const LIMIT := 0x1_0000_0000
  const MAX_FILE := 16 * 1024 * 1024

  // ---------------------------------------------------------------- varints

  /** A writer's varint: seven bits a byte, low bits first, the high bit set on all but the last. */
  function EncodeVarint(v: nat): (e: Bytes)
    ensures e != []
  {
    if v < 128 then [v] else [128 + v % 128] + EncodeVarint(v / 128)
  }

  /** The varint at `position`, of which `read` bytes were already consumed. */
  function VarintFrom(data: Bytes, position: nat, read: nat): (r: Result<(nat, nat)>)
    requires read <= 5
    ensures r.Success? ==> position < r.value.1 <= |data| && r.value.1 - position <= 5 - read
    decreases 5 - read
  {
    if read == 5 || position >= |data| || (read == 4 && data[position] > 15) then Failure
    else if data[position] < 128 then Success((data[position], position + 1))
    else
      match VarintFrom(data, position + 1, read + 1)
      case Failure => Failure
      case Success((rest, next)) => Success((data[position] - 128 + 128 * rest, next))
  }

  function VarintAt(data: Bytes, position: nat): (r: Result<(nat, nat)>)
    ensures r.Success? ==> position < r.value.1 <= |data|
  {
    VarintFrom(data, position, 0)
  }

  function Shift(i: nat): nat {
    if i == 0 then 1 else 128 * Shift(i - 1)
  }

  /** Bits placed `scale` higher. */
  function Raised(bits: nat, scale: nat): nat {
    bits * scale
  }

  /** `varint`: accumulates from the low bits up; the accumulated bits never overlap, so `|=` adds. */
  method Varint(data: Bytes, position: nat) returns (r: Result<(nat, nat)>)
    ensures r == VarintAt(data, position)
  {
    var value: nat, at: nat := 0, position;
    for i := 0 to 5
      invariant at == position + i && value < Shift(i)
      invariant VarintAt(data, position) == Onto(VarintFrom(data, at, i), value, Shift(i))
    {
      if at >= |data| {
        return Failure;
      }
      var byte := data[at];
      at := at + 1;
      if i == 4 && byte > 15 {
        return Failure;
      }
      if byte < 128 {
        return Success((value + Raised(byte, Shift(i)), at));
      }
      NextSeptet(data, at - 1, i, value);
      AccumulatorBound(value, byte - 128, Shift(i));
      value := value + Raised(byte - 128, Shift(i));
    }
    return Failure;
  }

  /** A partial result placed above the bits already accumulated. */
  function Onto(r: Result<(nat, nat)>, value: nat, scale: nat): Result<(nat, nat)> {
    match r
    case Failure => Failure
    case Success((rest, next)) => Success((value + Raised(rest, scale), next))
  }

  lemma NextSeptet(data: Bytes, at: nat, i: nat, value: nat)
    requires i < 5 && at < |data| && data[at] >= 128 && (i == 4 ==> data[at] <= 15)
    ensures Onto(VarintFrom(data, at, i), value, Shift(i))
         == Onto(VarintFrom(data, at + 1, i + 1), value + Raised(data[at] - 128, Shift(i)), Shift(i + 1))
  {
    match VarintFrom(data, at + 1, i + 1)
    case Failure =>
    case Success((rest, next)) => Regroup(data[at] - 128, rest, Shift(i));
  }

  lemma Regroup(low: nat, rest: nat, scale: nat)
    ensures Raised(low + 128 * rest, scale) == Raised(low, scale) + Raised(rest, 128 * scale)
  {
  }

  lemma AccumulatorBound(value: nat, low: nat, scale: nat)
    requires value < scale && low < 128
    ensures value + Raised(low, scale) < 128 * scale
  {
    assert scale * low <= scale * 127;
  }

  /** The reason `|=` may be modelled by addition: the new septet lies above every accumulated bit. */
  lemma DisjointBitsAdd(value: bv32, septet: bv32)
    requires septet < 128
    ensures value < 0x80 ==> value | (septet << 7) == value + (septet << 7)
    ensures value < 0x4000 ==> value | (septet << 14) == value + (septet << 14)
    ensures value < 0x20_0000 ==> value | (septet << 21) == value + (septet << 21)
    ensures value < 0x1000_0000 && septet < 16 ==> value | (septet << 28) == value + (septet << 28)
  {
  }

  /** `varint` never yields a value of more than 32 bits. */
  lemma VarintBelowLimit(data: Bytes, position: nat)
    ensures var r := VarintAt(data, position); r.Success? ==> r.value.0 < LIMIT
  {
    BelowFrom(data, position, 0);
    assert Shift(4) == 0x1000_0000;
  }

  /** Values that remain possible after `read` bytes. */
  function Remaining(read: nat): nat
    requires read <= 4
    decreases 4 - read
  {
    if read == 4 then 16 else 128 * Remaining(read + 1)
  }

  lemma {:induction false} BelowFrom(data: Bytes, position: nat, read: nat)
    requires read <= 4
    ensures var r := VarintFrom(data, position, read); r.Success? ==> r.value.0 < Remaining(read)
    ensures Remaining(read) >= 16
    decreases 4 - read
  {
    if read < 4 {
      BelowFrom(data, position + 1, read + 1);
    }
  }

  /** Every value below the limit is read back from its encoding, wherever it stands. */
  lemma VarintRoundTrip(v: nat, data: Bytes, position: nat)
    requires v < LIMIT && Holds(data, position, EncodeVarint(v))
    ensures VarintAt(data, position) == Success((v, position + |EncodeVarint(v)|))
  {
    assert Remaining(0) == LIMIT;
    RoundTripFrom(v, data, position, 0);
  }

  /** `data` has `part` at `position`. */
  predicate Holds(data: Bytes, position: nat, part: Bytes)
    decreases |part|
  {
    part == [] || (position < |data| && data[position] == part[0] && Holds(data, position + 1, part[1..]))
  }

  /** `Holds` in terms of a slice. */
  lemma {:induction false} HeldSlice(data: Bytes, position: nat, part: Bytes)
    requires position <= |data|
    ensures Holds(data, position, part) <==> position + |part| <= |data| && data[position..position + |part|] == part
    decreases |part|
  {
    if part != [] && position < |data| {
      HeldSlice(data, position + 1, part[1..]);
      if position + |part| <= |data| {
        var slice := data[position..position + |part|];
        assert slice[1..] == data[position + 1..position + 1 + |part[1..]|];
        assert slice == [slice[0]] + slice[1..];
        assert part == [part[0]] + part[1..];
      }
    }
  }

  lemma {:induction false} RoundTripFrom(v: nat, data: Bytes, position: nat, read: nat)
    requires read <= 4 && v < Remaining(read) && Holds(data, position, EncodeVarint(v))
    ensures VarintFrom(data, position, read) == Success((v, position + |EncodeVarint(v)|))
    decreases 4 - read
  {
    if v >= 128 {
      assert EncodeVarint(v)[1..] == EncodeVarint(v / 128);
      RoundTripFrom(v / 128, data, position + 1, read + 1);
    }
  }

  // ---------------------------------------------------------------- fields and records

  function FieldAt(data: Bytes, position: nat): (r: Result<(Bytes, nat)>)
    ensures r.Success? ==> position < r.value.1 <= |data|
  {
    match VarintAt(data, position)
    case Failure => Failure
    case Success((size, start)) =>
      if start + size > |data| then Failure else Success((data[start..start + size], start + size))
  }

  method Field(data: Bytes, position: nat) returns (r: Result<(Bytes, nat)>)
    ensures r == FieldAt(data, position)
  {
    var head := Varint(data, position);
    if head.Failure? {
      return Failure;
    }
    var (size, start) := head.value;
    var end := start + size;
    if end > |data| {
      return Failure;
    }
    return Success((data[start..end], end));
  }

  datatype Record = Record(key: Bytes, value: Bytes)

  predicate Continuation(s: Bytes, k: nat, low: nat, high: nat)
    requires low <= high
  {
    k < |s| && low <= s[k] <= high
  }

  /** Well-formed UTF-8, as section 4 of RFC 3629 lists it. */
  predicate ValidUtf8(s: Bytes) {
    if s == [] then true
    else if s[0] < 0x80 then ValidUtf8(s[1..])
    else if 0xC2 <= s[0] <= 0xDF then Continuation(s, 1, 0x80, 0xBF) && ValidUtf8(s[2..])
    else if 0xE0 <= s[0] <= 0xEF then
      && Continuation(s, 1, if s[0] == 0xE0 then 0xA0 else 0x80, if s[0] == 0xED then 0x9F else 0xBF)
      && Continuation(s, 2, 0x80, 0xBF) && ValidUtf8(s[3..])
    else if 0xF0 <= s[0] <= 0xF4 then
      && Continuation(s, 1, if s[0] == 0xF0 then 0x90 else 0x80, if s[0] == 0xF4 then 0x8F else 0xBF)
      && Continuation(s, 2, 0x80, 0xBF) && Continuation(s, 3, 0x80, 0xBF) && ValidUtf8(s[4..])
    else false
  }

  predicate ValidKey(key: Bytes) {
    key != [] && ValidUtf8(key)
  }

  /** One key and one value field; every record moves the position forward. */
  function RecordAt(body: Bytes, position: nat): (r: Result<(Record, nat)>)
    ensures r.Success? ==> position < r.value.1 <= |body| && ValidKey(r.value.0.key)
  {
    match FieldAt(body, position)
    case Failure => Failure
    case Success((key, middle)) =>
      if !ValidKey(key) then Failure
      else
        match FieldAt(body, middle)
        case Failure => Failure
        case Success((value, end)) => Success((Record(key, value), end))
  }

  /** The records from `position` to the end of the region. */
  function RecordsFrom(body: Bytes, position: nat): (r: Result<seq<Record>>)
    requires position <= |body|
    decreases |body| - position
  {
    if position == |body| then Success([])
    else
      match RecordAt(body, position)
      case Failure => Failure
      case Success((record, next)) =>
        match RecordsFrom(body, next)
        case Failure => Failure
        case Success(rest) => Success([record] + rest)
  }

  type Table = map<Bytes, Bytes>

  function Applied(record: Record, table: Table): Table {
    if record.value != [] then table[record.key := record.value] else table - {record.key}
  }

  /** A log replayed onto a table, oldest record first. */
  function Replay(log: seq<Record>, table: Table): Table {
    if log == [] then table else Replay(log[1..], Applied(log[0], table))
  }

  /** The region's container length, which appending never updates, then its records. */
  function BodyTable(body: Bytes): Result<Table> {
    if body == [] then Success(map[])
    else
      match VarintAt(body, 0)
      case Failure => Failure
      case Success((_, start)) =>
        match RecordsFrom(body, start)
        case Failure => Failure
        case Success(log) => Success(Replay(log, map[]))
  }

  /** `decode`'s loop over the records of a checked region. */
  method DecodeBody(body: Bytes) returns (r: Result<Table>)
    ensures r == BodyTable(body)
  {
    if body == [] {
      return Success(map[]);
    }
    var head := Varint(body, 0);
    if head.Failure? {
      return Failure;
    }
    var position := head.value.1;
    var result: Table := map[];
    while position < |body|
      invariant position <= |body|
      invariant BodyTable(body) == ReplayedFrom(body, position, result)
      decreases |body| - position
    {
      var key := Field(body, position);
      if key.Failure? || key.value.0 == [] || !ValidUtf8(key.value.0) {
        return Failure;
      }
      var value := Field(body, key.value.1);
      if value.Failure? {
        return Failure;
      }
      OneMoreRecord(body, position, result);
      result := if value.value.0 != [] then result[key.value.0 := value.value.0] else result - {key.value.0};
      position := value.value.1;
    }
    return Success(result);
  }

  function ReplayedFrom(body: Bytes, position: nat, table: Table): Result<Table>
    requires position <= |body|
  {
    match RecordsFrom(body, position)
    case Failure => Failure
    case Success(log) => Success(Replay(log, table))
  }

  lemma OneMoreRecord(body: Bytes, position: nat, table: Table)
    requires position < |body| && RecordAt(body, position).Success?
    ensures var (record, next) := RecordAt(body, position).value;
      ReplayedFrom(body, position, table) == ReplayedFrom(body, next, Applied(record, table))
  {
    var (record, next) := RecordAt(body, position).value;
    if RecordsFrom(body, next).Success? {
      var rest := RecordsFrom(body, next).value;
      assert ([record] + rest)[1..] == rest;
    }
  }

  // ---------------------------------------------------------------- files

  /** A little-endian 32-bit word. */
  function Word(data: Bytes, offset: nat): nat
    requires offset + 4 <= |data|
  {
    var low: nat, second: nat, third: nat, high: nat :=
      data[offset], data[offset + 1], data[offset + 2], data[offset + 3];
    low + 0x100 * second + 0x1_0000 * third + 0x100_0000 * high
  }

  predicate Zeros(data: Bytes, from: nat, to: nat)
    requires from <= to <= |data|
  {
    forall k :: from <= k < to ==> data[k] == 0
  }

  /** Everything `decode` checks before it looks at a record; `crc` is the checksum function. */
  predicate Sealed(data: Bytes, metadata: Bytes, crc: Bytes -> nat) {
    && 4 <= |data| <= MAX_FILE && |metadata| >= 112
    && (Word(metadata, 4) == 3 || Word(metadata, 4) == 4)
    && Zeros(metadata, 12, 28) && Zeros(metadata, 104, 112)
    && Word(data, 0) == Word(metadata, 28) && Word(data, 0) <= |data| - 4
    && crc(data[4..4 + Word(data, 0)]) == Word(metadata, 0)
  }

  method Decode(data: Bytes, metadata: Bytes, crc: Bytes -> nat) returns (r: Result<Table>)
    ensures r == if Sealed(data, metadata, crc) then BodyTable(data[4..4 + Word(data, 0)]) else Failure
  {
    if |data| < 4 || |data| > MAX_FILE || |metadata| < 112 {
      return Failure;
    }
    var size := Word(data, 0);
    var checksum, version := Word(metadata, 0), Word(metadata, 4);
    if (version != 3 && version != 4) || !Zeros(metadata, 12, 28) || !Zeros(metadata, 104, 112) {
      return Failure;
    }
    if size != Word(metadata, 28) || size > |data| - 4 {
      return Failure;
    }
    var body := data[4..4 + size];
    if crc(body) != checksum {
      return Failure;
    }
    r := DecodeBody(body);
  }

  // ---------------------------------------------------------------- the writer

  function EncodeField(bytes: Bytes): Bytes {
    EncodeVarint(|bytes|) + bytes
  }

  function EncodeRecord(record: Record): (e: Bytes)
    ensures e != []
  {
    EncodeField(record.key) + EncodeField(record.value)
  }

  function EncodeLog(log: seq<Record>): Bytes {
    if log == [] then [] else EncodeRecord(log[0]) + EncodeLog(log[1..])
  }

  predicate Writable(record: Record) {
    ValidKey(record.key) && |record.key| < LIMIT && |record.value| < LIMIT
  }

  predicate AllWritable(log: seq<Record>) {
    forall record :: record in log ==> Writable(record)
  }

  /** A region: any container length, then a log. */
  function Region(container: nat, log: seq<Record>): Bytes {
    EncodeVarint(container) + EncodeLog(log)
  }

  lemma FieldRoundTrip(bytes: Bytes, data: Bytes, position: nat)
    requires |bytes| < LIMIT && position <= |data| && Holds(data, position, EncodeField(bytes))
    ensures FieldAt(data, position) == Success((bytes, position + |EncodeField(bytes)|))
  {
    var head := EncodeVarint(|bytes|);
    SplitHeld(data, position, head, bytes);
    VarintRoundTrip(|bytes|, data, position);
    HeldSlice(data, position + |head|, bytes);
  }

  lemma {:induction false} SplitHeld(data: Bytes, position: nat, a: Bytes, b: Bytes)
    requires Holds(data, position, a + b)
    ensures Holds(data, position, a) && Holds(data, position + |a|, b)
    decreases |a|
  {
    if a == [] {
      assert a + b == b;
    } else {
      assert (a + b)[1..] == a[1..] + b;
      SplitHeld(data, position + 1, a[1..], b);
    }
  }

  lemma RecordRoundTrip(record: Record, data: Bytes, position: nat)
    requires Writable(record) && position <= |data| && Holds(data, position, EncodeRecord(record))
    ensures RecordAt(data, position) == Success((record, position + |EncodeRecord(record)|))
  {
    var key, value := EncodeField(record.key), EncodeField(record.value);
    assert EncodeRecord(record) == key + value;
    SplitHeld(data, position, key, value);
    FieldRoundTrip(record.key, data, position);
    FieldRoundTrip(record.value, data, position + |key|);
    assert position + |key| + |value| == position + |EncodeRecord(record)|;
  }

  /** Reading back a written log gives that log. */
  lemma {:induction false} LogRoundTrip(log: seq<Record>, data: Bytes, position: nat)
    requires AllWritable(log)
    requires position + |EncodeLog(log)| == |data| && Holds(data, position, EncodeLog(log))
    ensures RecordsFrom(data, position) == Success(log)
    decreases |log|
  {
    hide RecordAt, EncodeRecord, Holds, Writable;
    if log != [] {
      var first, rest := EncodeRecord(log[0]), EncodeLog(log[1..]);
      assert EncodeLog(log) == first + rest;
      SplitHeld(data, position, first, rest);
      RecordRoundTrip(log[0], data, position);
      LogRoundTrip(log[1..], data, position + |first|);
      assert log == [log[0]] + log[1..];
    }
  }

  /** Decoding a region is replaying its log, whatever container length it starts with. */
  lemma RegionRoundTrip(container: nat, log: seq<Record>)
    requires container < LIMIT && AllWritable(log)
    ensures BodyTable(Region(container, log)) == Success(Replay(log, map[]))
  {
    var body := Region(container, log);
    HeldSlice(body, 0, body);
    SplitHeld(body, 0, EncodeVarint(container), EncodeLog(log));
    VarintRoundTrip(container, body, 0);
    LogRoundTrip(log, body, |EncodeVarint(container)|);
  }

  lemma {:induction false} EncodeLogAppend(a: seq<Record>, b: seq<Record>)
    ensures EncodeLog(a + b) == EncodeLog(a) + EncodeLog(b)
  {
    if a == [] {
      assert a + b == b;
    } else {
      assert (a + b)[1..] == a[1..] + b;
      EncodeLogAppend(a[1..], b);
    }
  }

  lemma {:induction false} ReplayAppend(a: seq<Record>, b: seq<Record>, table: Table)
    ensures Replay(a + b, table) == Replay(b, Replay(a, table))
  {
    if a == [] {
      assert a + b == b;
    } else {
      assert (a + b)[1..] == a[1..] + b;
      ReplayAppend(a[1..], b, Applied(a[0], table));
    }
  }

  lemma RegionAppend(container: nat, a: seq<Record>, b: seq<Record>)
    ensures Region(container, a + b) == Region(container, a) + EncodeLog(b)
  {
    EncodeLogAppend(a, b);
  }

  /** Appending the bytes of a second log applies that log to the table of the first. */
  lemma AppendedLogIsApplied(container: nat, a: seq<Record>, b: seq<Record>)
    requires container < LIMIT && AllWritable(a) && AllWritable(b)
    ensures BodyTable(Region(container, a)).Success?
    ensures BodyTable(Region(container, a) + EncodeLog(b)) == Success(Replay(b, BodyTable(Region(container, a)).value))
  {
    RegionRoundTrip(container, a);
    RegionRoundTrip(container, a + b);
    RegionAppend(container, a, b);
    ReplayAppend(a, b, map[]);
  }

  /** The last value written for a key; the empty value stands for "absent". */
  function LastValue(log: seq<Record>, key: Bytes, before: Bytes): Bytes {
    if log == [] then before
    else if log[|log| - 1].key == key then log[|log| - 1].value
    else LastValue(log[..|log| - 1], key, before)
  }

  /** Last write wins and an empty value deletes, for every key and every log. */
  lemma {:induction false} LastWriteWins(log: seq<Record>, key: Bytes)
    ensures var table := Replay(log, map[]);
      && (key in table <==> LastValue(log, key, []) != [])
      && (key in table ==> table[key] == LastValue(log, key, []))
  {
    if log != [] {
      var rest, last := log[..|log| - 1], log[|log| - 1];
      LastWriteWins(rest, key);
      assert log == rest + [last];
      ReplayAppend(rest, [last], map[]);
      assert [last][1..] == [];
    }
  }

  /** What decoding accepts: every record it replays has a valid key, and no key is stored empty. */
  lemma {:induction false} DecodedTablesAreClean(body: Bytes, position: nat, table: Table)
    requires position <= |body| && forall k :: k in table ==> ValidKey(k) && table[k] != []
    ensures var r := ReplayedFrom(body, position, table);
      r.Success? ==> forall k :: k in r.value ==> ValidKey(k) && r.value[k] != []
    decreases |body| - position
  {
    if position < |body| && RecordAt(body, position).Success? {
      var (record, next) := RecordAt(body, position).value;
      OneMoreRecord(body, position, table);
      DecodedTablesAreClean(body, next, Applied(record, table));
    }
  }

  /** A sealed file around any written log decodes to the replay of that log. */
  lemma FileRoundTrip(container: nat, log: seq<Record>, data: Bytes, metadata: Bytes, crc: Bytes -> nat)
    requires container < LIMIT && AllWritable(log)
    requires Sealed(data, metadata, crc) && data[4..4 + Word(data, 0)] == Region(container, log)
    ensures BodyTable(data[4..4 + Word(data, 0)]) == Success(Replay(log, map[]))
    ensures forall key :: key in Replay(log, map[]) <==> LastValue(log, key, []) != []
  {
    RegionRoundTrip(container, log);
    forall key
      ensures key in Replay(log, map[]) <==> LastValue(log, key, []) != []
    {
      LastWriteWins(log, key);
    }
  }
}
