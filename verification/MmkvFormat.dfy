/**
 What the reader's checks mean: the accepted keys are the UTF-8 encodings of text, and the accepted
 files are exactly those laid out in a fixed way, field after field.
 */
module MmkvFormat {
  import opened Common
  import opened Mmkv

  // ---------------------------------------------------------------- UTF-8

  /** A Unicode scalar value. */
  type Scalar = c: nat | c < 0xD800 || 0xE000 <= c < 0x11_0000

  /** Section 3 of RFC 3629. */
  function Encoding(c: Scalar): (e: Bytes)
    ensures 1 <= |e| <= 4
  {
    if c < 0x80 then [c]
    else if c < 0x800 then [0xC0 + c / 64, 0x80 + c % 64]
    else if c < 0x1_0000 then [0xE0 + c / 4096, 0x80 + c / 64 % 64, 0x80 + c % 64]
    else [0xF0 + c / 262144, 0x80 + c / 4096 % 64, 0x80 + c / 64 % 64, 0x80 + c % 64]
  }

  function Utf8(text: seq<Scalar>): Bytes {
    if text == [] then [] else Encoding(text[0]) + Utf8(text[1..])
  }

  lemma {:induction false} EncodedIsValid(text: seq<Scalar>)
    ensures ValidUtf8(Utf8(text))
  {
    if text != [] {
      var first, rest := Encoding(text[0]), Utf8(text[1..]);
      EncodedIsValid(text[1..]);
      EncodingBytes(text[0]);
      hide Encoding;
      assert (first + rest)[|first|..] == rest;
    }
  }

  /** The bytes of an encoding lie where section 4 of RFC 3629 allows them. */
  lemma EncodingBytes(c: Scalar)
    ensures ValidUtf8(Encoding(c)) && (if Encoding(c)[0] < 0x80 then |Encoding(c)| == 1
      else if Encoding(c)[0] < 0xE0 then |Encoding(c)| == 2 else if Encoding(c)[0] < 0xF0 then |Encoding(c)| == 3
      else |Encoding(c)| == 4)
  {
  }

  /** The numbers whose bits these bytes carry. */
  function Two(a: nat, b: nat): int { (a - 0xC0) * 64 + (b - 0x80) }

  function Three(a: nat, b: nat, c: nat): int { (a - 0xE0) * 4096 + (b - 0x80) * 64 + (c - 0x80) }

  function Four(a: nat, b: nat, c: nat, d: nat): int {
    (a - 0xF0) * 262144 + (b - 0x80) * 4096 + (c - 0x80) * 64 + (d - 0x80)
  }

  /** The scalar whose encoding comes first. */
  lemma FirstEncoding(s: Bytes) returns (c: Scalar)
    requires s != [] && ValidUtf8(s)
    ensures |Encoding(c)| <= |s| && s[..|Encoding(c)|] == Encoding(c) && ValidUtf8(s[|Encoding(c)|..])
  {
    if s[0] < 0x80 {
      c := s[0];
    } else if s[0] < 0xE0 {
      TwoBits(s[0], s[1]);
      c := Two(s[0], s[1]);
    } else if s[0] < 0xF0 {
      ThreeBits(s[0], s[1], s[2]);
      c := Three(s[0], s[1], s[2]);
    } else {
      FourBits(s[0], s[1], s[2], s[3]);
      c := Four(s[0], s[1], s[2], s[3]);
    }
  }

  lemma TwoBits(a: nat, b: nat)
    requires 0xC2 <= a <= 0xDF && 0x80 <= b <= 0xBF
    ensures 0x80 <= Two(a, b) < 0x800 && Encoding(Two(a, b)) == [a, b]
  {
  }

  lemma ThreeBits(a: nat, b: nat, c: nat)
    requires 0xE0 <= a <= 0xEF && 0x80 <= b <= 0xBF && 0x80 <= c <= 0xBF
    requires (a == 0xE0 ==> b >= 0xA0) && (a == 0xED ==> b <= 0x9F)
    ensures 0x800 <= Three(a, b, c) < 0x1_0000 && !(0xD800 <= Three(a, b, c) < 0xE000)
    ensures Encoding(Three(a, b, c)) == [a, b, c]
  {
    var n := Three(a, b, c);
    Digits64(n, a - 0xE0, b - 0x80, c - 0x80);
  }

  lemma FourBits(a: nat, b: nat, c: nat, d: nat)
    requires 0xF0 <= a <= 0xF4 && 0x80 <= b <= 0xBF && 0x80 <= c <= 0xBF && 0x80 <= d <= 0xBF
    requires (a == 0xF0 ==> b >= 0x90) && (a == 0xF4 ==> b <= 0x8F)
    ensures 0x1_0000 <= Four(a, b, c, d) < 0x11_0000 && Encoding(Four(a, b, c, d)) == [a, b, c, d]
  {
    var n := Four(a, b, c, d);
    Digits64(n, (a - 0xF0) * 64 + (b - 0x80), c - 0x80, d - 0x80);
    assert n / 262144 == a - 0xF0;
  }

  lemma Digits64(n: nat, high: nat, middle: nat, low: nat)
    requires n == high * 4096 + middle * 64 + low && middle < 64 && low < 64
    ensures n % 64 == low && n / 64 % 64 == middle && n / 4096 == high
  {
  }

  lemma {:induction false} ValidIsEncoded(s: Bytes) returns (text: seq<Scalar>)
    requires ValidUtf8(s)
    ensures Utf8(text) == s
    decreases |s|
  {
    if s == [] {
      text := [];
    } else {
      var c := FirstEncoding(s);
      var rest := ValidIsEncoded(s[|Encoding(c)|..]);
      text := [c] + rest;
      assert text[1..] == rest;
    }
  }

  /** The accepted bytes are exactly the encodings of text. */
  lemma ValidExactlyWhenEncoded(s: Bytes)
    ensures ValidUtf8(s) <==> exists text :: Utf8(text) == s
  {
    if ValidUtf8(s) {
      var text := ValidIsEncoded(s);
    }
    if text :| Utf8(text) == s {
      EncodedIsValid(text);
    }
  }

  // ---------------------------------------------------------------- files

  function LittleEndian(n: nat): (e: Bytes)
    requires n < LIMIT
    ensures |e| == 4
  {
    [n % 0x100, n / 0x100 % 0x100, n / 0x1_0000 % 0x100, n / 0x100_0000]
  }

  lemma WordBytes(data: Bytes, offset: nat)
    requires offset + 4 <= |data|
    ensures Word(data, offset) < LIMIT && data[offset..offset + 4] == LittleEndian(Word(data, offset))
  {
    var a: nat, b: nat, c: nat, d: nat := data[offset], data[offset + 1], data[offset + 2], data[offset + 3];
    WordDigits(a, b, c, d);
  }

  lemma WordDigits(a: nat, b: nat, c: nat, d: nat)
    requires a < 0x100 && b < 0x100 && c < 0x100 && d < 0x100
    ensures var n := a + 0x100 * b + 0x1_0000 * c + 0x100_0000 * d;
      n < LIMIT && n % 0x100 == a && n / 0x100 % 0x100 == b && n / 0x1_0000 % 0x100 == c && n / 0x100_0000 == d
  {
    var third := c + 0x100 * d;
    var second := b + 0x100 * third;
    LastByte(second, a);
    LastByte(third, b);
    LastByte(d, c);
    Shifts(a + 0x100 * second);
  }

  lemma LastByte(high: nat, low: nat)
    requires low < 0x100
    ensures (low + 0x100 * high) % 0x100 == low && (low + 0x100 * high) / 0x100 == high
  {
  }

  lemma Shifts(n: nat)
    ensures n / 0x1_0000 == n / 0x100 / 0x100 && n / 0x100_0000 == n / 0x100 / 0x100 / 0x100
  {
  }

  lemma LittleEndianSum(n: nat)
    requires n < LIMIT
    ensures var e := LittleEndian(n);
      var a: nat, b: nat, c: nat, d: nat := e[0], e[1], e[2], e[3];
      a + 0x100 * b + 0x1_0000 * c + 0x100_0000 * d == n
  {
    Shifts(n);
  }

  lemma WordRead(data: Bytes, offset: nat, n: nat)
    requires offset + 4 <= |data| && n < LIMIT && data[offset..offset + 4] == LittleEndian(n)
    ensures Word(data, offset) == n
  {
    LittleEndianSum(n);
    hide LittleEndian;
    var e := data[offset..offset + 4];
    assert data[offset] == e[0] && data[offset + 1] == e[1] && data[offset + 2] == e[2] && data[offset + 3] == e[3];
  }

  /** The parts of a storage file and of its metadata file. */
  datatype File = File(region: Bytes, unused: Bytes, version: nat, sequence: Bytes, between: Bytes, rest: Bytes)

  predicate Allowed(f: File) {
    && 4 + |f.region| + |f.unused| <= 16_777_216 && (f.version == 3 || f.version == 4)
    && |f.sequence| == 4 && |f.between| == 72
  }

  function Blank(n: nat): (z: Bytes)
    ensures |z| == n
  {
    seq(n, _ => 0)
  }

  function Data(f: File): Bytes
    requires Allowed(f)
  {
    LittleEndian(|f.region|) + (f.region + f.unused)
  }

  function Metadata(f: File, checksum: nat): Bytes
    requires Allowed(f) && checksum < LIMIT
  {
    LittleEndian(checksum) + LittleEndian(f.version) + f.sequence + Blank(16) + LittleEndian(|f.region|)
    + f.between + Blank(8) + f.rest
  }

  lemma WrittenIsSealed(f: File, crc: Bytes -> nat)
    requires Allowed(f) && crc(f.region) < LIMIT
    ensures var data := Data(f);
      Sealed(data, Metadata(f, crc(f.region)), crc) && data[4..4 + Word(data, 0)] == f.region
  {
    var data, metadata := Data(f), Metadata(f, crc(f.region));
    assert data[0..4] == LittleEndian(|f.region|);
    WordRead(data, 0, |f.region|);
    assert data[4..4 + |f.region|] == f.region;
    assert metadata[0..4] == LittleEndian(crc(f.region));
    WordRead(metadata, 0, crc(f.region));
    assert metadata[4..8] == LittleEndian(f.version);
    WordRead(metadata, 4, f.version);
    assert metadata[28..32] == LittleEndian(|f.region|);
    WordRead(metadata, 28, |f.region|);
    assert metadata[12..28] == Blank(16) && metadata[104..112] == Blank(8);
    BlankIsZeros(metadata, 12, 28);
    BlankIsZeros(metadata, 104, 112);
  }

  lemma BlankIsZeros(data: Bytes, from: nat, to: nat)
    requires from <= to <= |data|
    ensures Zeros(data, from, to) <==> data[from..to] == Blank(to - from)
  {
    if data[from..to] == Blank(to - from) {
      forall k | from <= k < to
        ensures data[k] == 0
      {
        assert data[k] == data[from..to][k - from];
      }
    }
  }

  lemma SealedIsWritten(data: Bytes, metadata: Bytes, crc: Bytes -> nat) returns (f: File)
    requires Sealed(data, metadata, crc)
    ensures Allowed(f) && crc(f.region) < LIMIT && data == Data(f) && metadata == Metadata(f, crc(f.region))
  {
    var size := Word(data, 0);
    f := File(data[4..4 + size], data[4 + size..], Word(metadata, 4), metadata[8..12], metadata[32..104],
              metadata[112..]);
    WordBytes(data, 0);
    WordBytes(metadata, 0);
    WordBytes(metadata, 4);
    WordBytes(metadata, 28);
    hide Word, LittleEndian, Zeros, Blank;
    BlankIsZeros(metadata, 12, 28);
    BlankIsZeros(metadata, 104, 112);
    Pieces(metadata);
    InThree(data, 4, 4 + size);
  }

  lemma InThree(s: Bytes, i: nat, j: nat)
    requires i <= j <= |s|
    ensures s == s[0..i] + (s[i..j] + s[j..])
  {
  }

  lemma Pieces(m: Bytes)
    requires |m| >= 112
    ensures m == m[0..4] + m[4..8] + m[8..12] + m[12..28] + m[28..32] + m[32..104] + m[104..112] + m[112..]
  {
  }

  /** The files whose region is read are exactly those with this layout and the region's checksum. */
  lemma SealedExactlyWhenWritten(data: Bytes, metadata: Bytes, crc: Bytes -> nat)
    ensures Sealed(data, metadata, crc) <==>
      exists f :: Allowed(f) && crc(f.region) < LIMIT && data == Data(f) && metadata == Metadata(f, crc(f.region))
  {
    if Sealed(data, metadata, crc) {
      var f := SealedIsWritten(data, metadata, crc);
    }
    if f :| Allowed(f) && crc(f.region) < LIMIT && data == Data(f) && metadata == Metadata(f, crc(f.region)) {
      WrittenIsSealed(f, crc);
    }
  }

  /** A file written around a log is read as that log's last writes, whatever else the file holds. */
  lemma WrittenFileIsRead(f: File, container: nat, log: seq<Record>, crc: Bytes -> nat)
    requires Allowed(f) && crc(f.region) < LIMIT
    requires container < LIMIT && AllWritable(log) && f.region == Region(container, log)
    ensures var data := Data(f);
      && Sealed(data, Metadata(f, crc(f.region)), crc)
      && BodyTable(data[4..4 + Word(data, 0)]) == Success(Replay(log, map[]))
  {
    WrittenIsSealed(f, crc);
    FileRoundTrip(container, log, Data(f), Metadata(f, crc(f.region)), crc);
  }
}
