/**
 Reading compact JSON text as `json.loads(text, parse_float=Decimal)` does, and the round trip:
 what is read from a canonical text is the value that was printed, number by number.
 */
module JsonReader {
  import opened Common
  import opened Decimals
  import opened JsonValues
  import opened JsonContent
  import opened Canonical

  // ---------------------------------------------------------------- numbers

  predicate StartsWith(s: string, c: char) {
    s != "" && s[0] == c
  }

  predicate StartsDigit(s: string) {
    s != "" && '0' <= s[0] <= '9'
  }

  /** The longest run of digits at the start of a text. */
  function TakeDigits(s: string): (digits: seq<Digit>)
    ensures |digits| <= |s|
    ensures digits != [] <==> StartsDigit(s)
  {
    if StartsDigit(s) then
      var digit: Digit := s[0] as int - '0' as int;
      [digit] + TakeDigits(s[1..])
    else []
  }

  /** JSON's integer part: a lone zero, or digits that do not start with one. */
  function ReadWhole(s: string): (r: Option<(seq<Digit>, string)>)
    ensures r.Some? ==> |r.value.1| < |s|
  {
    if !StartsDigit(s) then None
    else if s[0] == '0' then Some(([0], s[1..]))
    else Some((TakeDigits(s), s[|TakeDigits(s)|..]))
  }

  function ReadFraction(s: string): (r: (seq<Digit>, string))
    ensures |r.1| <= |s|
  {
    if StartsWith(s, '.') && StartsDigit(s[1..]) then (TakeDigits(s[1..]), s[1..][|TakeDigits(s[1..])|..]) else ([], s)
  }

  /** The digits of an exponent with an optional sign. */
  function ReadSigned(s: string): (r: Option<(int, string)>)
    ensures r.Some? ==> |r.value.1| <= |s|
  {
    var signed := StartsWith(s, '+') || StartsWith(s, '-');
    var body := if signed then s[1..] else s;
    var digits := TakeDigits(body);
    if digits == [] then None
    else
      var size: int := Coefficient(digits);
      Some((if StartsWith(s, '-') then -size else size, body[|digits|..]))
  }

  function ReadExponent(s: string): (r: (Option<int>, string))
    ensures |r.1| <= |s|
  {
    if StartsWith(s, 'e') || StartsWith(s, 'E') then
      match ReadSigned(s[1..])
      case None => (None, s)
      case Some((e, rest)) => (Some(e), rest)
    else (None, s)
  }

  function ReadUnsigned(negative: bool, s: string): (r: Option<(Numeral, string)>)
    ensures r.Some? ==> |r.value.1| < |s|
  {
    match ReadWhole(s)
    case None => None
    case Some((whole, afterWhole)) =>
      var (fraction, afterFraction) := ReadFraction(afterWhole);
      var (exponent, rest) := ReadExponent(afterFraction);
      Some((Numeral(negative, whole, fraction, exponent), rest))
  }

  function ReadNumeral(s: string): (r: Option<(Numeral, string)>)
    ensures r.Some? ==> |r.value.1| < |s|
  {
    if StartsWith(s, '-') then ReadUnsigned(true, s[1..]) else ReadUnsigned(false, s)
  }

  /** `str(int(digits))`. */
  function Stripped(digits: seq<Digit>): seq<Digit> {
    if |digits| > 1 && digits[0] == 0 then Stripped(digits[1..]) else digits
  }

  /** An integer when nothing but a whole part was read, else the decimal with exactly these digits. */
  function NumeralValue(n: Numeral): Json {
    var exponent := if n.exponent.Some? then n.exponent.value else 0;
    if n.fraction == [] && n.exponent.None? then
      Int(if n.negative then -(Coefficient(n.whole) as int) else Coefficient(n.whole))
    else Dec(Decimal(n.negative, Stripped(n.whole + n.fraction), exponent - |n.fraction|))
  }

  // ---------------------------------------------------------------- text

  function HexValue(c: char): Option<nat> {
    if '0' <= c <= '9' then Some(c as int - '0' as int)
    else if 'a' <= c <= 'f' then Some(c as int - 'a' as int + 10)
    else if 'A' <= c <= 'F' then Some(c as int - 'A' as int + 10)
    else None
  }

  lemma HexDigitsRead(n: nat)
    requires n < 16
    ensures HexValue(HexDigit(n)) == Some(n)
    ensures HexValue("0123456789abcdef"[n]) == HexValue("0123456789ABCDEF"[n]) == Some(n)
  {
  }

  /** A four-digit escape; escapes of surrogates are not read. */
  function ReadHex(s: string): Option<char> {
    if |s| < 4 then None
    else
      var a, b, c, d := HexValue(s[0]), HexValue(s[1]), HexValue(s[2]), HexValue(s[3]);
      if a.None? || b.None? || c.None? || d.None? then None
      else
        var code := 0x1000 * a.value + 0x100 * b.value + 0x10 * c.value + d.value;
        if code < 0xD800 || 0xE000 <= code < 0x1_0000 then Some(code as char) else None
  }

  function Unescaped(c: char): Option<char> {
    if c == '\"' || c == '\\' || c == '/' then Some(c)
    else if c == 'n' then Some('\n')
    else if c == 'r' then Some('\r')
    else if c == 't' then Some('\t')
    else if c == 'f' then Some(12 as char)
    else if c == 'b' then Some(8 as char)
    else None
  }

  /** The next character of a quoted text and what follows it. */
  function ReadChar(s: string): (r: Option<(char, string)>)
    ensures r.Some? ==> |r.value.1| < |s|
  {
    if s == "" || s[0] as int < 32 || s[0] == '\"' then None
    else if s[0] != '\\' then Some((s[0], s[1..]))
    else if |s| < 2 then None
    else if s[1] == 'u' then
      match ReadHex(s[2..])
      case None => None
      case Some(c) => Some((c, s[6..]))
    else
      match Unescaped(s[1])
      case None => None
      case Some(c) => Some((c, s[2..]))
  }

  /** The rest of a quoted text, after its opening quote. */
  function ReadText(s: string): (r: Option<(string, string)>)
    ensures r.Some? ==> |r.value.1| < |s|
    decreases |s|
  {
    if StartsWith(s, '\"') then Some(("", s[1..]))
    else
      match ReadChar(s)
      case None => None
      case Some((c, rest)) =>
        match ReadText(rest)
        case None => None
        case Some((text, after)) => Some(([c] + text, after))
  }

  // ---------------------------------------------------------------- values

  /** A later entry of the same name replaces an earlier one. */
  function Dictionary(f: Fields): Fields {
    if f.NoFields? then NoFields
    else
      var rest := Dictionary(f.rest);
      if Has(rest, f.name) then Field(f.name, Lookup(rest, f.name).value, Without(rest, f.name))
      else Field(f.name, f.value, rest)
  }

  function ReadLiteral(s: string, literal: string, v: Json): (r: Option<(Json, string)>)
    requires literal != ""
    ensures r.Some? ==> |r.value.1| < |s|
  {
    if |literal| <= |s| && s[..|literal|] == literal then Some((v, s[|literal|..])) else None
  }

  function ReadNumber(s: string): (r: Option<(Json, string)>)
    ensures r.Some? ==> |r.value.1| < |s|
  {
    match ReadNumeral(s)
    case None => None
    case Some((numeral, rest)) => Some((NumeralValue(numeral), rest))
  }

  function ReadValue(s: string): (r: Option<(Json, string)>)
    ensures r.Some? ==> |r.value.1| < |s|
    decreases |s|, 1
  {
    if StartsDigit(s) || StartsWith(s, '-') then ReadNumber(s)
    else if StartsWith(s, 'n') then ReadLiteral(s, "null", Null)
    else if StartsWith(s, 't') then ReadLiteral(s, "true", Bool(true))
    else if StartsWith(s, 'f') then ReadLiteral(s, "false", Bool(false))
    else if StartsWith(s, '\"') then
      match ReadText(s[1..])
      case None => None
      case Some((text, rest)) => Some((Text(text), rest))
    else if StartsWith(s, '[') then
      if StartsWith(s[1..], ']') then Some((List(NoItems), s[2..]))
      else
        match ReadItems(s[1..])
        case None => None
        case Some((items, rest)) => Some((List(items), rest))
    else if StartsWith(s, '{') then
      if StartsWith(s[1..], '}') then Some((Object(NoFields), s[2..]))
      else
        match ReadFields(s[1..])
        case None => None
        case Some((fields, rest)) => Some((Object(Dictionary(fields)), rest))
    else None
  }

  function ReadItems(s: string): (r: Option<(Items, string)>)
    ensures r.Some? ==> |r.value.1| < |s|
    decreases |s|, 2
  {
    match ReadValue(s)
    case None => None
    case Some((head, rest)) =>
      if StartsWith(rest, ']') then Some((Item(head, NoItems), rest[1..]))
      else if StartsWith(rest, ',') then
        match ReadItems(rest[1..])
        case None => None
        case Some((tail, after)) => Some((Item(head, tail), after))
      else None
  }

  function ReadFields(s: string): (r: Option<(Fields, string)>)
    ensures r.Some? ==> |r.value.1| < |s|
    decreases |s|, 2
  {
    if !StartsWith(s, '\"') then None
    else
      match ReadText(s[1..])
      case None => None
      case Some((name, colon)) =>
        if !StartsWith(colon, ':') then None
        else
          match ReadValue(colon[1..])
          case None => None
          case Some((value, rest)) =>
            if StartsWith(rest, '}') then Some((Field(name, value, NoFields), rest[1..]))
            else if StartsWith(rest, ',') then
              match ReadFields(rest[1..])
              case None => None
              case Some((others, after)) => Some((Field(name, value, others), after))
            else None
  }

  /** A whole text. */
  function Read(s: string): Option<Json> {
    match ReadValue(s)
    case Some((v, "")) => Some(v)
    case _ => None
  }

  // ---------------------------------------------------------------- numbers read back

  lemma {:induction false} DigitsRead(digits: seq<Digit>, rest: string)
    requires !StartsDigit(rest)
    ensures TakeDigits(Chars(digits) + rest) == digits
    ensures |Chars(digits)| == |digits|
  {
    if digits == [] {
      assert Chars(digits) + rest == rest;
    } else {
      assert (Chars(digits) + rest)[1..] == Chars(digits[1..]) + rest;
      DigitsRead(digits[1..], rest);
    }
  }

  lemma AfterDigits(digits: seq<Digit>, rest: string)
    requires !StartsDigit(rest)
    ensures TakeDigits(Chars(digits) + rest) == digits
    ensures (Chars(digits) + rest)[|digits|..] == rest
  {
    DigitsRead(digits, rest);
  }

  lemma WholeRead(digits: seq<Digit>, rest: string)
    requires CanonicalDigits(digits) && !StartsDigit(rest)
    ensures ReadWhole(Chars(digits) + rest) == Some((digits, rest))
  {
    AfterDigits(digits, rest);
    if digits[0] == 0 {
      assert digits == [0];
    }
  }

  lemma FractionFrom(s: string, digits: seq<Digit>, rest: string)
    requires StartsWith(s, '.') && digits != [] && TakeDigits(s[1..]) == digits && s[1..][|digits|..] == rest
    ensures ReadFraction(s) == (digits, rest)
  {
  }

  lemma FractionRead(fraction: seq<Digit>, rest: string)
    requires !StartsDigit(rest) && !StartsWith(rest, '.')
    ensures ReadFraction(FractionText(fraction) + rest) == (fraction, rest)
  {
    if fraction == [] {
      assert FractionText(fraction) + rest == rest;
    } else {
      AfterDigits(fraction, rest);
      TailOf('.', Chars(fraction), rest);
      FractionFrom(FractionText(fraction) + rest, fraction, rest);
    }
  }

  /** What may follow a number without being taken for a part of it. */
  predicate Delimits(rest: string) {
    !StartsDigit(rest) && !StartsWith(rest, '.') && !StartsWith(rest, 'e') && !StartsWith(rest, 'E')
  }

  lemma SignedFrom(s: string, e: int, body: string, digits: seq<Digit>, rest: string)
    requires StartsWith(s, if e < 0 then '-' else '+') && s[1..] == body
    requires TakeDigits(body) == digits && digits != [] && body[|digits|..] == rest
    requires Coefficient(digits) == if e < 0 then -e else e
    ensures ReadSigned(s) == Some((e, rest))
  {
  }

  lemma SignedRead(e: int, rest: string)
    requires !StartsDigit(rest)
    ensures ReadSigned(SignedText(e) + rest) == Some((e, rest))
  {
    var digits := DigitsOf(if e < 0 then -e else e);
    AfterDigits(digits, rest);
    TailOf(if e < 0 then '-' else '+', Chars(digits), rest);
    SignedFrom(SignedText(e) + rest, e, Chars(digits) + rest, digits, rest);
  }

  /** Removing the first character of a text. */
  lemma TailOf(c: char, text: string, rest: string)
    ensures StartsWith([c] + text + rest, c) && ([c] + text + rest)[1..] == text + rest
  {
  }

  lemma ExponentFrom(s: string, e: int, rest: string)
    requires StartsWith(s, 'E') && ReadSigned(s[1..]) == Some((e, rest))
    ensures ReadExponent(s) == (Some(e), rest)
  {
  }

  lemma ExponentRead(exponent: Option<int>, rest: string)
    requires Delimits(rest)
    ensures ReadExponent(ExponentText(exponent) + rest) == (exponent, rest)
    ensures !StartsDigit(ExponentText(exponent) + rest) && !StartsWith(ExponentText(exponent) + rest, '.')
  {
    if exponent.Some? {
      SignedRead(exponent.value, rest);
      TailOf('E', SignedText(exponent.value), rest);
      ExponentFrom(ExponentText(exponent) + rest, exponent.value, rest);
    } else {
      assert ExponentText(exponent) + rest == rest;
    }
  }

  lemma UnsignedFrom(n: Numeral, s: string, afterWhole: string, afterFraction: string, rest: string)
    requires ReadWhole(s) == Some((n.whole, afterWhole))
    requires ReadFraction(afterWhole) == (n.fraction, afterFraction)
    requires ReadExponent(afterFraction) == (n.exponent, rest)
    ensures ReadUnsigned(n.negative, s) == Some((n, rest))
  {
  }

  lemma FractionStart(fraction: seq<Digit>, rest: string)
    requires !StartsDigit(rest)
    ensures !StartsDigit(FractionText(fraction) + rest)
  {
    if fraction == [] {
      assert FractionText(fraction) + rest == rest;
    }
  }

  lemma UnsignedRead(n: Numeral, rest: string)
    requires CanonicalDigits(n.whole) && Delimits(rest)
    ensures ReadUnsigned(n.negative, UnsignedText(n) + rest) == Some((n, rest))
    ensures StartsDigit(UnsignedText(n) + rest)
  {
    var afterFraction := ExponentText(n.exponent) + rest;
    var afterWhole := FractionText(n.fraction) + afterFraction;
    ExponentRead(n.exponent, rest);
    FractionRead(n.fraction, afterFraction);
    FractionStart(n.fraction, afterFraction);
    WholeRead(n.whole, afterWhole);
    Regroup(Chars(n.whole), FractionText(n.fraction), ExponentText(n.exponent), rest);
    UnsignedFrom(n, Chars(n.whole) + afterWhole, afterWhole, afterFraction, rest);
  }

  lemma Regroup(a: string, b: string, c: string, rest: string)
    ensures (a + (b + c)) + rest == a + (b + (c + rest))
  {
  }

  lemma NumeralFrom(s: string, n: Numeral, rest: string)
    requires StartsWith(s, '-') == n.negative
    requires ReadUnsigned(n.negative, if n.negative then s[1..] else s) == Some((n, rest))
    ensures ReadNumeral(s) == Some((n, rest))
  {
  }

  lemma NumeralRead(n: Numeral, rest: string)
    requires CanonicalDigits(n.whole) && Delimits(rest)
    ensures ReadNumeral(NumeralText(n) + rest) == Some((n, rest))
    ensures StartsDigit(NumeralText(n) + rest) || StartsWith(NumeralText(n) + rest, '-')
  {
    UnsignedRead(n, rest);
    TailOf('-', UnsignedText(n), rest);
    NumeralFrom(NumeralText(n) + rest, n, rest);
  }

  lemma {:induction false} StrippedZeros(n: nat, digits: seq<Digit>)
    requires CanonicalDigits(digits)
    ensures Stripped(Zeros(n) + digits) == digits
  {
    if n == 0 {
      assert Zeros(0) + digits == digits;
    } else {
      assert (Zeros(n) + digits)[1..] == Zeros(n - 1) + digits;
      StrippedZeros(n - 1, digits);
    }
  }

  lemma AllDigits(whole: seq<Digit>, fraction: seq<Digit>, digits: seq<Digit>)
    requires CanonicalDigits(digits) && whole + fraction == digits
    ensures Stripped(whole + fraction) == digits
  {
    StrippedZeros(0, digits);
    assert Zeros(0) + digits == digits;
  }

  /** A printed decimal has exactly its digits and exponent. */
  lemma DecimalRead(d: Decimal)
    requires WellFormed(d)
    ensures CanonicalDigits(NumeralOf(d).whole) && NumeralValue(NumeralOf(d)) == Reloaded(d)
  {
    var left := d.exponent + |d.digits|;
    if d.exponent <= 0 && left > -6 {
      if left <= 0 {
        SmallRead(d);
      } else {
        AllDigits(d.digits[..left], d.digits[left..], d.digits);
        if left == |d.digits| {
          assert d.digits[..left] == d.digits;
        }
      }
    } else {
      AllDigits(d.digits[..1], d.digits[1..], d.digits);
    }
  }

  lemma SmallRead(d: Decimal)
    requires WellFormed(d) && -6 < d.exponent + |d.digits| <= 0
    ensures NumeralValue(NumeralOf(d)) == Dec(d)
  {
    var left := d.exponent + |d.digits|;
    assert [0] + (Zeros(-left) + d.digits) == Zeros(1 - left) + d.digits;
    StrippedZeros(1 - left, d.digits);
  }

  // ---------------------------------------------------------------- text read back

  lemma HexRead(n: nat)
    requires n < 16
    ensures HexValue(HexDigit(n)) == Some(n)
  {
  }

  lemma CharRead(c: char, rest: string)
    ensures ReadChar(EscapedChar(c) + rest) == Some((c, rest))
    ensures !StartsWith(EscapedChar(c) + rest, '\"')
  {
    var s := EscapedChar(c) + rest;
    if |EscapedChar(c)| == 6 {
      ControlRead(c, rest);
    } else if |EscapedChar(c)| == 2 {
      assert s[2..] == rest;
    } else {
      assert s[1..] == rest;
    }
  }

  lemma ControlRead(c: char, rest: string)
    requires |EscapedChar(c)| == 6
    ensures ReadChar(EscapedChar(c) + rest) == Some((c, rest))
  {
    var s := EscapedChar(c) + rest;
    HexRead(c as int / 16);
    HexRead(c as int % 16);
    assert s[6..] == rest;
    assert s[2..][0] == '0' && s[2..][1] == '0';
    assert s[2..][2] == HexDigit(c as int / 16) && s[2..][3] == HexDigit(c as int % 16);
    assert 0x10 * (c as int / 16) + c as int % 16 == c as int;
    assert ReadHex(s[2..]) == Some((c as int) as char);
    assert (c as int) as char == c;
    assert s[0] == '\\' && s[1] == 'u';
  }

  lemma {:induction false} TextRead(text: string, rest: string)
    ensures ReadText(Escaped(text) + ("\"" + rest)) == Some((text, rest))
  {
    hide EscapedChar, ReadChar;
    if text == "" {
      assert Escaped(text) + ("\"" + rest) == "\"" + rest;
    } else {
      var after := Escaped(text[1..]) + ("\"" + rest);
      assert Escaped(text) + ("\"" + rest) == EscapedChar(text[0]) + after;
      CharRead(text[0], after);
      TextRead(text[1..], rest);
      assert [text[0]] + text[1..] == text;
    }
  }

  lemma QuotedRead(text: string, rest: string)
    ensures StartsWith(Quoted(text) + rest, '\"')
    ensures ReadText((Quoted(text) + rest)[1..]) == Some((text, rest))
  {
    assert (Quoted(text) + rest)[1..] == Escaped(text) + ("\"" + rest);
    TextRead(text, rest);
  }

  // ---------------------------------------------------------------- values read back

  lemma {:induction false} DistinctIsDictionary(f: Fields)
    requires Distinct(f)
    ensures Dictionary(f) == f
  {
    if f.Field? {
      DistinctIsDictionary(f.rest);
    }
  }

  lemma NumberValue(n: Numeral, rest: string)
    requires CanonicalDigits(n.whole) && Delimits(rest)
    ensures ReadValue(NumeralText(n) + rest) == Some((NumeralValue(n), rest))
  {
    NumberRead(n, rest);
    NumberFirst(NumeralText(n) + rest);
  }

  lemma NumberRead(n: Numeral, rest: string)
    requires CanonicalDigits(n.whole) && Delimits(rest)
    ensures ReadNumber(NumeralText(n) + rest) == Some((NumeralValue(n), rest))
    ensures StartsDigit(NumeralText(n) + rest) || StartsWith(NumeralText(n) + rest, '-')
  {
    NumeralRead(n, rest);
  }

  lemma NumberFirst(s: string)
    requires StartsDigit(s) || StartsWith(s, '-')
    ensures ReadValue(s) == ReadNumber(s)
  {
  }

  /** Reading a printed value followed by anything that cannot extend it. */
  lemma {:induction false} ValueRead(v: Json, rest: string)
    requires Valid(v) && Delimits(rest)
    ensures ReadValue(Print(v) + rest) == Some((Numbers(v), rest))
    decreases v
  {
    match v
    case Null => LiteralRead("null", Null, rest);
    case Bool(flag) => LiteralRead(if flag then "true" else "false", v, rest);
    case Int(n) => NumberValue(IntNumeral(n), rest);
    case Dec(d) =>
      DecimalRead(d);
      NumberValue(NumeralOf(d), rest);
    case Text(text) =>
      QuotedRead(text, rest);
      TextFirst(Quoted(text) + rest, text, rest);
    case List(items) => ListRead(items, rest);
    case Object(fields) => ObjectRead(fields, rest);
  }

  lemma LiteralRead(literal: string, v: Json, rest: string)
    requires (literal == "null" && v == Null) || (literal == "true" && v == Bool(true))
      || (literal == "false" && v == Bool(false))
    ensures ReadValue(literal + rest) == Some((v, rest))
  {
    var s := literal + rest;
    assert s[0] == literal[0] && s[..|literal|] == literal && s[|literal|..] == rest;
  }

  lemma TextFirst(s: string, text: string, rest: string)
    requires StartsWith(s, '\"') && ReadText(s[1..]) == Some((text, rest))
    ensures ReadValue(s) == Some((Text(text), rest))
  {
  }

  lemma ListFirst(s: string, items: Items, rest: string)
    requires StartsWith(s, '[')
    requires if items.NoItems? then StartsWith(s[1..], ']') && s[2..] == rest
             else !StartsWith(s[1..], ']') && ReadItems(s[1..]) == Some((items, rest))
    ensures ReadValue(s) == Some((List(items), rest))
  {
    hide ReadNumber, ReadText, ReadFields, Dictionary;
  }

  lemma EmptyObject(s: string, rest: string)
    requires StartsWith(s, '{') && StartsWith(s[1..], '}') && s[2..] == rest
    ensures ReadValue(s) == Some((Object(NoFields), rest))
  {
  }

  lemma ObjectFirst(s: string, fields: Fields, rest: string)
    requires StartsWith(s, '{') && !StartsWith(s[1..], '}') && ReadFields(s[1..]) == Some((fields, rest))
    ensures ReadValue(s) == Some((Object(Dictionary(fields)), rest))
  {
    hide ReadNumber, ReadText, ReadItems, Dictionary;
  }

  lemma {:induction false} ListRead(items: Items, rest: string)
    requires ValidItems(items) && Delimits(rest)
    ensures ReadValue(Print(List(items)) + rest) == Some((List(NumbersItems(items)), rest))
    decreases items, 1
  {
    var s := Print(List(items)) + rest;
    if items.NoItems? {
      assert s == "[]" + rest;
      assert s[1..] == "]" + rest && s[2..] == rest;
    } else {
      TailOf('[', PrintItems(items), rest);
      ItemsRead(items, rest);
    }
    ListFirst(s, NumbersItems(items), rest);
  }

  lemma Opens(v: Json)
    requires Valid(v)
    ensures Print(v) != "" && Print(v)[0] != ']'
  {
    match v
    case Int(n) => NumberRead(IntNumeral(n), "");
    case Dec(d) => DecimalRead(d);
    case _ =>
  }

  lemma ItemsFrom(s: string, head: Json, after: string, tail: Items, rest: string)
    requires ReadValue(s) == Some((head, after))
    requires if tail.NoItems? then StartsWith(after, ']') && after[1..] == rest
             else StartsWith(after, ',') && ReadItems(after[1..]) == Some((tail, rest))
    ensures ReadItems(s) == Some((Item(head, tail), rest))
  {
  }

  lemma {:induction false} ItemsRead(items: Items, rest: string)
    requires items.Item? && ValidItems(items)
    ensures ReadItems(PrintItems(items) + rest) == Some((NumbersItems(items), rest))
    ensures !StartsWith(PrintItems(items) + rest, ']')
    decreases items, 0
  {
    hide ReadValue, ReadItems, Print, Numbers, Valid;
    var last := if items.tail.NoItems? then "]" else "," + PrintItems(items.tail);
    var after := last + rest;
    ValueRead(items.head, after);
    Opens(items.head);
    if items.tail.NoItems? {
      assert after[1..] == rest;
    } else {
      TailOf(',', PrintItems(items.tail), rest);
      ItemsRead(items.tail, rest);
    }
    assert PrintItems(items) + rest == Print(items.head) + after;
    ItemsFrom(Print(items.head) + after, Numbers(items.head), after, NumbersItems(items.tail), rest);
  }

  lemma FieldsFrom(s: string, name: string, colon: string, value: Json, after: string, others: Fields, rest: string)
    requires StartsWith(s, '\"') && ReadText(s[1..]) == Some((name, colon))
    requires StartsWith(colon, ':') && ReadValue(colon[1..]) == Some((value, after))
    requires if others.NoFields? then StartsWith(after, '}') && after[1..] == rest
             else StartsWith(after, ',') && ReadFields(after[1..]) == Some((others, rest))
    ensures ReadFields(s) == Some((Field(name, value, others), rest))
  {
  }

  lemma {:induction false} FieldsRead(f: Fields, rest: string)
    requires f.Field? && ValidFields(f)
    ensures ReadFields(PrintFields(f) + rest) == Some((NumbersFields(f), rest))
    ensures !StartsWith(PrintFields(f) + rest, '}')
    decreases f, 0
  {
    hide ReadValue, ReadFields, Print, Numbers, Valid;
    var last := if f.rest.NoFields? then "}" else "," + PrintFields(f.rest);
    var after := last + rest;
    var colon := ":" + (Print(f.value) + after);
    ValueRead(f.value, after);
    if f.rest.NoFields? {
      assert after[1..] == rest;
    } else {
      TailOf(',', PrintFields(f.rest), rest);
      FieldsRead(f.rest, rest);
    }
    QuotedRead(f.name, colon);
    assert colon[1..] == Print(f.value) + after;
    FieldsText(Quoted(f.name), Print(f.value), last, rest);
    FieldsFrom(Quoted(f.name) + colon, f.name, colon, Numbers(f.value), after, NumbersFields(f.rest), rest);
  }

  lemma FieldsText(name: string, value: string, last: string, rest: string)
    ensures (name + (":" + (value + last))) + rest == name + (":" + (value + (last + rest)))
  {
  }

  lemma {:induction false} ObjectRead(fields: Fields, rest: string)
    requires ValidFields(fields) && Distinct(fields) && Delimits(rest)
    ensures ReadValue(Print(Object(fields)) + rest) == Some((Object(NumbersFields(fields)), rest))
    decreases fields, 1
  {
    var s := Print(Object(fields)) + rest;
    if fields.NoFields? {
      assert s == "{}" + rest;
      assert s[1..] == "}" + rest && s[2..] == rest;
      EmptyObject(s, rest);
    } else {
      TailOf('{', PrintFields(fields), rest);
      FieldsRead(fields, rest);
      ObjectFirst(s, NumbersFields(fields), rest);
      NumbersHas(fields, "");
      DistinctIsDictionary(NumbersFields(fields));
    }
  }

  // ---------------------------------------------------------------- anything read is valid

  lemma {:induction false} StrippedCanonical(digits: seq<Digit>)
    requires digits != []
    ensures CanonicalDigits(Stripped(digits))
    decreases |digits|
  {
    if |digits| > 1 && digits[0] == 0 {
      StrippedCanonical(digits[1..]);
    }
  }

  lemma {:induction false} WithoutKeeps(f: Fields, name: string, key: string)
    ensures Lookup(Without(f, name), key) == if key == name then None else Lookup(f, key)
    ensures Distinct(f) ==> Distinct(Without(f, name))
    ensures ValidFields(f) ==> ValidFields(Without(f, name))
  {
    if f.Field? {
      WithoutKeeps(f.rest, name, key);
      WithoutKeeps(f.rest, name, f.name);
    }
  }

  lemma {:induction false} DictionaryValid(f: Fields)
    requires ValidFields(f)
    ensures Valid(Object(Dictionary(f)))
  {
    if f.Field? {
      DictionaryValid(f.rest);
      var rest := Dictionary(f.rest);
      if Has(rest, f.name) {
        ValidLookup(rest, f.name);
        WithoutKeeps(rest, f.name, f.name);
      }
    }
  }

  lemma NumberValid(s: string)
    ensures ReadNumber(s).Some? ==> Valid(ReadNumber(s).value.0)
  {
    if ReadNumeral(s).Some? {
      var n := ReadNumeral(s).value.0;
      StrippedCanonical(n.whole + n.fraction);
    }
  }

  /** Whatever text is read, the value is one the program can hold. */
  lemma {:induction false} ReadValid(s: string)
    ensures ReadValue(s).Some? ==> Valid(ReadValue(s).value.0)
    decreases |s|, 1
  {
    if StartsDigit(s) || StartsWith(s, '-') {
      NumberValid(s);
    } else if StartsWith(s, '[') {
      ReadItemsValid(s[1..]);
    } else if StartsWith(s, '{') {
      ReadFieldsValid(s[1..]);
      if ReadFields(s[1..]).Some? {
        DictionaryValid(ReadFields(s[1..]).value.0);
      }
    }
  }

  lemma {:induction false} ReadItemsValid(s: string)
    ensures ReadItems(s).Some? ==> ValidItems(ReadItems(s).value.0)
    decreases |s|, 2
  {
    ReadValid(s);
    if ReadValue(s).Some? {
      var rest := ReadValue(s).value.1;
      if StartsWith(rest, ',') {
        ReadItemsValid(rest[1..]);
      }
    }
  }

  lemma {:induction false} ReadFieldsValid(s: string)
    ensures ReadFields(s).Some? ==> ValidFields(ReadFields(s).value.0)
    decreases |s|, 2
  {
    if StartsWith(s, '\"') && ReadText(s[1..]).Some? {
      var colon := ReadText(s[1..]).value.1;
      if StartsWith(colon, ':') {
        ReadValid(colon[1..]);
        if ReadValue(colon[1..]).Some? {
          var rest := ReadValue(colon[1..]).value.1;
          if StartsWith(rest, ',') {
            ReadFieldsValid(rest[1..]);
          }
        }
      }
    }
  }

  // ---------------------------------------------------------------- main results

  /** Decoding a canonical text gives the printed value back, every digit and exponent included. */
  lemma ReadsBack(v: Json)
    requires Valid(v)
    ensures Read(Encoded(v)) == Some(Reread(v))
  {
    SortedValid(v);
    ValueRead(Sorted(v), "");
    assert Print(Sorted(v)) + "" == Print(Sorted(v));
  }

  /** A decoded value encodes and decodes to itself. */
  lemma DecodedIsFixed(v: Json)
    requires Valid(v)
    ensures Valid(Reread(v)) && Read(Encoded(Reread(v))) == Some(Reread(v))
  {
    RereadValid(v);
    RereadSettles(v);
    SettledIsFixed(Reread(v));
    ReadsBack(Reread(v));
  }

  /** Equal texts carry equal values. */
  lemma EncodingIsInjective(a: Json, b: Json)
    requires Valid(a) && Valid(b) && Encoded(a) == Encoded(b)
    ensures Reread(a) == Reread(b)
  {
    ReadsBack(a);
    ReadsBack(b);
  }

  /** The text of a dictionary depends on its entries, never on their insertion order. */
  lemma EncodingIgnoresOrder(a: Fields, b: Fields)
    requires Valid(Object(a)) && Valid(Object(b)) && SameEntries(a, b)
    ensures Encoded(Object(a)) == Encoded(Object(b))
  {
    forall key
      ensures Lookup(SortedFields(a), key) == Lookup(SortedFields(b), key)
    {
      SortedLookup(a, key);
      SortedLookup(b, key);
      assert Lookup(a, key) == Lookup(b, key);
    }
    SortedFieldsHas(a, "");
    SortedFieldsHas(b, "");
    SortCanonical(SortedFields(a), SortedFields(b));
  }

  lemma {:induction false} SortedLookup(f: Fields, key: string)
    ensures Lookup(SortedFields(f), key) == Mapped(Lookup(f, key), Sorted)
  {
    if f.Field? {
      SortedLookup(f.rest, key);
    }
  }

  /** The semantic text is equal for exactly the values with the same content. */
  lemma SemanticTextIdentifiesContent(a: Json, b: Json)
    requires Valid(a) && Valid(b)
    ensures Valid(Semantic(a)) && Valid(Semantic(b))
    ensures Encoded(Semantic(a)) == Encoded(Semantic(b)) <==> SameContent(a, b)
  {
    SemanticTwice(a);
    SemanticTwice(b);
    NormIdentifiesContent(a, b);
    if Encoded(Semantic(a)) == Encoded(Semantic(b)) {
      EncodingIsInjective(Semantic(a), Semantic(b));
      RereadKeepsContent(Semantic(a));
      RereadKeepsContent(Semantic(b));
    }
  }
}
