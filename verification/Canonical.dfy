/**
 The canonical JSON text that is signed, sent and stored: no spaces, keys in order, text
 escaped only where JSON requires it, decimals exactly as Python prints them.
 */
module Canonical {
  import opened Common
  import opened Decimals
  import opened JsonValues
  import opened JsonContent

  // ---------------------------------------------------------------- numbers

  function DigitChar(d: Digit): char {
    ('0' as int + d) as char
  }

  function Chars(digits: seq<Digit>): string {
    if digits == [] then "" else [DigitChar(digits[0])] + Chars(digits[1..])
  }

  /** The parts of a printed number; an empty fraction and a missing exponent are not printed. */
  datatype Numeral = Numeral(negative: bool, whole: seq<Digit>, fraction: seq<Digit>, exponent: Option<int>)

  function Zeros(n: nat): (z: seq<Digit>)
    ensures |z| == n
  {
    seq(n, _ => 0)
  }

  /** `Decimal.__str__`: plain notation down to six places below the point, else scientific. */
  function NumeralOf(d: Decimal): Numeral
    requires d.digits != []
  {
    var left := d.exponent + |d.digits|;
    if d.exponent <= 0 && left > -6 then
      if left <= 0 then Numeral(d.negative, [0], Zeros(-left) + d.digits, None)
      else Numeral(d.negative, d.digits[..left], d.digits[left..], None)
    else Numeral(d.negative, d.digits[..1], d.digits[1..], Some(left - 1))
  }

  function IntNumeral(n: int): Numeral {
    Numeral(n < 0, DigitsOf(if n < 0 then -n else n), [], None)
  }

  function FractionText(fraction: seq<Digit>): string {
    if fraction == [] then "" else "." + Chars(fraction)
  }

  function SignedText(e: int): string {
    if e < 0 then "-" + Chars(DigitsOf(-e)) else "+" + Chars(DigitsOf(e))
  }

  function ExponentText(exponent: Option<int>): string {
    if exponent.None? then "" else "E" + SignedText(exponent.value)
  }

  function UnsignedText(n: Numeral): string {
    Chars(n.whole) + (FractionText(n.fraction) + ExponentText(n.exponent))
  }

  function NumeralText(n: Numeral): string {
    if n.negative then "-" + UnsignedText(n) else UnsignedText(n)
  }

  // ---------------------------------------------------------------- text

  function HexDigit(n: nat): char
    requires n < 16
  {
    if n < 10 then ('0' as int + n) as char else ('a' as int + (n - 10)) as char
  }

  /** `json.dumps` with `ensure_ascii=False`. */
  function EscapedChar(c: char): string {
    if c == '\"' then "\\\""
    else if c == '\\' then "\\\\"
    else if c == '\n' then "\\n"
    else if c == '\r' then "\\r"
    else if c == '\t' then "\\t"
    else if c as int == 12 then "\\f"
    else if c as int == 8 then "\\b"
    else if c as int < 32 then "\\u00" + [HexDigit(c as int / 16), HexDigit(c as int % 16)]
    else [c]
  }

  function Escaped(s: string): string {
    if s == "" then "" else EscapedChar(s[0]) + Escaped(s[1..])
  }

  function Quoted(s: string): string {
    "\"" + (Escaped(s) + "\"")
  }

  // ---------------------------------------------------------------- values

  /** The text of a value whose fields are already in order. */
  function Print(v: Json): string
    requires Valid(v)
  {
    match v
    case Null => "null"
    case Bool(flag) => if flag then "true" else "false"
    case Int(n) => NumeralText(IntNumeral(n))
    case Dec(d) => NumeralText(NumeralOf(d))
    case Text(text) => Quoted(text)
    case List(items) => "[" + (if items.NoItems? then "]" else PrintItems(items))
    case Object(fields) => "{" + (if fields.NoFields? then "}" else PrintFields(fields))
  }

  /** The items of a list, up to and with its closing bracket. */
  function PrintItems(items: Items): string
    requires items.Item? && ValidItems(items)
  {
    Print(items.head) + if items.tail.NoItems? then "]" else "," + PrintItems(items.tail)
  }

  function PrintFields(f: Fields): string
    requires f.Field? && ValidFields(f)
  {
    Quoted(f.name) + (":" + (Print(f.value) + if f.rest.NoFields? then "}" else "," + PrintFields(f.rest)))
  }

  /** `canonical`. */
  function Encoded(v: Json): string
    requires Valid(v)
  {
    SortedValid(v);
    Print(Sorted(v))
  }
}
