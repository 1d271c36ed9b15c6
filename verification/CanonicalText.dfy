/** What the canonical text looks like, on its own: the spelling of numbers, and one value with every kind in it. */
module CanonicalText {
  import opened Common
  import opened Decimals
  import opened JsonValues
  import opened JsonContent
  import opened Canonical

  /**
   A decimal is printed in scientific notation, with one digit before the point, exactly when its
   last digit stands left of the units or its first one more than six places right of the point;
   otherwise it is printed in full, without a leading zero but the one of a pure fraction.
   */
  lemma NotationOf(d: Decimal)
    requires WellFormed(d)
    ensures var (n, leading) := (NumeralOf(d), d.exponent + |d.digits| - 1);
      && n.negative == d.negative
      && (n.exponent.Some? <==> d.exponent > 0 || leading < -6)
      && (n.exponent.Some? ==> n.exponent.value == leading && n.whole + n.fraction == d.digits && |n.whole| == 1)
      && (n.exponent.None? && leading >= 0 ==> n.whole + n.fraction == d.digits && |n.fraction| == -d.exponent)
      && (n.exponent.None? && leading < 0 ==> n.whole == [0] && n.fraction == Zeros(-1 - leading) + d.digits)
  {
  }

  /** An integer is its digits without leading zeros, behind a minus sign only if it is negative. */
  lemma IntegerText(n: int)
    ensures var numeral := IntNumeral(n);
      && Print(Int(n)) == (if n < 0 then "-" else "") + Chars(numeral.whole)
      && CanonicalDigits(numeral.whole) && Coefficient(numeral.whole) == if n < 0 then -n else n
    ensures Print(Int(n)) != "" && (Print(Int(n))[0] == '-' <==> n < 0)
  {
    var whole := IntNumeral(n).whole;
    assert Chars(whole) == [DigitChar(whole[0])] + Chars(whole[1..]);
    assert Chars(whole) + ("" + "") == Chars(whole);
  }

  const PRICE := Dec(Decimal(false, [2, 5, 1, 0], -2))
  const TINY := Dec(Decimal(true, [1, 5], -8))
  const HUGE := Dec(Decimal(false, [7], 3))

  lemma PriceText()
    ensures Print(PRICE) == "25.10"
  {
    assert NumeralOf(PRICE.d) == Numeral(false, [2, 5], [1, 0], None);
    assert Chars([2, 5]) == "2" + Chars([5]) && Chars([5]) == "5";
    assert Chars([1, 0]) == "1" + Chars([0]) && Chars([0]) == "0";
  }

  lemma ScientificText()
    ensures Print(TINY) == "-1.5E-7" && Print(HUGE) == "7E+3"
  {
    assert DigitsOf(7) == [7] && DigitsOf(3) == [3];
  }

  /** Text is escaped character by character, and only where JSON requires it. */
  lemma {:induction false} EscapedByCharacter(a: string, b: string)
    ensures Escaped(a + b) == Escaped(a) + Escaped(b)
    ensures forall c: char :: c >= ' ' && c != '\"' && c != '\\' ==> Escaped([c]) == [c]
  {
    hide EscapedChar;
    OneEscaped();
    if a == "" {
      assert a + b == b;
    } else {
      assert (a + b)[1..] == a[1..] + b;
      EscapedByCharacter(a[1..], b);
    }
  }

  lemma OneEscaped()
    ensures forall c: char :: Escaped([c]) == EscapedChar(c)
    ensures forall c: char :: c >= ' ' && c != '\"' && c != '\\' ==> EscapedChar(c) == [c]
  {
  }

  lemma EscapeSequences()
    ensures Escaped("\"") == "\\\"" && Escaped("\\") == "\\\\"
    ensures Escaped("\n") == "\\n" && Escaped("\r") == "\\r" && Escaped("\t") == "\\t"
    ensures Escaped(['\U{8}']) == "\\b" && Escaped(['\U{c}']) == "\\f"
    ensures Escaped(['\U{0}']) == "\\u0000" && Escaped(['\U{1f}']) == "\\u001f"
  {
    hide Escaped;
    OneEscaped();
  }

  const NESTED := List(Item(Null, Item(Object(NoFields), NoItems)))
  const MIXED := Object(Field("b", NESTED, Field("a", PRICE, NoFields)))
  const ORDERED := Field("a", PRICE, Field("b", NESTED, NoFields))

  lemma LiteralText()
    ensures Print(Null) == "null" && Print(Bool(true)) == "true" && Print(Bool(false)) == "false"
    ensures Print(Text("x")) == "\"x\"" && Print(List(NoItems)) == "[]"
  {
  }

  /** A value nested in another: names in order, no spaces. */
  lemma MixedText()
    ensures Valid(MIXED) && Encoded(MIXED) == "{\"a\":25.10," + "\"b\":[null,{}]}"
  {
    hide Print;
    MixedOrder();
    FieldsText();
  }

  lemma FieldsText()
    ensures Valid(Object(ORDERED)) && Print(Object(ORDERED)) == "{\"a\":25.10," + "\"b\":[null,{}]}"
  {
    hide NumeralText, NumeralOf, PrintItems, Quoted;
    LastField();
    FirstField();
  }

  lemma LastField()
    ensures ValidFields(ORDERED.rest) && PrintFields(ORDERED.rest) == "\"b\":[null,{}]}"
  {
    NestedText();
    hide Print;
    assert Quoted("b") == "\"b\"";
  }

  lemma FirstField()
    ensures ValidFields(ORDERED)
    ensures PrintFields(ORDERED) == "\"a\":25.10," + PrintFields(ORDERED.rest)
  {
    PriceText();
    hide Print;
    assert Quoted("a") == "\"a\"";
    assert PrintFields(ORDERED) == "\"a\"" + (":" + ("25.10" + ("," + PrintFields(ORDERED.rest))));
  }

  lemma NestedText()
    ensures Valid(NESTED) && Print(NESTED) == "[null,{}]"
  {
    assert PrintItems(Item(Object(NoFields), NoItems)) == "{}]";
  }

  lemma MixedOrder()
    ensures Valid(MIXED)
    ensures (SortedValid(MIXED); Sorted(MIXED)) == Object(ORDERED)
  {
    assert Sorted(NESTED) == NESTED;
  }
}
