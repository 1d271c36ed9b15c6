/**
 What encoding and decoding keep of a JSON value. Decoding a canonical text settles a value:
 from then on re-encoding and decoding changes nothing. The semantic normal form identifies
 exactly the values with the same content.
 */
module JsonContent {
  import opened Common
  import opened Decimals
  import opened JsonValues

  /** The semantic normal form in canonical order. */
  function Norm(v: Json): Json {
    Sorted(Semantic(v))
  }

  function RereadFields(f: Fields): Fields {
    NumbersFields(SortedFields(f))
  }

  function NormFields(f: Fields): Fields {
    SortedFields(SemanticFields(f))
  }

  // ---------------------------------------------------------------- field by field

  function Mapped(r: Option<Json>, fixed: Json -> Json): Option<Json> {
    if r.Some? then Some(fixed(r.value)) else None
  }

  /** Rereading and normalising work on each entry by itself. */
  lemma {:induction false} Entrywise(f: Fields, key: string)
    ensures Lookup(RereadFields(f), key) == Mapped(Lookup(f, key), Reread)
    ensures Lookup(NormFields(f), key) == Mapped(Lookup(f, key), Norm)
    ensures Distinct(f) ==> Distinct(RereadFields(f)) && Distinct(NormFields(f))
  {
    if f.Field? {
      Entrywise(f.rest, key);
      Entrywise(f.rest, f.name);
    }
  }

  lemma {:induction false} InsertCommutes(name: string, value: Json, f: Fields)
    ensures NumbersFields(Insert(name, value, f)) == Insert(name, Numbers(value), NumbersFields(f))
    ensures NormFields(Insert(name, value, f)) == Insert(name, Norm(value), NormFields(f))
  {
    if f.Field? && !Less(name, f.name) {
      InsertCommutes(name, value, f.rest);
    }
  }

  /** Sorting the names commutes with any change of the values. */
  lemma {:induction false} SortCommutes(f: Fields)
    ensures NumbersFields(SortFields(f)) == SortFields(NumbersFields(f))
    ensures NormFields(SortFields(f)) == SortFields(NormFields(f))
  {
    if f.Field? {
      SortCommutes(f.rest);
      InsertCommutes(f.name, f.value, SortFields(f.rest));
    }
  }

  lemma ObjectReread(f: Fields)
    ensures Reread(Object(f)) == Object(SortFields(RereadFields(f)))
  {
    SortCommutes(SortedFields(f));
  }

  // ---------------------------------------------------------------- settled values

  /** A value as a decoder leaves it: sorted names, and no decimal that prints as an integer. */
  predicate Settled(v: Json) {
    match v
    case Dec(d) => d.exponent != 0
    case List(items) => SettledItems(items)
    case Object(fields) => IsSorted(fields) && SettledFields(fields)
    case _ => true
  }

  predicate SettledItems(items: Items) {
    items.Item? ==> Settled(items.head) && SettledItems(items.tail)
  }

  predicate SettledFields(f: Fields) {
    f.Field? ==> Settled(f.value) && SettledFields(f.rest)
  }

  lemma {:induction false} InsertSettled(name: string, value: Json, f: Fields)
    requires SettledFields(f) && Settled(value)
    ensures SettledFields(Insert(name, value, f))
  {
    if f.Field? && !Less(name, f.name) {
      InsertSettled(name, value, f.rest);
    }
  }

  lemma {:induction false} SortSettled(f: Fields)
    requires SettledFields(f)
    ensures SettledFields(SortFields(f))
  {
    if f.Field? {
      SortSettled(f.rest);
      InsertSettled(f.name, f.value, SortFields(f.rest));
    }
  }

  /** Decoding settles every value. */
  lemma {:induction false} RereadSettles(v: Json)
    requires Valid(v)
    ensures Settled(Reread(v))
  {
    match v
    case List(items) => RereadSettlesItems(items);
    case Object(fields) =>
      RereadSettlesFields(fields);
      ObjectReread(fields);
      Entrywise(fields, "");
      SortKeeps(RereadFields(fields), "");
      SortSettled(RereadFields(fields));
    case _ =>
  }

  lemma {:induction false} RereadSettlesItems(items: Items)
    requires ValidItems(items)
    ensures SettledItems(NumbersItems(SortedItems(items)))
  {
    if items.Item? {
      RereadSettles(items.head);
      RereadSettlesItems(items.tail);
    }
  }

  lemma {:induction false} RereadSettlesFields(f: Fields)
    requires ValidFields(f)
    ensures SettledFields(RereadFields(f))
  {
    if f.Field? {
      RereadSettles(f.value);
      RereadSettlesFields(f.rest);
    }
  }

  /** A settled value is a fixed point of encoding and decoding. */
  lemma {:induction false} SettledIsFixed(v: Json)
    requires Settled(v)
    ensures Sorted(v) == v && Numbers(v) == v && Reread(v) == v
  {
    match v
    case List(items) => SettledItemsFixed(items);
    case Object(fields) =>
      SettledFieldsFixed(fields);
      SortSorted(fields);
    case _ =>
  }

  lemma {:induction false} SettledItemsFixed(items: Items)
    requires SettledItems(items)
    ensures SortedItems(items) == items && NumbersItems(items) == items
  {
    if items.Item? {
      SettledIsFixed(items.head);
      SettledItemsFixed(items.tail);
    }
  }

  lemma {:induction false} SettledFieldsFixed(f: Fields)
    requires SettledFields(f)
    ensures SortedFields(f) == f && NumbersFields(f) == f
  {
    if f.Field? {
      SettledIsFixed(f.value);
      SettledFieldsFixed(f.rest);
    }
  }

  lemma {:induction false} InsertValid(name: string, value: Json, f: Fields)
    requires ValidFields(f) && Valid(value)
    ensures ValidFields(Insert(name, value, f))
  {
    if f.Field? && !Less(name, f.name) {
      InsertValid(name, value, f.rest);
    }
  }

  lemma {:induction false} SortValid(f: Fields)
    requires ValidFields(f)
    ensures ValidFields(SortFields(f))
  {
    if f.Field? {
      SortValid(f.rest);
      InsertValid(f.name, f.value, SortFields(f.rest));
    }
  }

  lemma {:induction false} SortedFieldsHas(f: Fields, key: string)
    ensures Has(SortedFields(f), key) <==> Has(f, key)
    ensures Distinct(f) ==> Distinct(SortedFields(f))
  {
    if f.Field? {
      SortedFieldsHas(f.rest, key);
      SortedFieldsHas(f.rest, f.name);
    }
  }

  lemma {:induction false} SortedValid(v: Json)
    requires Valid(v)
    ensures Valid(Sorted(v))
  {
    match v
    case List(items) => SortedValidItems(items);
    case Object(fields) =>
      SortedValidFields(fields);
      SortedFieldsHas(fields, "");
      SortKeeps(SortedFields(fields), "");
      SortedDistinct(SortFields(SortedFields(fields)));
      SortValid(SortedFields(fields));
    case _ =>
  }

  lemma {:induction false} SortedValidItems(items: Items)
    requires ValidItems(items)
    ensures ValidItems(SortedItems(items))
  {
    if items.Item? {
      SortedValid(items.head);
      SortedValidItems(items.tail);
    }
  }

  lemma {:induction false} SortedValidFields(f: Fields)
    requires ValidFields(f)
    ensures ValidFields(SortedFields(f))
  {
    if f.Field? {
      SortedValid(f.value);
      SortedValidFields(f.rest);
    }
  }

  lemma {:induction false} NumbersHas(f: Fields, key: string)
    ensures Has(NumbersFields(f), key) <==> Has(f, key)
    ensures Distinct(f) ==> Distinct(NumbersFields(f))
  {
    if f.Field? {
      NumbersHas(f.rest, key);
      NumbersHas(f.rest, f.name);
    }
  }

  lemma {:induction false} NumbersValid(v: Json)
    requires Valid(v)
    ensures Valid(Numbers(v))
  {
    match v
    case List(items) => NumbersValidItems(items);
    case Object(fields) =>
      NumbersValidFields(fields);
      NumbersHas(fields, "");
    case _ =>
  }

  lemma {:induction false} NumbersValidItems(items: Items)
    requires ValidItems(items)
    ensures ValidItems(NumbersItems(items))
  {
    if items.Item? {
      NumbersValid(items.head);
      NumbersValidItems(items.tail);
    }
  }

  lemma {:induction false} NumbersValidFields(f: Fields)
    requires ValidFields(f)
    ensures ValidFields(NumbersFields(f))
  {
    if f.Field? {
      NumbersValid(f.value);
      NumbersValidFields(f.rest);
    }
  }

  lemma RereadValid(v: Json)
    requires Valid(v)
    ensures Valid(Reread(v))
  {
    SortedValid(v);
    NumbersValid(Sorted(v));
  }

  // ---------------------------------------------------------------- normal forms

  lemma SameNormal(a: Decimal, b: Decimal)
    requires WellFormed(a) && WellFormed(b) && a.exponent == b.exponent == 0 && Signed(a) == Signed(b)
    ensures Normal(a) == Normal(b)
  {
    SemanticNormalFormComplete(a, b);
  }

  /** Decoding never changes the content: the semantic normal form survives it. */
  lemma {:induction false} RereadKeepsContent(v: Json)
    requires Valid(v)
    ensures Norm(Reread(v)) == Norm(v)
  {
    match v
    case Dec(d) => if d.exponent == 0 { SameNormal(OfInt(Signed(d)), d); }
    case List(items) => RereadKeepsItems(items);
    case Object(fields) =>
      RereadKeepsFields(fields);
      ObjectReread(fields);
      SortCommutes(RereadFields(fields));
      Entrywise(fields, "");
      SortKeeps(NormFields(fields), "");
      SortSorted(SortFields(NormFields(fields)));
    case _ =>
  }

  lemma {:induction false} RereadKeepsItems(items: Items)
    requires ValidItems(items)
    ensures SortedItems(SemanticItems(NumbersItems(SortedItems(items)))) == SortedItems(SemanticItems(items))
  {
    if items.Item? {
      RereadKeepsContent(items.head);
      RereadKeepsItems(items.tail);
    }
  }

  lemma {:induction false} RereadKeepsFields(f: Fields)
    requires ValidFields(f)
    ensures NormFields(RereadFields(f)) == NormFields(f)
  {
    if f.Field? {
      RereadKeepsContent(f.value);
      RereadKeepsFields(f.rest);
    }
  }

  // ---------------------------------------------------------------- same content

  predicate IsNumber(v: Json) {
    v.Int? || v.Dec?
  }

  function Number(v: Json): Decimal
    requires IsNumber(v)
  {
    if v.Int? then OfInt(v.n) else v.d
  }

  /** Every name of `b` is one of `a`. */
  ghost predicate Covers(a: Fields, b: Fields) {
    forall key :: Has(b, key) ==> Has(a, key)
  }

  /** Equal numbers by value, equal lists in order, equal dictionaries in any order. */
  ghost predicate SameContent(a: Json, b: Json)
    decreases a
  {
    if IsNumber(a) || IsNumber(b) then IsNumber(a) && IsNumber(b) && SameNumber(Number(a), Number(b))
    else if a.List? && b.List? then SameItems(a.items, b.items)
    else if a.Object? && b.Object? then
      SameFields(a.fields, b.fields) && Covers(a.fields, b.fields)
    else a == b
  }

  ghost predicate SameItems(a: Items, b: Items)
    decreases a
  {
    if a.Item? && b.Item? then SameContent(a.head, b.head) && SameItems(a.tail, b.tail) else a == b
  }

  /** Every entry of `a` is in `b` with the same content. */
  ghost predicate SameFields(a: Fields, b: Fields)
    decreases a
  {
    a.Field? ==>
      && Has(b, a.name) && SameContent(a.value, Lookup(b, a.name).value)
      && SameFields(a.rest, b)
  }

  lemma {:induction false} TrimTwice(d: Decimal)
    ensures Trim(Trim(d)) == Trim(d)
    decreases |d.digits|
  {
    if |d.digits| > 1 && d.digits[|d.digits| - 1] == 0 {
      TrimTwice(Decimal(d.negative, d.digits[..|d.digits| - 1], d.exponent + 1));
    }
  }

  lemma NormalTwice(d: Decimal)
    requires WellFormed(d)
    ensures WellFormed(Normal(d)) && Normal(Normal(d)) == Normal(d)
  {
    if Coefficient(d.digits) == 0 {
      assert Coefficient([0]) == 0 by { assert [0][..0] == []; }
    } else {
      TrimKeeps(d);
      TrimTwice(d);
    }
  }

  lemma {:induction false} SemanticHas(f: Fields, key: string)
    ensures Has(SemanticFields(f), key) <==> Has(f, key)
    ensures Distinct(f) ==> Distinct(SemanticFields(f))
  {
    if f.Field? {
      SemanticHas(f.rest, key);
      SemanticHas(f.rest, f.name);
    }
  }

  /** Normalising is idempotent and keeps values encodable. */
  lemma {:induction false} SemanticTwice(v: Json)
    requires Valid(v)
    ensures Valid(Semantic(v)) && Semantic(Semantic(v)) == Semantic(v)
  {
    match v
    case Int(n) => NormalTwice(OfInt(n));
    case Dec(d) => NormalTwice(d);
    case List(items) => SemanticTwiceItems(items);
    case Object(fields) =>
      SemanticTwiceFields(fields);
      SemanticHas(fields, "");
    case _ =>
  }

  lemma {:induction false} SemanticTwiceItems(items: Items)
    requires ValidItems(items)
    ensures ValidItems(SemanticItems(items)) && SemanticItems(SemanticItems(items)) == SemanticItems(items)
  {
    if items.Item? {
      SemanticTwice(items.head);
      SemanticTwiceItems(items.tail);
    }
  }

  lemma {:induction false} SemanticTwiceFields(f: Fields)
    requires ValidFields(f)
    ensures ValidFields(SemanticFields(f)) && SemanticFields(SemanticFields(f)) == SemanticFields(f)
  {
    if f.Field? {
      SemanticTwice(f.value);
      SemanticTwiceFields(f.rest);
    }
  }

  lemma {:induction false} ValidLookup(f: Fields, key: string)
    requires ValidFields(f) && Has(f, key)
    ensures Valid(Lookup(f, key).value)
  {
    if f.name != key {
      ValidLookup(f.rest, key);
    }
  }

  /** The normal form is complete: equal for exactly the values with the same content. */
  lemma {:induction false} NormIdentifiesContent(a: Json, b: Json)
    requires Valid(a) && Valid(b)
    ensures Norm(a) == Norm(b) <==> SameContent(a, b)
    decreases a
  {
    if IsNumber(a) && IsNumber(b) {
      SemanticNormalFormComplete(Number(a), Number(b));
    } else if a.List? && b.List? {
      NormIdentifiesItems(a.items, b.items);
    } else if a.Object? && b.Object? {
      NormIdentifiesObjects(a.fields, b.fields);
    }
  }

  lemma {:induction false} NormIdentifiesItems(a: Items, b: Items)
    requires ValidItems(a) && ValidItems(b)
    ensures SortedItems(SemanticItems(a)) == SortedItems(SemanticItems(b)) <==> SameItems(a, b)
    decreases a
  {
    if a.Item? && b.Item? {
      NormIdentifiesContent(a.head, b.head);
      NormIdentifiesItems(a.tail, b.tail);
    }
  }

  /** The entry of `a` at `key`, if any, is in `b` with the same normal form. */
  predicate Agrees(a: Fields, b: Fields, key: string) {
    Has(a, key) ==> Has(b, key) && Norm(Lookup(a, key).value) == Norm(Lookup(b, key).value)
  }

  lemma {:induction false} NormIdentifiesFields(a: Fields, b: Fields)
    requires ValidFields(a) && ValidFields(b) && Distinct(a)
    ensures SameFields(a, b) <==> forall key :: Agrees(a, b, key)
    decreases a, 0
  {
    if a.Field? {
      NormIdentifiesFields(a.rest, b);
      if Has(b, a.name) {
        ValidLookup(b, a.name);
        NormIdentifiesContent(a.value, Lookup(b, a.name).value);
      }
      FirstAndRest(a, b);
    } else {
      assert forall key :: Agrees(a, b, key);
    }
  }

  lemma FirstAndRest(a: Fields, b: Fields)
    requires a.Field? && Distinct(a)
    ensures (forall key :: Agrees(a, b, key)) <==> Agrees(a, b, a.name) && forall key :: Agrees(a.rest, b, key)
  {
    if forall key :: Agrees(a, b, key) {
      forall key
        ensures Agrees(a.rest, b, key)
      {
        assert Agrees(a, b, key);
      }
    }
    if Agrees(a, b, a.name) && forall key :: Agrees(a.rest, b, key) {
      forall key
        ensures Agrees(a, b, key)
      {
        assert Agrees(a.rest, b, key);
      }
    }
  }

  lemma {:induction false} NormIdentifiesObjects(a: Fields, b: Fields)
    requires ValidFields(a) && ValidFields(b) && Distinct(a) && Distinct(b)
    ensures Norm(Object(a)) == Norm(Object(b)) <==> SameContent(Object(a), Object(b))
    decreases a, 1
  {
    NormIdentifiesFields(a, b);
    Entrywise(a, "");
    Entrywise(b, "");
    SortCanonical(NormFields(a), NormFields(b));
    SameNormEntries(a, b);
  }

  lemma SameNormEntries(a: Fields, b: Fields)
    ensures SameEntries(NormFields(a), NormFields(b)) <==>
      && (forall key :: Agrees(a, b, key))
      && Covers(a, b)
  {
    forall key
      ensures Lookup(NormFields(a), key) == Mapped(Lookup(a, key), Norm)
        && Lookup(NormFields(b), key) == Mapped(Lookup(b, key), Norm)
    {
      Entrywise(a, key);
      Entrywise(b, key);
    }
    if SameEntries(NormFields(a), NormFields(b)) {
      forall key
        ensures Agrees(a, b, key) && (Has(b, key) ==> Has(a, key))
      {
        assert Lookup(NormFields(a), key) == Lookup(NormFields(b), key);
      }
    }
    if (forall key :: Agrees(a, b, key)) && Covers(a, b) {
      forall key
        ensures Lookup(NormFields(a), key) == Lookup(NormFields(b), key)
      {
        assert Agrees(a, b, key);
      }
    }
  }
}
