/**
 JSON values as the service builds and decodes them. Numbers are Python integers or decimals;
 an object is a dictionary in insertion order, which no operation here depends on.
 */
module JsonValues {
  import opened Common
  import opened Decimals

  datatype Json =
    | Null
    | Bool(flag: bool)
    | Int(n: int)
    | Dec(d: Decimal)
    | Text(text: string)
    | List(items: Items)
    | Object(fields: Fields)

  datatype Items = NoItems | Item(head: Json, tail: Items)

  datatype Fields = NoFields | Field(name: string, value: Json, rest: Fields)

  // ---------------------------------------------------------------- dictionaries

  predicate Has(f: Fields, name: string) {
    f.Field? && (f.name == name || Has(f.rest, name))
  }

  /** `dict.get`. */
  function Lookup(f: Fields, name: string): (r: Option<Json>)
    ensures r.Some? <==> Has(f, name)
  {
    if f.NoFields? then None else if f.name == name then Some(f.value) else Lookup(f.rest, name)
  }

  /** Dictionary assignment: in place for a known name, at the end for a new one. */
  function Put(f: Fields, name: string, value: Json): Fields {
    if f.NoFields? then Field(name, value, NoFields)
    else if f.name == name then Field(name, value, f.rest)
    else Field(f.name, f.value, Put(f.rest, name, value))
  }

  function Without(f: Fields, name: string): Fields {
    if f.NoFields? then NoFields
    else if f.name == name then Without(f.rest, name)
    else Field(f.name, f.value, Without(f.rest, name))
  }

  /** A dictionary: no name twice. */
  predicate Distinct(f: Fields) {
    f.Field? ==> !Has(f.rest, f.name) && Distinct(f.rest)
  }

  /** Values the program can hold: constructed decimals, real dictionaries. */
  predicate Valid(v: Json) {
    match v
    case Dec(d) => WellFormed(d)
    case List(items) => ValidItems(items)
    case Object(fields) => ValidFields(fields) && Distinct(fields)
    case _ => true
  }

  predicate ValidItems(items: Items) {
    items.Item? ==> Valid(items.head) && ValidItems(items.tail)
  }

  predicate ValidFields(f: Fields) {
    f.Field? ==> Valid(f.value) && ValidFields(f.rest)
  }

  // ---------------------------------------------------------------- sorting keys

  /** Order by code point, a prefix first. */
  predicate Less(a: string, b: string)
    decreases |a|
  {
    if a == [] then b != []
    else b != [] && (a[0] < b[0] || (a[0] == b[0] && Less(a[1..], b[1..])))
  }

  function Insert(name: string, value: Json, f: Fields): Fields {
    if f.NoFields? || Less(name, f.name) then Field(name, value, f)
    else Field(f.name, f.value, Insert(name, value, f.rest))
  }

  /** The fields in the order `sorted` visits the keys. */
  function SortFields(f: Fields): Fields {
    if f.NoFields? then NoFields else Insert(f.name, f.value, SortFields(f.rest))
  }

  predicate IsSorted(f: Fields) {
    f.Field? && f.rest.Field? ==> Less(f.name, f.rest.name) && IsSorted(f.rest)
  }

  /** The value with the fields of every object, at every depth, in key order. */
  function Sorted(v: Json): Json {
    match v
    case List(items) => List(SortedItems(items))
    case Object(fields) => Object(SortFields(SortedFields(fields)))
    case _ => v
  }

  function SortedItems(items: Items): Items {
    if items.NoItems? then NoItems else Item(Sorted(items.head), SortedItems(items.tail))
  }

  function SortedFields(f: Fields): Fields {
    if f.NoFields? then NoFields else Field(f.name, Sorted(f.value), SortedFields(f.rest))
  }

  // ---------------------------------------------------------------- numbers

  /** A decimal without a fractional part or exponent is printed as an integer and read back as one. */
  function Reloaded(d: Decimal): Json {
    if d.exponent == 0 then Int(Signed(d)) else Dec(d)
  }

  /** Every number as reading its text yields it. */
  function Numbers(v: Json): Json {
    match v
    case Dec(d) => Reloaded(d)
    case List(items) => List(NumbersItems(items))
    case Object(fields) => Object(NumbersFields(fields))
    case _ => v
  }

  function NumbersItems(items: Items): Items {
    if items.NoItems? then NoItems else Item(Numbers(items.head), NumbersItems(items.tail))
  }

  function NumbersFields(f: Fields): Fields {
    if f.NoFields? then NoFields else Field(f.name, Numbers(f.value), NumbersFields(f.rest))
  }

  /** What `json.loads` makes of a value's canonical text (`JsonReader.ReadsBack`). */
  function Reread(v: Json): Json {
    Numbers(Sorted(v))
  }

  /** The decimal digits of a natural number. */
  function DigitsOf(n: nat): (digits: seq<Digit>)
    ensures CanonicalDigits(digits) && Coefficient(digits) == n
  {
    if n < 10 then
      assert [n][..0] == [];
      [n]
    else
      var digits := DigitsOf(n / 10) + [n % 10];
      assert digits[..|digits| - 1] == DigitsOf(n / 10);
      assert Coefficient([0][..0]) == 0;
      digits
  }

  /** `Decimal(str(n))`. */
  function OfInt(n: int): (d: Decimal)
    ensures WellFormed(d) && Signed(d) == n
  {
    if n < 0 then Decimal(true, DigitsOf(-n), 0) else Decimal(false, DigitsOf(n), 0)
  }

  /** `_semantic_value`. */
  function Semantic(v: Json): Json {
    match v
    case Int(n) => Dec(Normal(OfInt(n)))
    case Dec(d) => Dec(Normal(d))
    case List(items) => List(SemanticItems(items))
    case Object(fields) => Object(SemanticFields(fields))
    case _ => v
  }

  function SemanticItems(items: Items): Items {
    if items.NoItems? then NoItems else Item(Semantic(items.head), SemanticItems(items.tail))
  }

  function SemanticFields(f: Fields): Fields {
    if f.NoFields? then NoFields else Field(f.name, Semantic(f.value), SemanticFields(f.rest))
  }

  // ---------------------------------------------------------------- the order of names

  lemma {:induction false} LessTotal(a: string, b: string)
    ensures a != b ==> Less(a, b) || Less(b, a)
    ensures !(Less(a, b) && Less(b, a)) && !Less(a, a)
  {
    if a != [] && b != [] {
      LessTotal(a[1..], b[1..]);
      if a[0] == b[0] && a[1..] == b[1..] {
        assert a == [a[0]] + a[1..] == b;
      }
    }
    if a != [] { LessTotal(a[1..], a[1..]); }
  }

  lemma {:induction false} LessTransitive(a: string, b: string, c: string)
    requires Less(a, b) && Less(b, c)
    ensures Less(a, c)
  {
    if a != [] && a[0] == b[0] == c[0] {
      LessTransitive(a[1..], b[1..], c[1..]);
    }
  }

  // ---------------------------------------------------------------- sorting keeps the dictionary

  lemma {:induction false} InsertLookup(name: string, value: Json, f: Fields, key: string)
    requires !Has(f, name)
    ensures Lookup(Insert(name, value, f), key) == if key == name then Some(value) else Lookup(f, key)
  {
    if f.Field? && !Less(name, f.name) {
      InsertLookup(name, value, f.rest, key);
    }
  }

  lemma {:induction false} InsertSorted(name: string, value: Json, f: Fields)
    requires IsSorted(f) && !Has(f, name)
    ensures IsSorted(Insert(name, value, f))
  {
    if f.Field? {
      LessTotal(name, f.name);
      if !Less(name, f.name) {
        InsertSorted(name, value, f.rest);
      }
    }
  }

  /** Sorting changes no entry and leaves the names strictly ascending. */
  lemma {:induction false} SortKeeps(f: Fields, key: string)
    requires Distinct(f)
    ensures Lookup(SortFields(f), key) == Lookup(f, key)
    ensures IsSorted(SortFields(f))
  {
    if f.Field? {
      SortKeeps(f.rest, key);
      SortKeeps(f.rest, f.name);
      InsertLookup(f.name, f.value, SortFields(f.rest), key);
      InsertSorted(f.name, f.value, SortFields(f.rest));
    }
  }

  /** In a sorted dictionary every later name is greater than the first. */
  lemma {:induction false} SortedAbove(f: Fields, key: string)
    requires IsSorted(f) && f.Field? && Has(f.rest, key)
    ensures Less(f.name, key)
  {
    if f.rest.name != key {
      SortedAbove(f.rest, key);
      LessTransitive(f.name, f.rest.name, key);
    }
  }

  lemma {:induction false} SortedDistinct(f: Fields)
    requires IsSorted(f)
    ensures Distinct(f)
  {
    if f.Field? {
      SortedDistinct(f.rest);
      if Has(f.rest, f.name) {
        SortedAbove(f, f.name);
        LessTotal(f.name, f.name);
      }
    }
  }

  lemma {:induction false} SortSorted(f: Fields)
    requires IsSorted(f)
    ensures SortFields(f) == f
  {
    if f.Field? {
      SortSorted(f.rest);
    }
  }

  ghost predicate SameEntries(a: Fields, b: Fields) {
    forall key :: Lookup(a, key) == Lookup(b, key)
  }

  /** Sorted dictionaries with the same entries are the same list. */
  lemma {:induction false} SortedUnique(a: Fields, b: Fields)
    requires IsSorted(a) && IsSorted(b) && SameEntries(a, b)
    ensures a == b
  {
    assert a.Field? ==> Lookup(b, a.name) == Some(a.value);
    assert b.Field? ==> Lookup(a, b.name) == Some(b.value);
    if a.Field? && b.Field? {
      FirstNameAgrees(a, b);
      SortedDistinct(a);
      SortedDistinct(b);
      assert Lookup(a, a.name) == Lookup(b, a.name);
      forall key
        ensures Lookup(a.rest, key) == Lookup(b.rest, key)
      {
        assert Lookup(a, key) == Lookup(b, key);
      }
      SortedUnique(a.rest, b.rest);
    }
  }

  lemma FirstNameAgrees(a: Fields, b: Fields)
    requires a.Field? && b.Field? && IsSorted(a) && IsSorted(b) && SameEntries(a, b)
    ensures a.name == b.name
  {
    assert Lookup(a, a.name) == Lookup(b, a.name);
    assert Lookup(a, b.name) == Lookup(b, b.name);
    if a.name != b.name {
      SortedAbove(a, b.name);
      SortedAbove(b, a.name);
      LessTotal(a.name, b.name);
    }
  }

  /** Sorting forgets exactly the insertion order. */
  lemma SortCanonical(a: Fields, b: Fields)
    requires Distinct(a) && Distinct(b)
    ensures SortFields(a) == SortFields(b) <==> SameEntries(a, b)
  {
    forall key
      ensures Lookup(SortFields(a), key) == Lookup(a, key) && Lookup(SortFields(b), key) == Lookup(b, key)
    {
      SortKeeps(a, key);
      SortKeeps(b, key);
    }
    SortKeeps(a, "");
    SortKeeps(b, "");
    if SameEntries(a, b) {
      assert SameEntries(SortFields(a), SortFields(b));
      SortedUnique(SortFields(a), SortFields(b));
    } else if SortFields(a) == SortFields(b) {
      assert SameEntries(a, b);
    }
  }
}
