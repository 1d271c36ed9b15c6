/**
 The durable outbox of order snapshots. A row holds the latest version of one order: its
 sequence number, its semantic text, the exact payload, and the sequence last acknowledged.
 */
module OrderPublication {
  import opened Common
  import opened JsonValues
  import opened JsonContent
  import opened Canonical
  import opened JsonReader
  import opened Decimals

  const MAX_SEQUENCE := 0x20_0000_0000_0000 - 1

  /** A table row; `id` is the key of the table. */
  datatype Row = Row(sequence: int, semantic: string, payload: string, acknowledged: int)

  type Rows = map<string, Row>

  /** The instant an RFC 3339 text denotes; `None` is refused by `_timestamp`. */
  type Clock = string -> Option<int>

  // ---------------------------------------------------------------- snapshots

  function TextAt(f: Fields, name: string): Option<string> {
    match Lookup(f, name)
    case Some(Text(text)) => Some(text)
    case _ => None
  }

  /** `_timestamp` of a member. */
  function InstantAt(clock: Clock, f: Fields, name: string): Option<int> {
    match TextAt(f, name)
    case Some(text) => clock(text)
    case None => None
  }

  function IdentityOf(account: string, order: string): string {
    var rest := Item(Text(order), NoItems);
    assert ValidItems(rest.tail);
    assert ValidItems(rest) && Valid(Text(account));
    Encoded(List(Item(Text(account), rest)))
  }

  /** `_identity`. */
  function Identity(account: string, f: Fields): Option<string> {
    match TextAt(f, "order_id")
    case Some(order) =>
      if TextAt(f, "account_id") == Some(account) && !Blank(order) then Some(IdentityOf(account, order)) else None
    case None => None
  }

  /** A snapshot without the two members that do not make a new version. */
  function Content(f: Fields): (c: Fields)
    ensures Valid(Object(f)) ==> Valid(Object(c))
  {
    WithoutKeeps(f, "sequence", "");
    WithoutKeeps(Without(f, "sequence"), "updated_at", "");
    Without(Without(f, "sequence"), "updated_at")
  }

  /** `_semantic`. */
  function SemanticText(f: Fields): string
    requires Valid(Object(f))
  {
    SemanticTwice(Object(Content(f)));
    Encoded(Semantic(Object(Content(f))))
  }

  /** Python's comparison of a decoded JSON value with an integer. */
  predicate EqualsInt(v: Json, n: int)
    requires Valid(v)
  {
    match v
    case Int(m) => m == n
    case Dec(d) => SameNumber(d, OfInt(n))
    case Bool(flag) => n == if flag then 1 else 0
    case _ => false
  }

  /** A number of that value, however it is spelled, and Python's truth values for one and zero. */
  lemma EqualsIntMeans(v: Json, n: int)
    requires Valid(v)
    ensures EqualsInt(v, n) <==> SameContent(v, Int(n)) || (v == Bool(true) && n == 1) || (v == Bool(false) && n == 0)
  {
    if v.Int? { OneDecimal(v.n, n); }
  }

  lemma OneDecimal(m: int, n: int)
    ensures SameNumber(OfInt(m), OfInt(n)) <==> m == n
  {
    if SameNumber(OfInt(m), OfInt(n)) {
      assert Signed(OfInt(m)) == m && Signed(OfInt(n)) == n;
    }
  }

  /** `_restore`: the decoded payload of a row, if the row is consistent. */
  function Restore(account: string, clock: Clock, row: Row, id: string): (r: Option<Fields>)
    ensures r.Some? ==> Valid(Object(r.value))
  {
    ReadValid(row.payload);
    match Read(row.payload)
    case Some(Object(f)) =>
      if Has(f, "sequence") then
        ValidLookup(f, "sequence");
        if && 1 <= row.sequence <= MAX_SEQUENCE && EqualsInt(Lookup(f, "sequence").value, row.sequence)
           && Identity(account, f) == Some(id) && SemanticText(f) == row.semantic
           && InstantAt(clock, f, "created_at").Some? && InstantAt(clock, f, "updated_at").Some?
        then Some(f) else None
      else None
    case _ => None
  }

  // ---------------------------------------------------------------- operations on the table

  /** The snapshot as decoding its text yields it, before the sequence is added. */
  function Decoded(f: Fields): (d: Fields)
    requires Valid(Object(f))
    ensures Object(d) == Reread(Object(f)) && Valid(Object(d))
  {
    RereadValid(Object(f));
    Reread(Object(f)).fields
  }

  function Versioned(f: Fields, sequence: int): (e: Fields)
    requires Valid(Object(f))
    ensures Valid(Object(e))
  {
    PutKeeps(Decoded(f), "sequence", Int(sequence), "");
    Put(Decoded(f), "sequence", Int(sequence))
  }

  lemma {:induction false} PutKeeps(f: Fields, name: string, value: Json, key: string)
    ensures Lookup(Put(f, name, value), key) == if key == name then Some(value) else Lookup(f, key)
    ensures Distinct(f) ==> Distinct(Put(f, name, value))
    ensures ValidFields(f) && Valid(value) ==> ValidFields(Put(f, name, value))
    ensures SettledFields(f) && Settled(value) ==> SettledFields(Put(f, name, value))
  {
    if f.Field? && f.name != name {
      PutKeeps(f.rest, name, value, key);
      PutKeeps(f.rest, name, value, f.name);
    }
  }

  /** Insert, or update all but the acknowledged sequence. */
  function Stored(rows: Rows, id: string, event: Fields, sequence: int, semantic: string): Rows
    requires Valid(Object(event))
  {
    rows[id := Row(sequence, semantic, Encoded(Object(event)), if id in rows then rows[id].acknowledged else 0)]
  }

  /** What `prepare` asks of a snapshot before it looks at the table. */
  predicate Publishable(account: string, clock: Clock, f: Fields) {
    && Identity(account, f).Some? && !Has(f, "sequence")
    && InstantAt(clock, f, "created_at").Some? && InstantAt(clock, f, "updated_at").Some?
  }

  /** The refusals of `prepare` against an existing version. */
  predicate Advances(clock: Clock, row: Row, previous: Fields, f: Fields)
    requires Valid(Object(f))
  {
    && Lookup(Decoded(f), "created_at") == Lookup(previous, "created_at")
    && (SemanticText(f) != row.semantic ==>
        && row.sequence != MAX_SEQUENCE
        && InstantAt(clock, f, "updated_at").Some? && InstantAt(clock, previous, "updated_at").Some?
        && InstantAt(clock, previous, "updated_at").value <= InstantAt(clock, f, "updated_at").value)
  }

  /** `prepare`: the new table and the event, or `None` for an `ApiError` that changes nothing. */
  function Prepared(account: string, clock: Clock, rows: Rows, f: Fields): Option<(Rows, Fields)>
    requires Valid(Object(f))
  {
    if !Publishable(account, clock, f) then None
    else
      var id := Identity(account, f).value;
      if id !in rows then Some((Stored(rows, id, Versioned(f, 1), 1, SemanticText(f)), Versioned(f, 1)))
      else
        match Restore(account, clock, rows[id], id)
        case None => None
        case Some(previous) =>
          if !Advances(clock, rows[id], previous, f) then None
          else if SemanticText(f) == rows[id].semantic then Some((rows, previous))
          else
            var sequence := rows[id].sequence + 1;
            Some((Stored(rows, id, Versioned(f, sequence), sequence, SemanticText(f)), Versioned(f, sequence)))
  }

  predicate Unacknowledged(rows: Rows, id: string) {
    id in rows && rows[id].acknowledged < rows[id].sequence
  }

  /** `ack`: the event's exact payload must be the stored one. */
  predicate Acknowledges(rows: Rows, id: string, sequence: int, payload: string) {
    id in rows && rows[id].sequence == sequence && rows[id].payload == payload
  }

  function Acknowledged(rows: Rows, id: string, sequence: int, payload: string): Rows {
    if Acknowledges(rows, id, sequence, payload) then rows[id := rows[id].(acknowledged := sequence)] else rows
  }

  // ---------------------------------------------------------------- consistent tables

  /** A row `prepare` can have stored: `_restore` accepts it and encoding what it restores gives the payload. */
  ghost predicate RowOk(account: string, clock: Clock, row: Row, id: string) {
    var restored := Restore(account, clock, row, id);
    && restored.Some? && Encoded(Object(restored.value)) == row.payload
    && Lookup(restored.value, "sequence") == Some(Int(row.sequence))
    && 0 <= row.acknowledged <= row.sequence
  }

  ghost predicate RowsOk(account: string, clock: Clock, rows: Rows) {
    forall id :: id in rows ==> RowOk(account, clock, rows[id], id)
  }

  /** The key of a row names one order. */
  lemma IdentityNamesOneOrder(account: string, a: string, b: string)
    requires IdentityOf(account, a) == IdentityOf(account, b)
    ensures a == b
  {
    var first, second := Item(Text(a), NoItems), Item(Text(b), NoItems);
    assert ValidItems(first) && ValidItems(second) && Valid(Text(account));
    assert SettledItems(first) && SettledItems(second) && Settled(Text(account));
    SettledIsFixed(List(Item(Text(account), first)));
    SettledIsFixed(List(Item(Text(account), second)));
    EncodingIsInjective(List(Item(Text(account), first)), List(Item(Text(account), second)));
  }

  /** Decoding keeps texts. */
  lemma DecodedEntry(f: Fields, key: string)
    requires Valid(Object(f))
    ensures Lookup(Decoded(f), key) == Mapped(Lookup(f, key), Reread)
    ensures TextAt(Decoded(f), key) == TextAt(f, key)
  {
    ObjectReread(f);
    Entrywise(f, key);
    SortKeeps(RereadFields(f), key);
  }

  lemma VersionedEntry(f: Fields, sequence: int, key: string)
    requires Valid(Object(f))
    ensures Lookup(Versioned(f, sequence), key) ==
      if key == "sequence" then Some(Int(sequence)) else Mapped(Lookup(f, key), Reread)
    ensures key != "sequence" ==> TextAt(Versioned(f, sequence), key) == TextAt(f, key)
  {
    DecodedEntry(f, key);
    PutKeeps(Decoded(f), "sequence", Int(sequence), key);
  }

  /** Decoding a stored payload gives the event with its fields in order, unchanged. */
  lemma PayloadDecodes(f: Fields, sequence: int)
    requires Valid(Object(f))
    ensures var event := Versioned(f, sequence);
      && Read(Encoded(Object(event))) == Some(Object(SortFields(event)))
      && Valid(Object(SortFields(event)))
      && Encoded(Object(SortFields(event))) == Encoded(Object(event))
  {
    var event := Versioned(f, sequence);
    RereadSettles(Object(f));
    PutKeeps(Decoded(f), "sequence", Int(sequence), "");
    SettledFieldsFixed(event);
    SortSettled(event);
    SortKeeps(event, "");
    SettledFieldsFixed(SortFields(event));
    SortSorted(SortFields(event));
    ReadsBack(Object(event));
    RereadValid(Object(event));
  }

  lemma ContentEntry(f: Fields, key: string)
    ensures Lookup(Content(f), key) == if key == "sequence" || key == "updated_at" then None else Lookup(f, key)
  {
    WithoutKeeps(f, "sequence", key);
    WithoutKeeps(Without(f, "sequence"), "updated_at", key);
  }

  /** Two snapshots whose other members have the same normal form have the same semantic text. */
  lemma SameSemanticText(a: Fields, b: Fields)
    requires Valid(Object(a)) && Valid(Object(b))
    requires forall key :: key != "sequence" && key != "updated_at" ==>
      Mapped(Lookup(a, key), Norm) == Mapped(Lookup(b, key), Norm)
    ensures SemanticText(a) == SemanticText(b)
  {
    forall key
      ensures Lookup(NormFields(Content(a)), key) == Lookup(NormFields(Content(b)), key)
    {
      ContentEntry(a, key);
      ContentEntry(b, key);
      Entrywise(Content(a), key);
      Entrywise(Content(b), key);
    }
    Entrywise(Content(a), "");
    Entrywise(Content(b), "");
    SortCanonical(NormFields(Content(a)), NormFields(Content(b)));
    SemanticTwice(Object(Content(a)));
    SemanticTwice(Object(Content(b)));
  }

  /** Storing and decoding a snapshot keeps its semantic text. */
  lemma StoredSemanticText(f: Fields, sequence: int)
    requires Valid(Object(f))
    ensures var event := Versioned(f, sequence);
      Valid(Object(SortFields(event))) && SemanticText(SortFields(event)) == SemanticText(f)
  {
    var event := Versioned(f, sequence);
    PayloadDecodes(f, sequence);
    forall key | key != "sequence" && key != "updated_at"
      ensures Mapped(Lookup(SortFields(event), key), Norm) == Mapped(Lookup(f, key), Norm)
    {
      SortKeeps(event, key);
      VersionedEntry(f, sequence, key);
      if Has(f, key) {
        ValidLookup(f, key);
        RereadKeepsContent(Lookup(f, key).value);
      }
    }
    SameSemanticText(SortFields(event), f);
  }

  /** Every row `prepare` stores is accepted by `_restore`, and restores to the event it returned. */
  lemma StoredRowRestores(account: string, clock: Clock, f: Fields, sequence: int, acknowledged: int)
    requires Valid(Object(f)) && Publishable(account, clock, f) && 1 <= sequence <= MAX_SEQUENCE
      && 0 <= acknowledged <= sequence
    ensures var (event, id) := (Versioned(f, sequence), Identity(account, f).value);
      var row := Row(sequence, SemanticText(f), Encoded(Object(event)), acknowledged);
      RowOk(account, clock, row, id) && Restore(account, clock, row, id) == Some(SortFields(event))
  {
    hide IdentityOf, SemanticText, Encoded, Versioned, Read;
    PayloadDecodes(f, sequence);
    StoredSemanticText(f, sequence);
    StoredEntries(f, sequence);
  }

  lemma StoredEntries(f: Fields, sequence: int)
    requires Valid(Object(f))
    ensures var restored := SortFields(Versioned(f, sequence));
      && Lookup(restored, "sequence") == Some(Int(sequence))
      && TextAt(restored, "account_id") == TextAt(f, "account_id")
      && TextAt(restored, "order_id") == TextAt(f, "order_id")
      && TextAt(restored, "created_at") == TextAt(f, "created_at")
      && TextAt(restored, "updated_at") == TextAt(f, "updated_at")
  {
    var event := Versioned(f, sequence);
    StoredEntry(f, sequence, "sequence");
    StoredEntry(f, sequence, "account_id");
    StoredEntry(f, sequence, "order_id");
    StoredEntry(f, sequence, "created_at");
    StoredEntry(f, sequence, "updated_at");
  }

  lemma StoredEntry(f: Fields, sequence: int, key: string)
    requires Valid(Object(f))
    ensures Lookup(SortFields(Versioned(f, sequence)), key) == Lookup(Versioned(f, sequence), key)
    ensures key == "sequence" ==> Lookup(Versioned(f, sequence), key) == Some(Int(sequence))
    ensures key != "sequence" ==> TextAt(SortFields(Versioned(f, sequence)), key) == TextAt(f, key)
  {
    VersionedEntry(f, sequence, key);
    SortKeeps(Versioned(f, sequence), key);
  }

  /** The table and the event of one accepted call. */
  ghost predicate Accepted(account: string, clock: Clock, rows: Rows, f: Fields, after: Rows, event: Fields, id: string)
    requires Valid(Object(f))
  {
    && RowsOk(account, clock, after) && id in after && after.Keys == rows.Keys + {id}
    && Valid(Object(event)) && Encoded(Object(event)) == after[id].payload
    && Identity(account, event) == Some(id) && Lookup(event, "sequence") == Some(Int(after[id].sequence))
    && after[id].semantic == SemanticText(f)
    && (forall other :: other in rows && other != id ==> after[other] == rows[other])
    && (id in rows ==> after[id].acknowledged == rows[id].acknowledged)
  }

  lemma OneRowReplaced(account: string, clock: Clock, rows: Rows, id: string, row: Row)
    requires RowsOk(account, clock, rows) && RowOk(account, clock, row, id)
    ensures RowsOk(account, clock, rows[id := row]) && rows[id := row].Keys == rows.Keys + {id}
  {
    hide RowOk;
  }

  lemma StoredIsAccepted(account: string, clock: Clock, rows: Rows, f: Fields, sequence: int)
    requires Valid(Object(f)) && RowsOk(account, clock, rows) && Publishable(account, clock, f)
      && 1 <= sequence <= MAX_SEQUENCE
    requires var id := Identity(account, f).value; id in rows ==> 0 <= rows[id].acknowledged <= sequence
    ensures var (id, event) := (Identity(account, f).value, Versioned(f, sequence));
      Accepted(account, clock, rows, f, Stored(rows, id, event, sequence, SemanticText(f)), event, id)
  {
    hide IdentityOf, Identity, SemanticText, Encoded, Versioned, RowOk, RowsOk, InstantAt;
    var id, event := Identity(account, f).value, Versioned(f, sequence);
    var row := Row(sequence, SemanticText(f), Encoded(Object(event)), if id in rows then rows[id].acknowledged else 0);
    StoredRowRestores(account, clock, f, sequence, row.acknowledged);
    OneRowReplaced(account, clock, rows, id, row);
    EventIdentity(account, f, sequence);
  }

  /** `prepare` keeps every row restorable and returns exactly what the row stores. */
  lemma PrepareKeepsRows(account: string, clock: Clock, rows: Rows, f: Fields)
    requires Valid(Object(f)) && RowsOk(account, clock, rows) && Prepared(account, clock, rows, f).Some?
    ensures var (after, event) := Prepared(account, clock, rows, f).value;
      Accepted(account, clock, rows, f, after, event, Identity(account, f).value)
  {
    var id := Identity(account, f).value;
    if id !in rows {
      FirstVersion(account, clock, rows, f);
    } else {
      RowFacts(account, clock, rows, id);
      if SemanticText(f) != rows[id].semantic {
        NextVersion(account, clock, rows, f);
      } else {
        UnchangedIsAccepted(account, clock, rows, f);
      }
    }
  }

  lemma RowFacts(account: string, clock: Clock, rows: Rows, id: string)
    requires RowsOk(account, clock, rows) && id in rows
    ensures Restore(account, clock, rows[id], id).Some?
    ensures 0 <= rows[id].acknowledged <= rows[id].sequence && 1 <= rows[id].sequence <= MAX_SEQUENCE
  {
    hide IdentityOf, SemanticText, Encoded;
    assert RowOk(account, clock, rows[id], id);
  }

  lemma FirstVersion(account: string, clock: Clock, rows: Rows, f: Fields)
    requires Valid(Object(f)) && RowsOk(account, clock, rows) && Publishable(account, clock, f)
    requires Identity(account, f).value !in rows
    ensures Prepared(account, clock, rows, f).Some?
    ensures var (after, event) := Prepared(account, clock, rows, f).value;
      Accepted(account, clock, rows, f, after, event, Identity(account, f).value)
  {
    hide IdentityOf, SemanticText, Encoded, Versioned, Accepted, RowsOk;
    StoredIsAccepted(account, clock, rows, f, 1);
  }

  lemma NextVersion(account: string, clock: Clock, rows: Rows, f: Fields)
    requires Valid(Object(f)) && RowsOk(account, clock, rows) && Prepared(account, clock, rows, f).Some?
    requires var id := Identity(account, f).value;
      id in rows && SemanticText(f) != rows[id].semantic && 0 <= rows[id].acknowledged <= rows[id].sequence
        && 1 <= rows[id].sequence <= MAX_SEQUENCE
    ensures var (after, event) := Prepared(account, clock, rows, f).value;
      Accepted(account, clock, rows, f, after, event, Identity(account, f).value)
  {
    hide IdentityOf, SemanticText, Encoded, Versioned, Accepted, RowsOk, Restore;
    StoredIsAccepted(account, clock, rows, f, rows[Identity(account, f).value].sequence + 1);
  }

  lemma UnchangedIsAccepted(account: string, clock: Clock, rows: Rows, f: Fields)
    requires Valid(Object(f)) && RowsOk(account, clock, rows) && Prepared(account, clock, rows, f).Some?
    requires var id := Identity(account, f); id.Some? && id.value in rows && SemanticText(f) == rows[id.value].semantic
    ensures var (after, event) := Prepared(account, clock, rows, f).value;
      Accepted(account, clock, rows, f, after, event, Identity(account, f).value)
  {
    hide IdentityOf, SemanticText, Encoded;
    var id := Identity(account, f).value;
    assert RowOk(account, clock, rows[id], id);
    assert rows.Keys == rows.Keys + {id};
  }

  lemma EventIdentity(account: string, f: Fields, sequence: int)
    requires Valid(Object(f))
    ensures Identity(account, Versioned(f, sequence)) == Identity(account, f)
    ensures Lookup(Versioned(f, sequence), "sequence") == Some(Int(sequence))
  {
    VersionedEntry(f, sequence, "account_id");
    VersionedEntry(f, sequence, "order_id");
    VersionedEntry(f, sequence, "sequence");
  }
}
