/**
 The outbox as the publisher uses it: an object over one table, and what holds over any series
 of its calls.
 */
module OrderJournal {
  import opened Common
  import opened JsonValues
  import opened JsonContent
  import opened Canonical
  import opened JsonReader
  import opened OrderPublication

  /** Row keys in the order `ORDER BY id` yields them. */
  predicate Ascending(ids: seq<string>) {
    forall i, j :: 0 <= i < j < |ids| ==> Less(ids[i], ids[j])
  }

  function InsertId(ids: seq<string>, id: string): seq<string> {
    if ids == [] || Less(id, ids[0]) then [id] + ids else [ids[0]] + InsertId(ids[1..], id)
  }

  lemma {:induction false} InsertAscending(ids: seq<string>, id: string)
    requires Ascending(ids) && id !in ids
    ensures Ascending(InsertId(ids, id))
    ensures forall x :: x in InsertId(ids, id) <==> x in ids || x == id
  {
    if ids != [] {
      LessTotal(id, ids[0]);
      if Less(id, ids[0]) {
        forall j | 0 <= j < |ids|
          ensures Less(id, ids[j])
        {
          if j > 0 { LessTransitive(id, ids[0], ids[j]); }
        }
      } else {
        InsertAscending(ids[1..], id);
        assert forall x :: x in InsertId(ids[1..], id) ==> Less(ids[0], x);
        assert ids == [ids[0]] + ids[1..];
      }
    }
  }

  /** What `_restore` makes of the row of an order. */
  function SavedEvent(account: string, clock: Clock, rows: Rows, id: string): Option<Fields> {
    if id in rows then Restore(account, clock, rows[id], id) else None
  }

  // ---------------------------------------------------------------- what is refused

  /** The event a row stores. */
  function StoredEvent(row: Row): Fields {
    match Read(row.payload)
    case Some(Object(f)) => f
    case _ => NoFields
  }

  /** Something but the sequence and the update time is different, numbers compared by value. */
  ghost predicate ContentChanged(row: Row, f: Fields)
    requires Valid(Object(f)) && Valid(Object(StoredEvent(row)))
  {
    !SameContent(Object(Content(f)), Object(Content(StoredEvent(row))))
  }

  /** Why `prepare` refuses a snapshot of an order that has a row. */
  ghost predicate Contradicts(clock: Clock, row: Row, f: Fields)
    requires Valid(Object(f)) && Valid(Object(StoredEvent(row)))
  {
    var saved := StoredEvent(row);
    || TextAt(f, "created_at") != TextAt(saved, "created_at")
    || (ContentChanged(row, f) &&
        (|| row.sequence == MAX_SEQUENCE
         || InstantAt(clock, f, "updated_at").None? || InstantAt(clock, saved, "updated_at").None?
         || InstantAt(clock, f, "updated_at").value < InstantAt(clock, saved, "updated_at").value))
  }

  /** Why it refuses any snapshot: no usable account, order or timestamps, or a sequence of its own. */
  predicate Unusable(account: string, clock: Clock, f: Fields) {
    || TextAt(f, "account_id") != Some(account)
    || TextAt(f, "order_id").None? || Blank(TextAt(f, "order_id").value)
    || Has(f, "sequence")
    || InstantAt(clock, f, "created_at").None? || InstantAt(clock, f, "updated_at").None?
  }

  /** The key of a usable snapshot's order. */
  function KeyOf(account: string, f: Fields): string {
    match TextAt(f, "order_id")
    case Some(order) => IdentityOf(account, order)
    case None => ""
  }

  ghost predicate Refused(account: string, clock: Clock, rows: Rows, f: Fields)
    requires Valid(Object(f)) && RowsOk(account, clock, rows)
  {
    || Unusable(account, clock, f)
    || (var id := KeyOf(account, f);
        id in rows && (StoredValid(account, clock, rows, id); Contradicts(clock, rows[id], f)))
  }

  /** The sequence of the event that an accepted snapshot yields. */
  ghost function NextSequence(account: string, clock: Clock, rows: Rows, f: Fields): int
    requires Valid(Object(f)) && RowsOk(account, clock, rows)
  {
    var id := KeyOf(account, f);
    if id !in rows then 1
    else (StoredValid(account, clock, rows, id); rows[id].sequence + if ContentChanged(rows[id], f) then 1 else 0)
  }

  lemma StoredValid(account: string, clock: Clock, rows: Rows, id: string)
    requires RowsOk(account, clock, rows) && id in rows
    ensures Restore(account, clock, rows[id], id) == Some(StoredEvent(rows[id]))
    ensures Valid(Object(StoredEvent(rows[id]))) && SemanticText(StoredEvent(rows[id])) == rows[id].semantic
    ensures Lookup(StoredEvent(rows[id]), "sequence") == Some(Int(rows[id].sequence))
  {
    hide IdentityOf, SemanticText, Encoded, Read;
    RowFacts(account, clock, rows, id);
    assert RowOk(account, clock, rows[id], id);
  }

  lemma StoredText(account: string, clock: Clock, rows: Rows, id: string, f: Fields)
    requires RowsOk(account, clock, rows) && id in rows && Valid(Object(f))
    ensures Valid(Object(StoredEvent(rows[id])))
    ensures SemanticText(f) != rows[id].semantic <==> ContentChanged(rows[id], f)
  {
    hide SemanticText, SameContent, Content;
    StoredValid(account, clock, rows, id);
    SemanticTextComparesContent(f, StoredEvent(rows[id]));
  }

  /** Creation texts are compared as decoding yields them, which keeps texts. */
  lemma CreationTexts(account: string, clock: Clock, rows: Rows, id: string, f: Fields)
    requires RowsOk(account, clock, rows) && id in rows && Valid(Object(f)) && TextAt(f, "created_at").Some?
    ensures Lookup(Decoded(f), "created_at") == Lookup(StoredEvent(rows[id]), "created_at") <==>
      TextAt(f, "created_at") == TextAt(StoredEvent(rows[id]), "created_at")
  {
    hide SemanticText, Encoded, Read, IdentityOf;
    DecodedEntry(f, "created_at");
    StoredValid(account, clock, rows, id);
  }

  /**
   Exactly which snapshots are refused, and which sequence an accepted one gets: one for a new
   order, the stored one while the content is the same, the next one when it differs.
   */
  lemma PrepareRefusesExactly(account: string, clock: Clock, rows: Rows, f: Fields)
    requires Valid(Object(f)) && RowsOk(account, clock, rows)
    ensures Prepared(account, clock, rows, f).None? <==> Refused(account, clock, rows, f)
    ensures Prepared(account, clock, rows, f).Some? ==>
      Lookup(Prepared(account, clock, rows, f).value.1, "sequence") == Some(Int(NextSequence(account, clock, rows, f)))
  {
    hide SemanticText, Encoded, Read, IdentityOf, ContentChanged, RowsOk, StoredEvent, Restore, Versioned, Decoded;
    if !Unusable(account, clock, f) {
      var id := KeyOf(account, f);
      if id in rows {
        StoredValid(account, clock, rows, id);
        StoredText(account, clock, rows, id, f);
        CreationTexts(account, clock, rows, id, f);
        VersionedEntry(f, rows[id].sequence + 1, "sequence");
      } else {
        VersionedEntry(f, 1, "sequence");
      }
    }
  }

  /** A row that was stored under another key, or whose sequence or compared text was altered, is refused. */
  lemma AlteredRowIsRefused(account: string, clock: Clock, row: Row, id: string, altered: Row, key: string)
    requires RowOk(account, clock, row, id) && altered.payload == row.payload
    requires key != id || altered.sequence != row.sequence || altered.semantic != row.semantic
    ensures Restore(account, clock, altered, key).None?
  {
    hide IdentityOf, SemanticText, Encoded, Read;
  }

  class OrderPublicationJournal {
    const account: string
    const clock: Clock
    var rows: Rows

    ghost predicate Consistent()
      reads this
    {
      RowsOk(account, clock, rows)
    }

    constructor (account: string, clock: Clock)
      ensures this.account == account && this.clock == clock && rows == map[] && Consistent()
    {
      this.account, this.clock, this.rows := account, clock, map[];
    }

    /** `prepare`. A refused snapshot, and a failing transaction, leave the table as it was. */
    method Prepare(snapshot: Fields, storeFails: bool) returns (event: Option<Fields>)
      requires Valid(Object(snapshot))
      modifies this
      ensures storeFails ==> event == None && rows == old(rows)
      ensures !storeFails ==>
        match Prepared(account, clock, old(rows), snapshot)
        case None => event == None && rows == old(rows)
        case Some((after, prepared)) => event == Some(prepared) && rows == after
      ensures !storeFails && RowsOk(account, clock, old(rows)) ==>
        && (event.None? <==> Refused(account, clock, old(rows), snapshot))
        && (event.Some? ==>
            Lookup(event.value, "sequence") == Some(Int(NextSequence(account, clock, old(rows), snapshot))))
    {
      hide IdentityOf, SemanticText, Encoded, Read, RowsOk, Refused, NextSequence;
      hide Restore, Stored, Versioned, InstantAt, Identity;
      if RowsOk(account, clock, rows) {
        PrepareRefusesExactly(account, clock, rows, snapshot);
      }
      var identity := Identity(account, snapshot);
      if identity.None? || Has(snapshot, "sequence") {
        return None;
      }
      var id := identity.value;
      var updated := InstantAt(clock, snapshot, "updated_at");
      if InstantAt(clock, snapshot, "created_at").None? || updated.None? {
        return None;
      }
      var semantic := SemanticText(snapshot);
      ReadsBack(Object(snapshot));
      var decoded := Read(Encoded(Object(snapshot))).value.fields;
      assert decoded == Decoded(snapshot);
      if storeFails {
        return None;
      }
      var sequence := 1;
      if id in rows {
        var previous := Restore(account, clock, rows[id], id);
        if previous.None? || Lookup(decoded, "created_at") != Lookup(previous.value, "created_at") {
          return None;
        }
        if semantic == rows[id].semantic {
          return previous;
        }
        var before := InstantAt(clock, previous.value, "updated_at");
        if before.None? || updated.value < before.value || rows[id].sequence == MAX_SEQUENCE {
          return None;
        }
        sequence := rows[id].sequence + 1;
      }
      event := Some(Versioned(snapshot, sequence));
      rows := Stored(rows, id, event.value, sequence, semantic);
    }

    /** The keys the query of `pending` selects, in key order. */
    method SelectUnacknowledged() returns (ids: seq<string>)
      ensures Ascending(ids) && forall id :: id in ids <==> Unacknowledged(rows, id)
    {
      ids := [];
      var left := rows.Keys;
      while left != {}
        invariant left <= rows.Keys && Ascending(ids)
        invariant forall id :: id in ids <==> id !in left && Unacknowledged(rows, id)
        decreases left
      {
        var id :| id in left;
        left := left - {id};
        if rows[id].acknowledged < rows[id].sequence {
          InsertAscending(ids, id);
          ids := InsertId(ids, id);
        }
      }
    }

    /** `pending`: the saved events of the unacknowledged rows; one unusable row fails the call. */
    method Pending(storeFails: bool) returns (ids: seq<string>, events: Option<seq<Fields>>)
      ensures Ascending(ids) && forall id :: id in ids <==> Unacknowledged(rows, id)
      ensures events.None? <==>
        storeFails || exists k :: 0 <= k < |ids| && SavedEvent(account, clock, rows, ids[k]).None?
      ensures events.Some? ==> |events.value| == |ids|
      ensures events.Some? ==> forall k :: 0 <= k < |ids| ==>
        SavedEvent(account, clock, rows, ids[k]) == Some(events.value[k])
    {
      hide Restore, Less;
      ids := SelectUnacknowledged();
      if storeFails {
        return ids, None;
      }
      var restored: seq<Fields> := [];
      for i := 0 to |ids|
        invariant |restored| == i
        invariant forall k :: 0 <= k < i ==> SavedEvent(account, clock, rows, ids[k]) == Some(restored[k])
      {
        assert ids[i] in ids;
        var event := Restore(account, clock, rows[ids[i]], ids[i]);
        if event.None? {
          return ids, None;
        }
        restored := restored + [event.value];
      }
      return ids, Some(restored);
    }

    /** `ack`: only the exact stored payload of the latest sequence is marked. */
    method Ack(event: Fields, storeFails: bool) returns (r: Result<bool>)
      requires Valid(Object(event))
      modifies this
      ensures r.Failure? <==> storeFails || Identity(account, event).None? || !SequenceInRange(event)
      ensures r.Failure? ==> rows == old(rows)
      ensures r.Success? ==>
        var (id, n, payload) :=
          (Identity(account, event).value, Lookup(event, "sequence").value.n, Encoded(Object(event)));
        && r.value == Acknowledges(old(rows), id, n, payload)
        && rows == Acknowledged(old(rows), id, n, payload)
    {
      hide IdentityOf, Encoded;
      var identity := Identity(account, event);
      if identity.None? || !SequenceInRange(event) || storeFails {
        return Failure;
      }
      var id, payload, sequence := identity.value, Encoded(Object(event)), Lookup(event, "sequence").value.n;
      var matched := id in rows && rows[id].sequence == sequence && rows[id].payload == payload;
      if matched {
        rows := rows[id := rows[id].(acknowledged := sequence)];
      }
      return Success(matched);
    }
  }

  /** The sequence member `ack` requires: an integer, and not a boolean. */
  predicate SequenceInRange(event: Fields) {
    match Lookup(event, "sequence")
    case Some(Int(n)) => 1 <= n <= MAX_SEQUENCE
    case _ => false
  }

  // ---------------------------------------------------------------- series of calls

  datatype Call = PrepareCall(snapshot: Fields) | AckCall(event: Fields)

  ghost predicate ValidCalls(calls: seq<Call>) {
    forall c :: c in calls ==> Valid(Object(if c.PrepareCall? then c.snapshot else c.event))
  }

  ghost function Step(account: string, clock: Clock, rows: Rows, c: Call): Rows
    requires Valid(Object(if c.PrepareCall? then c.snapshot else c.event))
  {
    match c
    case PrepareCall(f) =>
      (match Prepared(account, clock, rows, f)
       case None => rows
       case Some((after, _)) => after)
    case AckCall(event) =>
      if Identity(account, event).None? || !SequenceInRange(event) then rows
      else Acknowledged(rows, Identity(account, event).value, Lookup(event, "sequence").value.n, Encoded(Object(event)))
  }

  /** The table a series of calls leads to, from an empty one. */
  ghost function Reached(account: string, clock: Clock, calls: seq<Call>): Rows
    requires ValidCalls(calls)
  {
    if calls == [] then map[]
    else
      var last := calls[|calls| - 1];
      assert last in calls;
      Step(account, clock, Reached(account, clock, calls[..|calls| - 1]), last)
  }

  lemma AckKeepsRows(account: string, clock: Clock, rows: Rows, id: string, sequence: int, payload: string)
    requires RowsOk(account, clock, rows)
    ensures RowsOk(account, clock, Acknowledged(rows, id, sequence, payload))
  {
    hide IdentityOf, SemanticText, Encoded, Read;
    if Acknowledges(rows, id, sequence, payload) {
      var row := rows[id].(acknowledged := sequence);
      assert RowOk(account, clock, rows[id], id);
      RowFacts(account, clock, rows, id);
      assert Restore(account, clock, row, id) == Restore(account, clock, rows[id], id);
      OneRowReplaced(account, clock, rows, id, row);
    }
  }

  lemma StepKeepsRows(account: string, clock: Clock, rows: Rows, c: Call)
    requires RowsOk(account, clock, rows) && Valid(Object(if c.PrepareCall? then c.snapshot else c.event))
    ensures RowsOk(account, clock, Step(account, clock, rows, c))
  {
    hide IdentityOf, SemanticText, Encoded, RowsOk, Restore, Prepared;
    match c
    case PrepareCall(f) => if Prepared(account, clock, rows, f).Some? { PrepareKeepsRows(account, clock, rows, f); }
    case AckCall(event) =>
      if Identity(account, event).Some? && SequenceInRange(event) {
        AckKeepsRows(account, clock, rows, Identity(account, event).value, Lookup(event, "sequence").value.n,
                     Encoded(Object(event)));
      }
  }

  /** Every row of every reachable table is accepted by `_restore`. */
  lemma {:induction false} ReachableRowsRestore(account: string, clock: Clock, calls: seq<Call>)
    requires ValidCalls(calls)
    ensures RowsOk(account, clock, Reached(account, clock, calls))
  {
    hide RowOk, Step;
    if calls != [] {
      ReachableRowsRestore(account, clock, calls[..|calls| - 1]);
      assert calls[|calls| - 1] in calls;
      StepKeepsRows(account, clock, Reached(account, clock, calls[..|calls| - 1]), calls[|calls| - 1]);
    }
  }

  // ---------------------------------------------------------------- sequence numbers count versions

  /** The semantic texts of the accepted snapshots of one order, oldest first. */
  ghost function AcceptedTexts(account: string, clock: Clock, calls: seq<Call>, id: string): seq<string>
    requires ValidCalls(calls)
  {
    if calls == [] then []
    else
      var before, last := calls[..|calls| - 1], calls[|calls| - 1];
      assert last in calls;
      AcceptedTexts(account, clock, before, id) +
      if last.PrepareCall? && Identity(account, last.snapshot) == Some(id)
         && Prepared(account, clock, Reached(account, clock, before), last.snapshot).Some?
      then [SemanticText(last.snapshot)] else []
  }

  /** How often a series of texts takes a value other than the one just before. */
  function Versions(texts: seq<string>): nat {
    if |texts| == 0 then 0
    else if |texts| == 1 then 1
    else Versions(texts[..|texts| - 1]) + if texts[|texts| - 1] != texts[|texts| - 2] then 1 else 0
  }

  lemma OneMoreText(texts: seq<string>, text: string)
    ensures Versions(texts + [text]) == Versions(texts) + if texts != [] && texts[|texts| - 1] == text then 0 else 1
  {
    var more := texts + [text];
    assert more[..|texts|] == texts;
  }

  /** The row of one order against the texts accepted for it. */
  ghost predicate Counts(rows: Rows, id: string, texts: seq<string>) {
    && (id in rows <==> texts != [])
    && (id in rows ==> rows[id].sequence == Versions(texts) && rows[id].semantic == texts[|texts| - 1])
  }

  lemma PrepareCounts(account: string, clock: Clock, rows: Rows, f: Fields, id: string, texts: seq<string>)
    requires Valid(Object(f)) && RowsOk(account, clock, rows) && Counts(rows, id, texts)
    requires Prepared(account, clock, rows, f).Some?
    ensures Counts(Prepared(account, clock, rows, f).value.0, id,
      if Identity(account, f) == Some(id) then texts + [SemanticText(f)] else texts)
  {
    hide IdentityOf, SemanticText, Encoded, Versioned, RowOk, Restore;
    OneMoreText(texts, SemanticText(f));
  }

  /**
   An order's sequence number is the number of times the content accepted for it changed,
   the first acceptance included; refused and unchanged snapshots never consume a number.
   */
  lemma {:induction false} SequenceCountsVersions(account: string, clock: Clock, calls: seq<Call>, id: string)
    requires ValidCalls(calls)
    ensures Counts(Reached(account, clock, calls), id, AcceptedTexts(account, clock, calls, id))
  {
    hide IdentityOf, Identity, SemanticText, Encoded, RowsOk, Restore, Prepared, Versions;
    if calls != [] {
      var before, last := calls[..|calls| - 1], calls[|calls| - 1];
      assert last in calls;
      SequenceCountsVersions(account, clock, before, id);
      ReachableRowsRestore(account, clock, before);
      var rows, texts := Reached(account, clock, before), AcceptedTexts(account, clock, before, id);
      assert texts + [] == texts;
      if last.PrepareCall? && Prepared(account, clock, rows, last.snapshot).Some? {
        PrepareCounts(account, clock, rows, last.snapshot, id, texts);
      }
    }
  }

  /** The semantic text of two snapshots is equal exactly when their content is. */
  lemma SemanticTextComparesContent(a: Fields, b: Fields)
    requires Valid(Object(a)) && Valid(Object(b))
    ensures SemanticText(a) == SemanticText(b) <==> SameContent(Object(Content(a)), Object(Content(b)))
  {
    SemanticTextIdentifiesContent(Object(Content(a)), Object(Content(b)));
  }

  // ---------------------------------------------------------------- rows only move forward

  function CreatedOf(account: string, clock: Clock, row: Row, id: string): Option<string> {
    match Restore(account, clock, row, id)
    case None => None
    case Some(f) => TextAt(f, "created_at")
  }

  function UpdatedOf(account: string, clock: Clock, row: Row, id: string): Option<int> {
    match Restore(account, clock, row, id)
    case None => None
    case Some(f) => InstantAt(clock, f, "updated_at")
  }

  ghost predicate RowFollows(account: string, clock: Clock, row: Row, later: Row, id: string) {
    && row.sequence <= later.sequence && row.acknowledged <= later.acknowledged
    && (row.sequence == later.sequence ==> later.payload == row.payload && later.semantic == row.semantic)
    && CreatedOf(account, clock, row, id) == CreatedOf(account, clock, later, id)
    && UpdatedOf(account, clock, row, id).Some? && UpdatedOf(account, clock, later, id).Some?
    && UpdatedOf(account, clock, row, id).value <= UpdatedOf(account, clock, later, id).value
  }

  ghost predicate Follows(account: string, clock: Clock, rows: Rows, later: Rows) {
    forall id :: id in rows ==> id in later && RowFollows(account, clock, rows[id], later[id], id)
  }

  lemma RowFollowsItself(account: string, clock: Clock, row: Row, id: string)
    requires RowOk(account, clock, row, id)
    ensures RowFollows(account, clock, row, row, id)
  {
    hide IdentityOf, SemanticText, Encoded, Read;
  }

  lemma StoredStamps(account: string, clock: Clock, f: Fields, sequence: int, acknowledged: int, id: string)
    requires Valid(Object(f)) && Publishable(account, clock, f) && Identity(account, f) == Some(id)
    requires 1 <= sequence <= MAX_SEQUENCE && 0 <= acknowledged <= sequence
    ensures var row := Row(sequence, SemanticText(f), Encoded(Object(Versioned(f, sequence))), acknowledged);
      && CreatedOf(account, clock, row, id) == TextAt(f, "created_at")
      && UpdatedOf(account, clock, row, id) == InstantAt(clock, f, "updated_at")
  {
    hide IdentityOf, Identity, SemanticText, Encoded, Versioned, Publishable, Restore, RowOk;
    StoredRowRestores(account, clock, f, sequence, acknowledged);
    StoredEntries(f, sequence);
  }

  /** A next version keeps the creation text, and its update instant is not earlier. */
  lemma NextVersionFollows(account: string, clock: Clock, row: Row, f: Fields, id: string)
    requires Valid(Object(f)) && Publishable(account, clock, f) && Identity(account, f) == Some(id)
    requires Restore(account, clock, row, id).Some? && 1 <= row.sequence < MAX_SEQUENCE
      && 0 <= row.acknowledged <= row.sequence
    requires Advances(clock, row, Restore(account, clock, row, id).value, f) && SemanticText(f) != row.semantic
    ensures var next := Row(row.sequence + 1, SemanticText(f), Encoded(Object(Versioned(f, row.sequence + 1))),
                            row.acknowledged);
      RowFollows(account, clock, row, next, id)
  {
    hide IdentityOf, Identity, SemanticText, Encoded, Versioned, Publishable, Restore, Decoded, InstantAt;
    var previous := Restore(account, clock, row, id).value;
    StoredStamps(account, clock, f, row.sequence + 1, row.acknowledged, id);
    DecodedEntry(f, "created_at");
    assert TextAt(Decoded(f), "created_at") == TextAt(previous, "created_at");
  }

  lemma PrepareFollows(account: string, clock: Clock, rows: Rows, f: Fields)
    requires Valid(Object(f)) && RowsOk(account, clock, rows) && Prepared(account, clock, rows, f).Some?
    ensures Follows(account, clock, rows, Prepared(account, clock, rows, f).value.0)
  {
    hide IdentityOf, SemanticText, Encoded, Versioned, Restore, RowOk, RowFollows;
    forall id | id in rows
      ensures RowFollows(account, clock, rows[id], rows[id], id)
    {
      RowFollowsItself(account, clock, rows[id], id);
    }
    var id := Identity(account, f).value;
    if id in rows && SemanticText(f) != rows[id].semantic {
      RowFacts(account, clock, rows, id);
      NextVersionFollows(account, clock, rows[id], f, id);
    }
  }

  lemma AckFollows(account: string, clock: Clock, rows: Rows, id: string, sequence: int, payload: string)
    requires RowsOk(account, clock, rows)
    ensures Follows(account, clock, rows, Acknowledged(rows, id, sequence, payload))
  {
    hide IdentityOf, SemanticText, Encoded, Read;
    forall other | other in rows
      ensures RowFollows(account, clock, rows[other], Acknowledged(rows, id, sequence, payload)[other], other)
    {
      RowFollowsItself(account, clock, rows[other], other);
    }
  }

  lemma StepFollows(account: string, clock: Clock, rows: Rows, c: Call)
    requires RowsOk(account, clock, rows) && Valid(Object(if c.PrepareCall? then c.snapshot else c.event))
    ensures Follows(account, clock, rows, Step(account, clock, rows, c))
  {
    hide IdentityOf, Identity, SemanticText, Encoded, Restore, Prepared, RowOk, RowFollows, Acknowledged;
    forall id | id in rows
      ensures RowFollows(account, clock, rows[id], rows[id], id)
    {
      RowFollowsItself(account, clock, rows[id], id);
    }
    match c
    case PrepareCall(f) => if Prepared(account, clock, rows, f).Some? { PrepareFollows(account, clock, rows, f); }
    case AckCall(event) =>
      if Identity(account, event).Some? && SequenceInRange(event) {
        AckFollows(account, clock, rows, Identity(account, event).value, Lookup(event, "sequence").value.n,
                   Encoded(Object(event)));
      }
  }

  lemma FollowsTransitive(account: string, clock: Clock, a: Rows, b: Rows, c: Rows)
    requires Follows(account, clock, a, b) && Follows(account, clock, b, c)
    ensures Follows(account, clock, a, c)
  {
    hide CreatedOf, UpdatedOf;
  }

  /**
   Over any further calls a row never disappears, its sequence and acknowledgement never go
   back, one sequence never carries two payloads, its creation text never changes and its
   update instant never decreases.
   */
  lemma {:induction false} RowsOnlyAdvance(account: string, clock: Clock, calls: seq<Call>, more: seq<Call>)
    requires ValidCalls(calls) && ValidCalls(more)
    ensures ValidCalls(calls + more)
    ensures Follows(account, clock, Reached(account, clock, calls), Reached(account, clock, calls + more))
    decreases |more|
  {
    hide Step, RowFollows, RowOk;
    if more == [] {
      assert calls + more == calls;
      ReachableRowsRestore(account, clock, calls);
      var rows := Reached(account, clock, calls);
      forall id | id in rows
        ensures RowFollows(account, clock, rows[id], rows[id], id)
      {
        RowFollowsItself(account, clock, rows[id], id);
      }
    } else {
      var some, last := more[..|more| - 1], more[|more| - 1];
      assert last in more;
      RowsOnlyAdvance(account, clock, calls, some);
      assert (calls + more)[..|calls + more| - 1] == calls + some;
      ReachableRowsRestore(account, clock, calls + some);
      StepFollows(account, clock, Reached(account, clock, calls + some), last);
      FollowsTransitive(account, clock, Reached(account, clock, calls), Reached(account, clock, calls + some),
                        Reached(account, clock, calls + more));
    }
  }
}
