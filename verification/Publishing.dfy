/**
 `publish_orders`: the two order reads merged, the batch persisted before anything is sent,
 every saved event sent and acknowledged. How a broker row becomes a snapshot is a parameter.
 */
module Publishing {
  import opened Common
  import opened JsonValues
  import opened Canonical
  import opened OrderPublication
  import opened OrderJournal
  import opened OrderTopic

  // ---------------------------------------------------------------- merging the two reads

  /** A broker row; `None` is a missing or non-text reference. */
  datatype OrderRead<+T> = OrderRead(reference: Option<string>, row: T)

  predicate Usable<T>(rows: seq<OrderRead<T>>) {
    && (forall k :: 0 <= k < |rows| ==> rows[k].reference.Some? && rows[k].reference.value != "")
    && (forall j, k :: 0 <= j < k < |rows| ==> rows[j].reference != rows[k].reference)
  }

  ghost predicate Lists<T>(rows: seq<OrderRead<T>>, reference: string, row: T) {
    OrderRead(Some(reference), row) in rows
  }

  ghost predicate Names<T>(rows: seq<OrderRead<T>>, reference: string) {
    exists k :: 0 <= k < |rows| && rows[k].reference == Some(reference)
  }

  /** Both reads must name every row once; a current row replaces the same order's history row. */
  method MergeReads<T>(history: seq<OrderRead<T>>, current: seq<OrderRead<T>>) returns (merged: Option<map<string, T>>)
    ensures merged.Some? <==> Usable(history) && Usable(current)
    ensures merged.Some? ==> forall r :: r in merged.value <==> Names(history, r) || Names(current, r)
    ensures merged.Some? ==> forall r :: r in merged.value ==>
      if Names(current, r) then Lists(current, r, merged.value[r]) else Lists(history, r, merged.value[r])
  {
    var first := MergeInto(map[], history);
    if first.None? {
      return None;
    }
    merged := MergeInto(first.value, current);
  }

  method MergeInto<T>(before: map<string, T>, rows: seq<OrderRead<T>>) returns (merged: Option<map<string, T>>)
    ensures merged.Some? <==> Usable(rows)
    ensures merged.Some? ==> forall r :: r in merged.value <==> r in before || Names(rows, r)
    ensures merged.Some? ==> forall r :: r in merged.value ==>
      if Names(rows, r) then Lists(rows, r, merged.value[r]) else r in before && merged.value[r] == before[r]
  {
    var table, references: set<string> := before, {};
    for i := 0 to |rows|
      invariant Usable(rows[..i])
      invariant forall r :: r in references <==> Names(rows[..i], r)
      invariant forall r :: r in table <==> r in before || r in references
      invariant forall r :: r in table ==>
        if r in references then Lists(rows[..i], r, table[r]) else r in before && table[r] == before[r]
    {
      var row := rows[i];
      assert rows[..i + 1] == rows[..i] + [row];
      if row.reference.None? || row.reference.value == "" || row.reference.value in references {
        return None;
      }
      assert rows[..i + 1][i] == row;
      assert forall r :: Names(rows[..i], r) ==> Names(rows[..i + 1], r);
      references := references + {row.reference.value};
      table := table[row.reference.value := row.row];
    }
    assert rows[..|rows|] == rows;
    return Some(table);
  }

  // ---------------------------------------------------------------- the batch

  function CharBytes(c: char): nat {
    var n := c as int;
    if n < 0x80 then 1 else if n < 0x800 then 2 else if n < 0x1_0000 then 3 else 4
  }

  /** The length of a text in UTF-8. */
  function Utf8Length(s: string): nat {
    if s == "" then 0 else CharBytes(s[0]) + Utf8Length(s[1..])
  }

  const MAX_MESSAGE_BYTES := 65536

  /** The event of an order is the version its row stores. */
  ghost predicate Current(account: string, rows: Rows, id: string, event: Fields) {
    && id in rows && Valid(Object(event)) && Identity(account, event) == Some(id)
    && Encoded(Object(event)) == rows[id].payload && Lookup(event, "sequence") == Some(Int(rows[id].sequence))
  }

  /** How a call ends; everything but `Done` is logged and retried by a later call. */
  datatype Published =
    | Done | ReadRefused | PrepareRefused | PendingUnreadable | TooLarge | SendFailed | AckRefused | StoreFailed

  /** The orders a batch has snapshots for. */
  ghost predicate Covers(account: string, snapshots: seq<Fields>, id: string) {
    exists k :: 0 <= k < |snapshots| && Identity(account, snapshots[k]) == Some(id)
  }

  ghost predicate AllValid(snapshots: seq<Fields>) {
    forall k :: 0 <= k < |snapshots| ==> Valid(Object(snapshots[k]))
  }

  /** Some snapshot contradicts what is stored when its turn comes, or cannot be used at all. */
  ghost predicate SomeRefused(account: string, clock: Clock, rows: Rows, snapshots: seq<Fields>) {
    && AllValid(snapshots) && RowsOk(account, clock, rows)
    && exists k :: 0 <= k < |snapshots| && Refused(account, clock, rows, snapshots[k])
  }

  /** The stored version of an order does not fit into one message. */
  predicate Oversized(rows: Rows, id: string) {
    id in rows && Utf8Length(rows[id].payload) > 65536
  }

  class OrderPublisher {
    const journal: OrderPublicationJournal
    ghost var run: seq<Action>
    ghost var topic: seq<Message>

    ghost function Abs(): World
      reads this, journal
    {
      World(journal.rows, topic)
    }

    /** The journal and the topic are where a legal run of the protocol leads. */
    ghost predicate Consistent()
      reads this, journal
    {
      Legal(journal.account, journal.clock, run) && After(journal.account, journal.clock, run) == Abs()
    }

    constructor (account: string, clock: Clock)
      ensures Consistent() && fresh(journal) && journal.account == account && journal.clock == clock
      ensures run == [] && topic == [] && journal.rows == map[]
    {
      journal := new OrderPublicationJournal(account, clock);
      run, topic := [], [];
    }

    ghost method Note(before: World, a: Action)
      requires Legal(journal.account, journal.clock, run) && After(journal.account, journal.clock, run) == before
      requires Enabled(before, a) && Apply(journal.account, journal.clock, before, a) == Abs()
      modifies this`run
      ensures run == old(run) + [a] && Consistent()
    {
      hide Apply, Enabled;
      run := run + [a];
      assert run[..|run| - 1] == old(run);
    }

    method PrepareOne(calm: bool, snapshot: Fields) returns (event: Option<Fields>)
      requires Consistent() && Valid(Object(snapshot))
      modifies this`run, journal
      ensures Consistent() && old(run) <= run
      ensures event == None ==> journal.rows == old(journal.rows)
      ensures event.Some? ==>
        Prepared(journal.account, journal.clock, old(journal.rows), snapshot) == Some((journal.rows, event.value))
      ensures event == None && calm ==>
        && RowsOk(journal.account, journal.clock, journal.rows)
        && Refused(journal.account, journal.clock, journal.rows, snapshot)
    {
      hide Prepared, RowsOk, Refused, NextSequence;
      RunRowsOk(journal.account, journal.clock, run);
      ghost var before := Abs();
      var storeFails: bool := *;
      storeFails := storeFails && !calm;
      event := journal.Prepare(snapshot, storeFails);
      if !storeFails {
        Note(before, PrepareStep(snapshot));
      }
    }

    /** `send(...).get(...)`: without a confirmation the record may or may not be on the topic. */
    method Send(calm: bool, id: string, event: Fields) returns (confirmed: bool)
      requires Consistent() && Current(journal.account, journal.rows, id, event)
      modifies this`run, this`topic
      ensures Consistent() && old(run) <= run
      ensures topic == old(topic) || topic == old(topic) + [StoredMessage(journal.rows, id, confirmed)]
      ensures confirmed ==> topic == old(topic) + [StoredMessage(journal.rows, id, true)]
      ensures calm ==> confirmed
    {
      hide Current;
      assert id in journal.rows by { CurrentRow(journal.account, journal.rows, id, event); }
      confirmed := *;
      confirmed := confirmed || calm;
      var handedOver: bool := *;
      if confirmed || handedOver {
        ghost var before := Abs();
        topic := topic + [StoredMessage(journal.rows, id, confirmed)];
        Note(before, SendStep(id, confirmed));
      }
    }

    /** `ack` right after the confirmed send of the same event: unless the transaction fails, it finds the row. */
    method Acknowledge(calm: bool, id: string, event: Fields) returns (stored: bool, marked: bool)
      requires Consistent() && Current(journal.account, journal.rows, id, event)
      requires topic != [] && topic[|topic| - 1] == StoredMessage(journal.rows, id, true)
      modifies this`run, journal
      ensures Consistent() && old(run) <= run && (stored ==> marked) && (calm ==> stored)
      ensures !stored ==> journal.rows == old(journal.rows)
      ensures stored ==>
        var row := old(journal.rows)[id];
        journal.rows == old(journal.rows)[id := row.(acknowledged := row.sequence)]
    {
      hide Identity, Encoded, RowsOk, RowOk, Restore, Step;
      assert 1 <= journal.rows[id].sequence <= MAX_SEQUENCE by { RunRowFacts(journal.account, journal.clock, run, id); }
      ghost var before := Abs();
      var storeFails: bool := *;
      storeFails := storeFails && !calm;
      var answer := journal.Ack(event, storeFails);
      stored, marked := answer.Success?, answer.Success? && answer.value;
      if stored {
        Note(before, AckStep(|topic| - 1));
      }
    }

    /** The first loop: the whole batch is persisted, and each event kept under its order. */
    method PrepareBatch(calm: bool, snapshots: seq<Fields>)
      returns (ok: bool, order: seq<string>, events: map<string, Fields>)
      requires Consistent() && AllValid(snapshots)
      modifies this`run, journal
      ensures Consistent() && old(run) <= run
      ensures Batch(journal.account, journal.rows, order, events)
      ensures ok ==> forall id :: id in order <==> Covers(journal.account, snapshots, id)
      ensures SameElsewhere(old(journal.rows), journal.rows, order)
      ensures calm && !ok ==> SomeRefused(journal.account, journal.clock, journal.rows, snapshots)
    {
      hide Refused, Current, Prepared, Legal, After, RowOk, RowsOk, Identity, Covers, PreparedSoFar;
      ghost var before := journal.rows;
      ok, order, events := true, [], map[];
      assert PreparedSoFar(journal.account, before, before, snapshots[..0], order, events) by {
        NothingPrepared(journal.account, before);
      }
      for i := 0 to |snapshots|
        invariant Consistent() && old(run) <= run
        invariant PreparedSoFar(journal.account, before, journal.rows, snapshots[..i], order, events)
      {
        ghost var rows := journal.rows;
        assert RowsOk(journal.account, journal.clock, rows) by { RunRowsOk(journal.account, journal.clock, run); }
        var event := PrepareOne(calm, snapshots[i]);
        if event.None? {
          ok := false;
          SoFarMeans(journal.account, before, journal.rows, snapshots[..i], order, events);
          assert calm ==> SomeRefused(journal.account, journal.clock, journal.rows, snapshots);
          return;
        }
        OneMorePrepared(journal.account, journal.clock, before, rows, snapshots, i, order, events);
        var id := Identity(journal.account, event.value).value;
        if id !in events {
          order := order + [id];
        }
        events := events[id := event.value];
      }
      assert snapshots[..|snapshots|] == snapshots;
      SoFarMeans(journal.account, before, journal.rows, snapshots, order, events);
    }

    /** `setdefault` for every pending event: a prepared event of the same order is kept. */
    method AddPending(calm: bool, prepared: seq<string>, byOrder: map<string, Fields>)
      returns (stored: bool, readable: bool, order: seq<string>, events: map<string, Fields>)
      requires Consistent() && Batch(journal.account, journal.rows, prepared, byOrder)
      ensures calm ==> stored
      ensures stored ==> readable && Batch(journal.account, journal.rows, order, events)
      ensures stored ==> forall id :: id in order <==> id in prepared || Unacknowledged(journal.rows, id)
    {
      hide Current, Legal, After, RowOk, RowsOk, Restore, Less;
      assert RowsOk(journal.account, journal.clock, journal.rows) by { RunRowsOk(journal.account, journal.clock, run); }
      order, events := prepared, byOrder;
      var storeFails: bool := *;
      storeFails := storeFails && !calm;
      var ids, saved := journal.Pending(storeFails);
      stored, readable := !storeFails, saved.Some?;
      if storeFails { return; }
      forall k | 0 <= k < |ids|
        ensures SavedEvent(journal.account, journal.clock, journal.rows, ids[k]).Some?
        ensures Current(journal.account, journal.rows, ids[k],
                        SavedEvent(journal.account, journal.clock, journal.rows, ids[k]).value)
      {
        assert ids[k] in ids;
        SavedIsCurrent(journal.account, journal.clock, journal.rows, ids[k]);
      }
      assert saved.Some?;
      for i := 0 to |ids|
        invariant Batch(journal.account, journal.rows, order, events)
        invariant forall id :: id in order <==> id in prepared || id in ids[..i]
      {
        if ids[i] !in events {
          order := order + [ids[i]];
          events := events[ids[i] := saved.value[i]];
        }
        assert ids[..i + 1] == ids[..i] + [ids[i]];
      }
      assert ids[..|ids|] == ids;
    }

    /** The last loop: every event is sent, and acknowledged once the broker confirms it. */
    method SendBatch(calm: bool, order: seq<string>, events: map<string, Fields>) returns (outcome: Published)
      requires Consistent() && Batch(journal.account, journal.rows, order, events)
      requires forall id :: Unacknowledged(journal.rows, id) ==> id in order
      modifies this`run, this`topic, journal
      ensures Consistent() && old(run) <= run
      ensures outcome.Done? || outcome.TooLarge? || outcome.SendFailed? || outcome.StoreFailed?
      ensures outcome.Done? ==> Delivers(old(topic), topic, journal.rows, order)
      ensures outcome.Done? ==> forall id :: !Unacknowledged(journal.rows, id)
      ensures calm ==> outcome.Done? || outcome.TooLarge?
      ensures outcome.TooLarge? ==> exists id :: id in order && Oversized(journal.rows, id)
      ensures outcome.Done? ==> forall id :: id in order ==> !Oversized(journal.rows, id)
    {
      hide Current, Legal, After, Utf8Length;
      for i := 0 to |order|
        invariant Consistent() && old(run) <= run
        invariant Batch(journal.account, journal.rows, order, events)
        invariant Delivers(old(topic), topic, journal.rows, order[..i])
        invariant forall id :: Unacknowledged(journal.rows, id) ==> id in order[i..]
        invariant forall k :: 0 <= k < i ==> !Oversized(journal.rows, order[k])
      {
        var id := order[i];
        assert id in order;
        var event := events[id];
        EventIsValid(journal.account, journal.rows, id, event);
        assert Encoded(Object(event)) == journal.rows[id].payload by {
          EventIsStored(journal.account, journal.rows, id, event);
        }
        if Utf8Length(Encoded(Object(event))) > MAX_MESSAGE_BYTES {
          assert Oversized(journal.rows, id);
          return TooLarge;
        }
        var confirmed := Send(calm, id, event);
        if !confirmed {
          return SendFailed;
        }
        ghost var rows := journal.rows;
        var stored, marked := Acknowledge(calm, id, event);
        if !stored {
          return StoreFailed;
        }
        if !marked {
          return AckRefused;
        }
        BatchAfterAck(journal.account, rows, journal.rows, order, events, id);
        OneMoreDelivered(old(topic), topic, rows, journal.rows, order, i);
        NoLongerPending(rows, journal.rows, order, i);
      }
      assert order[..|order|] == order;
      return Done;
    }

    /**
     `publish_orders` from the snapshots on. A call that ends without an error has sent and
     confirmed, once each, the events of its own orders and of every order pending before, and
     leaves nothing pending. While the store answers, its acknowledgements are never refused and the
     saved rows are always readable. While nothing fails it ends without an error, unless a snapshot
     is one the outbox refuses or a stored version is longer than 64 KiB.
     */
    method PublishSnapshots(calm: bool, snapshots: seq<Fields>) returns (outcome: Published, sent: seq<string>)
      requires Consistent() && AllValid(snapshots)
      modifies this`run, this`topic, journal
      ensures Consistent() && old(run) <= run
      ensures !outcome.AckRefused? && !outcome.PendingUnreadable? && !outcome.ReadRefused?
      ensures outcome.Done? ==> forall id :: !Unacknowledged(journal.rows, id)
      ensures outcome.Done? ==> Delivers(old(topic), topic, journal.rows, sent)
      ensures outcome.Done? ==> forall i, j :: 0 <= i < j < |sent| ==> sent[i] != sent[j]
      ensures outcome.Done? ==> forall id :: id in sent <==>
        Covers(journal.account, snapshots, id) || Unacknowledged(old(journal.rows), id)
      ensures calm && !outcome.Done? && !outcome.ReadRefused? ==>
        if outcome.PrepareRefused? then SomeRefused(journal.account, journal.clock, journal.rows, snapshots)
        else outcome.TooLarge? && exists id :: Oversized(journal.rows, id)
      ensures outcome.Done? ==> forall id :: id in sent ==> !Oversized(journal.rows, id)
    {
      hide Current, Legal, After, Covers, AllValid, SomeRefused, Oversized;
      sent := [];
      var ok, prepared, byOrder := PrepareBatch(calm, snapshots);
      if !ok {
        return PrepareRefused, sent;
      }
      var stored, readable, order, events := AddPending(calm, prepared, byOrder);
      if !stored {
        return StoreFailed, sent;
      }
      if !readable {
        return PendingUnreadable, sent;
      }
      sent := order;
      outcome := SendBatch(calm, order, events);
    }

    /**
     `publish_orders`. `None` is a read that fails; `convert` makes the snapshots of the merged rows
     with their details, or refuses. What refuses before the outbox is opened changes nothing;
     a call that ends without an error has published the orders of the merged reads and every order
     pending before, and nothing else.
     */
    method PublishOrders<T>(calm: bool, history: Option<seq<OrderRead<T>>>, current: Option<seq<OrderRead<T>>>,
                            sameDay: bool, convert: map<string, T> -> Option<seq<Fields>>)
      returns (outcome: Published, ghost snapshots: seq<Fields>, sent: seq<string>)
      requires Consistent() && forall table :: convert(table).Some? ==> AllValid(convert(table).value)
      modifies this`run, this`topic, journal
      ensures Consistent() && old(run) <= run
      ensures !outcome.AckRefused? && !outcome.PendingUnreadable?
      ensures outcome.ReadRefused? ==> topic == old(topic) && journal.rows == old(journal.rows)
      ensures outcome.ReadRefused? ==>
        || !sameDay || history.None? || current.None? || !Usable(history.value) || !Usable(current.value)
        || exists table :: Merged(history.value, current.value, table) && convert(table).None?
      ensures !outcome.ReadRefused? ==> sameDay && history.Some? && current.Some?
      ensures !outcome.ReadRefused? ==>
        exists table :: Merged(history.value, current.value, table) && convert(table) == Some(snapshots)
      ensures outcome.Done? ==> forall id :: !Unacknowledged(journal.rows, id)
      ensures outcome.Done? ==> Delivers(old(topic), topic, journal.rows, sent)
      ensures outcome.Done? ==> forall i, j :: 0 <= i < j < |sent| ==> sent[i] != sent[j]
      ensures outcome.Done? ==> forall id :: id in sent <==>
        Covers(journal.account, snapshots, id) || Unacknowledged(old(journal.rows), id)
      ensures calm && !outcome.Done? && !outcome.ReadRefused? ==>
        if outcome.PrepareRefused? then SomeRefused(journal.account, journal.clock, journal.rows, snapshots)
        else outcome.TooLarge? && exists id :: Oversized(journal.rows, id)
      ensures outcome.Done? ==> forall id :: id in sent ==> !Oversized(journal.rows, id)
    {
      hide Legal, After, Covers, AllValid, Delivers, Unacknowledged, Merged, SomeRefused, Oversized;
      snapshots, sent := [], [];
      if history.None? || current.None? || !sameDay {
        return ReadRefused, snapshots, sent;
      }
      var merged := MergeReads(history.value, current.value);
      if merged.None? {
        return ReadRefused, snapshots, sent;
      }
      MergedReads(history.value, current.value, merged.value);
      var converted := convert(merged.value);
      if converted.None? {
        return ReadRefused, snapshots, sent;
      }
      snapshots := converted.value;
      outcome, sent := PublishSnapshots(calm, converted.value);
    }
  }

  /** What both reads say together, row by row; each names every order once. */
  ghost predicate Merged<T>(history: seq<OrderRead<T>>, current: seq<OrderRead<T>>, table: map<string, T>) {
    && Usable(history) && Usable(current)
    && (forall r :: r in table <==> Names(history, r) || Names(current, r))
    && (forall r :: r in table ==>
        if Names(current, r) then Lists(current, r, table[r]) else Lists(history, r, table[r]))
  }

  lemma MergedReads<T>(history: seq<OrderRead<T>>, current: seq<OrderRead<T>>, table: map<string, T>)
    requires Usable(history) && Usable(current)
    requires forall r :: r in table <==> Names(history, r) || Names(current, r)
    requires forall r :: r in table ==>
      if Names(current, r) then Lists(current, r, table[r]) else Lists(history, r, table[r])
    ensures Merged(history, current, table)
  {
  }

  /** The topic grew by one confirmed message for each of the orders, with its stored version. */
  ghost predicate Delivers(before: seq<Message>, after: seq<Message>, rows: Rows, ids: seq<string>) {
    && |after| == |before| + |ids| && before <= after
    && forall k :: 0 <= k < |ids| ==> ids[k] in rows && after[|before| + k] == StoredMessage(rows, ids[k], true)
  }

  lemma EventIsStored(account: string, rows: Rows, id: string, event: Fields)
    requires Current(account, rows, id, event)
    ensures id in rows && Valid(Object(event)) && Encoded(Object(event)) == rows[id].payload
  {
  }

  lemma EventIsValid(account: string, rows: Rows, id: string, event: Fields)
    requires Current(account, rows, id, event)
    ensures Valid(Object(event)) && id in rows
  {
  }

  lemma SavedIsCurrent(account: string, clock: Clock, rows: Rows, id: string)
    requires RowsOk(account, clock, rows) && id in rows
    ensures SavedEvent(account, clock, rows, id).Some?
    ensures Current(account, rows, id, SavedEvent(account, clock, rows, id).value)
  {
    hide IdentityOf, SemanticText, Encoded;
    assert RowOk(account, clock, rows[id], id);
  }

  /** The table with one more row acknowledged. */
  ghost predicate Acked(before: Rows, after: Rows, id: string) {
    id in before && after == before[id := before[id].(acknowledged := before[id].sequence)]
  }

  lemma BatchAfterAck(account: string, rows: Rows, after: Rows, order: seq<string>, events: map<string, Fields>,
                      id: string)
    requires Batch(account, rows, order, events) && Acked(rows, after, id)
    ensures Batch(account, after, order, events)
  {
    hide Identity, Encoded;
    forall other | other in events
      ensures Current(account, after, other, events[other])
    {
      assert Current(account, rows, other, events[other]);
    }
  }

  lemma OneMoreDelivered(before: seq<Message>, after: seq<Message>, rows: Rows, later: Rows, order: seq<string>, i: nat)
    requires i < |order| && Acked(rows, later, order[i])
    requires |after| == |before| + i + 1 && Delivers(before, after[..|before| + i], rows, order[..i])
    requires after[|before| + i] == StoredMessage(rows, order[i], true)
    ensures Delivers(before, after, later, order[..i + 1])
  {
    var some, ids := after[..|before| + i], order[..i + 1];
    assert before <= after by { assert after[..|before|] == some[..|before|]; }
    forall k | 0 <= k < i + 1
      ensures ids[k] in later && after[|before| + k] == StoredMessage(later, ids[k], true)
    {
      if k < i {
        assert some[|before| + k] == StoredMessage(rows, order[..i][k], true);
      }
    }
  }

  lemma NoLongerPending(rows: Rows, after: Rows, order: seq<string>, i: nat)
    requires i < |order| && Acked(rows, after, order[i])
    requires forall id :: Unacknowledged(rows, id) ==> id in order[i..]
    ensures forall id :: Unacknowledged(after, id) ==> id in order[i + 1..]
  {
    forall id | Unacknowledged(after, id)
      ensures id in order[i + 1..]
    {
      assert Unacknowledged(rows, id) && id != order[i];
      assert order[i..] == [order[i]] + order[i + 1..];
    }
  }

  /** The events of a call in the order they are sent, each the stored version of its order. */
  ghost predicate Batch(account: string, rows: Rows, order: seq<string>, events: map<string, Fields>) {
    && (forall id :: id in order <==> id in events)
    && (forall i, j :: 0 <= i < j < |order| ==> order[i] != order[j])
    && (forall id :: id in events ==> Current(account, rows, id, events[id]))
  }

  ghost predicate SameElsewhere(before: Rows, after: Rows, ids: seq<string>) {
    forall id :: id !in ids ==> (id in after <==> id in before) && (id in after ==> after[id] == before[id])
  }

  /** The first loop after some snapshots, from the rows it found. */
  ghost predicate PreparedSoFar(account: string, before: Rows, rows: Rows, snapshots: seq<Fields>,
                                order: seq<string>, events: map<string, Fields>) {
    && Batch(account, rows, order, events) && SameElsewhere(before, rows, order)
    && (forall id :: id in order <==> Covers(account, snapshots, id))
  }

  lemma NothingPrepared(account: string, rows: Rows)
    ensures PreparedSoFar(account, rows, rows, [], [], map[])
  {
  }

  lemma SoFarMeans(account: string, before: Rows, rows: Rows, snapshots: seq<Fields>,
                   order: seq<string>, events: map<string, Fields>)
    requires PreparedSoFar(account, before, rows, snapshots, order, events)
    ensures Batch(account, rows, order, events) && SameElsewhere(before, rows, order)
    ensures forall id :: id in order <==> Covers(account, snapshots, id)
  {
  }

  lemma RunRowsOk(account: string, clock: Clock, run: seq<Action>)
    requires Legal(account, clock, run)
    ensures RowsOk(account, clock, After(account, clock, run).rows)
  {
    hide RowsOk, BehindRows, InOrder, AcksConfirmed, Apply;
    InvRun(account, clock, run);
  }

  /** What one accepted `prepare` leaves: a current event, and every other row as it was. */
  lemma PreparedIsCurrent(account: string, clock: Clock, rows: Rows, f: Fields)
    requires Valid(Object(f)) && RowsOk(account, clock, rows) && Prepared(account, clock, rows, f).Some?
    ensures var (after, event) := Prepared(account, clock, rows, f).value;
      && Identity(account, f).Some? && Identity(account, event) == Identity(account, f)
      && Current(account, after, Identity(account, f).value, event)
      && SameElsewhere(rows, after, [Identity(account, f).value])
  {
    hide Restore, RowsOk, RowOk, Identity, SemanticText, Encoded;
    PrepareKeepsRows(account, clock, rows, f);
    assert Identity(account, f).Some?;
  }

  lemma BatchAfterPrepare(account: string, rows: Rows, after: Rows, order: seq<string>, events: map<string, Fields>,
                          id: string, event: Fields)
    requires Batch(account, rows, order, events)
    requires Current(account, after, id, event) && SameElsewhere(rows, after, [id])
    ensures Batch(account, after, if id in events then order else order + [id], events[id := event])
  {
    hide Identity, Encoded;
    forall other | other in events && other != id
      ensures Current(account, after, other, events[other])
    {
      assert Current(account, rows, other, events[other]);
      assert other !in [id];
    }
  }

  lemma OneMorePrepared(account: string, clock: Clock, before: Rows, rows: Rows, snapshots: seq<Fields>, i: nat,
                        order: seq<string>, events: map<string, Fields>)
    requires i < |snapshots| && Valid(Object(snapshots[i])) && RowsOk(account, clock, rows)
    requires PreparedSoFar(account, before, rows, snapshots[..i], order, events)
    requires Prepared(account, clock, rows, snapshots[i]).Some?
    ensures var (after, event) := Prepared(account, clock, rows, snapshots[i]).value;
      Identity(account, event).Some? && var id := Identity(account, event).value;
      PreparedSoFar(account, before, after, snapshots[..i + 1],
                    if id in events then order else order + [id], events[id := event])
  {
    hide Prepared, RowsOk, Identity, Current, Covers;
    PreparedIsCurrent(account, clock, rows, snapshots[i]);
    var (after, event) := Prepared(account, clock, rows, snapshots[i]).value;
    var id := Identity(account, event).value;
    BatchAfterPrepare(account, rows, after, order, events, id, event);
    CoversOneMore(account, snapshots, i);
    assert id in [id];
  }

  lemma CoversOneMore(account: string, snapshots: seq<Fields>, i: nat)
    requires i < |snapshots|
    ensures forall id :: Covers(account, snapshots[..i + 1], id) <==>
      Covers(account, snapshots[..i], id) || Identity(account, snapshots[i]) == Some(id)
  {
    hide Identity;
    var more := snapshots[..i + 1];
    forall id
      ensures Covers(account, more, id) <==>
        Covers(account, snapshots[..i], id) || Identity(account, snapshots[i]) == Some(id)
    {
      if Covers(account, snapshots[..i], id) {
        var k :| 0 <= k < i && Identity(account, snapshots[..i][k]) == Some(id);
        assert more[k] == snapshots[..i][k];
      }
      assert more[i] == snapshots[i];
      if Covers(account, more, id) {
        var k :| 0 <= k < i + 1 && Identity(account, more[k]) == Some(id);
        if k < i { assert snapshots[..i][k] == more[k]; }
      }
    }
  }

  lemma RunRowFacts(account: string, clock: Clock, run: seq<Action>, id: string)
    requires Legal(account, clock, run) && id in After(account, clock, run).rows
    ensures 1 <= After(account, clock, run).rows[id].sequence <= MAX_SEQUENCE
  {
    hide RowsOk, RowOk, BehindRows, InOrder, AcksConfirmed, Apply, Restore;
    InvRun(account, clock, run);
    RowFacts(account, clock, After(account, clock, run).rows, id);
  }

  lemma CurrentRow(account: string, rows: Rows, id: string, event: Fields)
    requires Current(account, rows, id, event)
    ensures id in rows
  {
  }
}
