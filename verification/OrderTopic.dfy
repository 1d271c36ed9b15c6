/**
 The outbox and the order-status topic together. The only writer of the table prepares
 snapshots, sends stored payloads and acknowledges confirmed sends, in any order and with any
 number of stops and restarts between two steps: nothing but the table and the topic survives.
 */
module OrderTopic {
  import opened Common
  import opened JsonValues
  import opened Canonical
  import opened OrderPublication
  import opened OrderJournal

  /** A record handed to the broker; an unconfirmed one may or may not have arrived. */
  datatype Message = Message(id: string, sequence: int, payload: string, confirmed: bool)

  datatype World = World(rows: Rows, topic: seq<Message>)

  datatype Action = PrepareStep(snapshot: Fields) | SendStep(id: string, confirmed: bool) | AckStep(message: nat)

  /** The stored version of an order as a message. */
  function StoredMessage(rows: Rows, id: string, confirmed: bool): Message
    requires id in rows
  {
    Message(id, rows[id].sequence, rows[id].payload, confirmed)
  }

  ghost predicate Enabled(w: World, a: Action) {
    match a
    case PrepareStep(f) => Valid(Object(f))
    case SendStep(id, _) => id in w.rows
    case AckStep(k) => k < |w.topic| && w.topic[k].confirmed
  }

  ghost function Apply(account: string, clock: Clock, w: World, a: Action): World
    requires Enabled(w, a)
  {
    match a
    case PrepareStep(f) => w.(rows := Step(account, clock, w.rows, PrepareCall(f)))
    case SendStep(id, confirmed) => w.(topic := w.topic + [StoredMessage(w.rows, id, confirmed)])
    case AckStep(k) => w.(rows := Acknowledged(w.rows, w.topic[k].id, w.topic[k].sequence, w.topic[k].payload))
  }

  ghost predicate Legal(account: string, clock: Clock, run: seq<Action>)
    decreases |run|, 0
  {
    run != [] ==>
      && Legal(account, clock, run[..|run| - 1])
      && Enabled(After(account, clock, run[..|run| - 1]), run[|run| - 1])
  }

  ghost function After(account: string, clock: Clock, run: seq<Action>): World
    requires Legal(account, clock, run)
    decreases |run|, 1
  {
    if run == [] then World(map[], [])
    else Apply(account, clock, After(account, clock, run[..|run| - 1]), run[|run| - 1])
  }

  // ---------------------------------------------------------------- invariant

  /** No message is ahead of its row, and one of the row's own sequence is the row's payload. */
  ghost predicate BehindRows(w: World) {
    forall k :: 0 <= k < |w.topic| ==>
      var m := w.topic[k];
      && m.id in w.rows && 1 <= m.sequence <= w.rows[m.id].sequence
      && (m.sequence == w.rows[m.id].sequence ==> m.payload == w.rows[m.id].payload)
  }

  /** Later messages of an order are not older, and one sequence is always one payload. */
  ghost predicate InOrder(topic: seq<Message>) {
    forall j, k :: 0 <= j < k < |topic| && topic[j].id == topic[k].id ==>
      && topic[j].sequence <= topic[k].sequence
      && (topic[j].sequence == topic[k].sequence ==> topic[j].payload == topic[k].payload)
  }

  ghost predicate Confirms(topic: seq<Message>, id: string, sequence: int) {
    exists k :: 0 <= k < |topic| && topic[k].confirmed && topic[k].id == id && topic[k].sequence == sequence
  }

  /** An acknowledged sequence was confirmed by the broker. */
  ghost predicate AcksConfirmed(w: World) {
    forall id :: id in w.rows && w.rows[id].acknowledged != 0 ==> Confirms(w.topic, id, w.rows[id].acknowledged)
  }

  ghost predicate Inv(account: string, clock: Clock, w: World) {
    RowsOk(account, clock, w.rows) && BehindRows(w) && InOrder(w.topic) && AcksConfirmed(w)
  }

  lemma SendKeepsInv(account: string, clock: Clock, w: World, id: string, confirmed: bool)
    requires Inv(account, clock, w) && id in w.rows
    ensures Inv(account, clock, w.(topic := w.topic + [StoredMessage(w.rows, id, confirmed)]))
  {
    hide RowOk;
    RowFacts(account, clock, w.rows, id);
    MoreConfirmed(w, StoredMessage(w.rows, id, confirmed));
  }

  lemma MoreConfirmed(w: World, m: Message)
    requires AcksConfirmed(w)
    ensures AcksConfirmed(w.(topic := w.topic + [m]))
  {
    forall id | id in w.rows && w.rows[id].acknowledged != 0
      ensures Confirms(w.topic + [m], id, w.rows[id].acknowledged)
    {
      assert Confirms(w.topic, id, w.rows[id].acknowledged);
      var k :| 0 <= k < |w.topic| && w.topic[k].confirmed && w.topic[k].id == id
        && w.topic[k].sequence == w.rows[id].acknowledged;
      assert (w.topic + [m])[k] == w.topic[k];
    }
  }

  lemma AckKeepsInv(account: string, clock: Clock, w: World, k: nat)
    requires Inv(account, clock, w) && k < |w.topic| && w.topic[k].confirmed
    ensures Inv(account, clock,
                w.(rows := Acknowledged(w.rows, w.topic[k].id, w.topic[k].sequence, w.topic[k].payload)))
  {
    hide RowsOk, RowOk;
    var m := w.topic[k];
    AckKeepsRows(account, clock, w.rows, m.id, m.sequence, m.payload);
    assert Confirms(w.topic, m.id, m.sequence);
  }

  lemma PrepareKeepsInv(account: string, clock: Clock, w: World, f: Fields)
    requires Inv(account, clock, w) && Valid(Object(f))
    ensures Inv(account, clock, w.(rows := Step(account, clock, w.rows, PrepareCall(f))))
  {
    hide RowsOk, RowOk, Prepared, CreatedOf, UpdatedOf;
    StepKeepsRows(account, clock, w.rows, PrepareCall(f));
    StepFollows(account, clock, w.rows, PrepareCall(f));
    PrepareKeepsAcks(account, clock, w.rows, f);
  }

  lemma PrepareKeepsAcks(account: string, clock: Clock, rows: Rows, f: Fields)
    requires RowsOk(account, clock, rows) && Valid(Object(f))
    ensures var after := Step(account, clock, rows, PrepareCall(f));
      forall id :: id in after ==> after[id].acknowledged == if id in rows then rows[id].acknowledged else 0
  {
    hide IdentityOf, SemanticText, Encoded, Versioned, RowOk, Restore;
  }

  /** Every legal run keeps the table and the topic consistent. */
  lemma {:induction false} InvRun(account: string, clock: Clock, run: seq<Action>)
    requires Legal(account, clock, run)
    ensures Inv(account, clock, After(account, clock, run))
    decreases |run|
  {
    hide RowsOk, BehindRows, InOrder, AcksConfirmed;
    if run == [] {
      EmptyInv(account, clock);
    } else {
      var w := After(account, clock, run[..|run| - 1]);
      InvRun(account, clock, run[..|run| - 1]);
      match run[|run| - 1]
      case PrepareStep(f) => PrepareKeepsInv(account, clock, w, f);
      case SendStep(id, confirmed) => SendKeepsInv(account, clock, w, id, confirmed);
      case AckStep(k) => AckKeepsInv(account, clock, w, k);
    }
  }

  lemma EmptyInv(account: string, clock: Clock)
    ensures Inv(account, clock, World(map[], []))
  {
  }

  // ---------------------------------------------------------------- results over all runs

  /**
   Across all stops, retries and restarts, two sends of one order's sequence carry the same
   bytes, and the sequences sent for one order never decrease.
   */
  lemma SendsAgree(account: string, clock: Clock, run: seq<Action>, j: nat, k: nat)
    requires Legal(account, clock, run)
    requires var topic := After(account, clock, run).topic; j < k < |topic| && topic[j].id == topic[k].id
    ensures var topic := After(account, clock, run).topic;
      && topic[j].sequence <= topic[k].sequence
      && (topic[j].sequence == topic[k].sequence ==> topic[j].payload == topic[k].payload)
  {
    hide RowsOk, Apply;
    InvRun(account, clock, run);
  }

  /** An acknowledgement takes effect for the exact stored version and no other. */
  lemma OnlyTheStoredVersionIsMarked(rows: Rows, id: string, sequence: int, payload: string, other: string)
    requires Unacknowledged(rows, other)
    ensures !Unacknowledged(Acknowledged(rows, id, sequence, payload), other) <==>
      other == id && sequence == rows[id].sequence && payload == rows[id].payload
  {
  }

  /** A stale acknowledgement, for a message older than the stored version, changes nothing. */
  lemma StaleAckIsIgnored(account: string, clock: Clock, run: seq<Action>, k: nat)
    requires Legal(account, clock, run)
    requires var w := After(account, clock, run); k < |w.topic| && w.topic[k].confirmed
    ensures var w := After(account, clock, run); var m := w.topic[k];
      && m.id in w.rows
      && (Apply(account, clock, w, AckStep(k)) == w || m.sequence == w.rows[m.id].sequence)
      && (m.sequence == w.rows[m.id].sequence ==> !Unacknowledged(Apply(account, clock, w, AckStep(k)).rows, m.id))
  {
    hide RowsOk;
    InvRun(account, clock, run);
  }

  // ---------------------------------------------------------------- the consumer

  /**
   The positions of the topic in the order in which they reach the consumer: every confirmed
   message at least once, any of the others, each any number of times and as late as may be.
   */
  ghost predicate Arrives(topic: seq<Message>, arrivals: seq<nat>) {
    InTopic(topic, arrivals) && forall k :: 0 <= k < |topic| && topic[k].confirmed ==> k in arrivals
  }

  ghost predicate InTopic(topic: seq<Message>, arrivals: seq<nat>) {
    forall i :: 0 <= i < |arrivals| ==> arrivals[i] < |topic|
  }

  /** A consumer that keeps, per order, the first message to arrive with the highest sequence. */
  ghost function Kept(topic: seq<Message>, arrivals: seq<nat>): map<string, Message>
    requires InTopic(topic, arrivals)
  {
    if arrivals == [] then map[]
    else
      var table, m := Kept(topic, arrivals[..|arrivals| - 1]), topic[arrivals[|arrivals| - 1]];
      if m.id in table && table[m.id].sequence >= m.sequence then table else table[m.id := m]
  }

  ghost predicate IsKept(topic: seq<Message>, arrivals: seq<nat>, id: string, m: Message)
    requires InTopic(topic, arrivals)
  {
    && m.id == id && (exists i :: 0 <= i < |arrivals| && topic[arrivals[i]] == m)
    && (forall i :: 0 <= i < |arrivals| && topic[arrivals[i]].id == id ==> topic[arrivals[i]].sequence <= m.sequence)
  }

  lemma {:induction false} KeptIsHighest(topic: seq<Message>, arrivals: seq<nat>, id: string)
    requires InTopic(topic, arrivals)
    ensures id in Kept(topic, arrivals) <==> exists i :: 0 <= i < |arrivals| && topic[arrivals[i]].id == id
    ensures id in Kept(topic, arrivals) ==> IsKept(topic, arrivals, id, Kept(topic, arrivals)[id])
  {
    if arrivals != [] {
      var earlier, last := arrivals[..|arrivals| - 1], |arrivals| - 1;
      KeptIsHighest(topic, earlier, id);
      if id in Kept(topic, earlier) {
        var i :| 0 <= i < |earlier| && topic[earlier[i]] == Kept(topic, earlier)[id];
        assert topic[arrivals[i]] == Kept(topic, earlier)[id];
      }
      assert topic[arrivals[last]].id == id ==> exists i :: 0 <= i < |arrivals| && topic[arrivals[i]].id == id;
    }
  }

  /**
   Whenever nothing is pending, a consumer that keeps the highest sequence per order holds
   exactly the stored snapshots, whichever of the unconfirmed sends reached it, and in whatever
   order and however often anything did.
   */
  lemma ConsumerHoldsTheTable(account: string, clock: Clock, run: seq<Action>, arrivals: seq<nat>)
    requires Legal(account, clock, run)
    requires var w := After(account, clock, run);
      Arrives(w.topic, arrivals) && forall id :: id in w.rows ==> !Unacknowledged(w.rows, id)
    ensures var w := After(account, clock, run); var table := Kept(w.topic, arrivals);
      && table.Keys == w.rows.Keys
      && forall id :: id in w.rows ==>
         table[id].payload == w.rows[id].payload && table[id].sequence == w.rows[id].sequence
  {
    hide Apply, RowOk;
    InvRun(account, clock, run);
    var w := After(account, clock, run);
    forall id
      ensures id in Kept(w.topic, arrivals) <==> id in w.rows
      ensures id in w.rows ==> MatchesRow(Kept(w.topic, arrivals), w.rows, id)
    {
      KeptMatchesRow(account, clock, w, arrivals, id);
    }
  }

  ghost predicate MatchesRow(table: map<string, Message>, rows: Rows, id: string) {
    id in rows && id in table && table[id].payload == rows[id].payload && table[id].sequence == rows[id].sequence
  }

  lemma KeptMatchesRow(account: string, clock: Clock, w: World, arrivals: seq<nat>, id: string)
    requires Inv(account, clock, w) && Arrives(w.topic, arrivals) && !Unacknowledged(w.rows, id)
    ensures id in Kept(w.topic, arrivals) <==> id in w.rows
    ensures id in w.rows ==> MatchesRow(Kept(w.topic, arrivals), w.rows, id)
  {
    hide RowOk, Kept;
    KeptIsHighest(w.topic, arrivals, id);
    if id in w.rows {
      RowFacts(account, clock, w.rows, id);
      assert Confirms(w.topic, id, w.rows[id].sequence);
      var k :| 0 <= k < |w.topic| && w.topic[k].confirmed && w.topic[k].id == id
        && w.topic[k].sequence == w.rows[id].sequence;
      assert k in arrivals;
      var i :| 0 <= i < |arrivals| && arrivals[i] == k;
      assert w.topic[arrivals[i]].id == id;
    }
  }
}
