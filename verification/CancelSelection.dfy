/**
 Which orders a cancellation command covers: the selection `cancel_references` makes from
 today's order rows before anything is sent.
 */
module CancelSelection {
  import opened Common
  import opened BrokerReply
  import opened Commands

  /** A JSON value where text is expected. `Other` is neither text nor null. */
  datatype Member = Missing | Text(text: string) | Other

  datatype OrderRow = OrderRow(us: bool, reference: Member, status: Member)

  /** The broker's reply to the order query: `None` is a reply `order_rows` refuses. */
  type Reply = Option<seq<OrderRow>>

  const TERMINAL := {"8", "6", "F", "5", "G", "9", "J", "FILLED", "CANCELED", "REJECTED", "DONE_FOR_DAY"}
  const PENDING_CANCEL := {"3", "4", "PENDING_CANCEL"}
  const CANCELLABLE := {"0", "1", "2", "A", "H", "7", "E", "ACK", "PENDING_NEW", "NEW", "PENDING_REPLACE", "REPLACED",
                        "PARTIALLY_FILLED"}

  predicate Settled(row: OrderRow) {
    row.status.Text? && (row.status.text in TERMINAL || row.status.text in PENDING_CANCEL)
  }

  predicate Open(row: OrderRow) {
    !Settled(row) && row.status.Text? && row.status.text in CANCELLABLE
  }

  /** `plan_cancel`'s test on a JSON value. */
  predicate ValidReference(reference: Member) {
    reference.Text? && UsableReference(reference.text)
  }

  predicate Selects(c: Command, row: OrderRow)
    requires c.CancelCommand?
  {
    row.us && (c.cancelAll || row.reference == if c.orderReference.Some? then Text(c.orderReference.value) else Missing)
  }

  function Selected(c: Command, rows: seq<OrderRow>): seq<OrderRow>
    requires c.CancelCommand?
  {
    if rows == [] then []
    else
      var row := rows[|rows| - 1];
      Selected(c, rows[..|rows| - 1]) + if Selects(c, row) then [row] else []
  }

  /**
   The rows of a selection can all be decided: none is in an unknown state, no open one lacks a
   usable, distinct reference.
   */
  predicate Decidable(rows: seq<OrderRow>) {
    && (forall k :: 0 <= k < |rows| ==> Settled(rows[k]) || (Open(rows[k]) && ValidReference(rows[k].reference)))
    && (forall j, k :: 0 <= j < k < |rows| && Open(rows[j]) && Open(rows[k]) ==> rows[j].reference != rows[k].reference)
  }

  predicate Accepts(c: Command, rows: seq<OrderRow>)
    requires c.CancelCommand?
  {
    (c.cancelAll || |Selected(c, rows)| == 1) && Decidable(Selected(c, rows))
  }

  /** The references of the open rows, in order. */
  function OpenReferences(rows: seq<OrderRow>): seq<string> {
    if rows == [] then []
    else
      var row := rows[|rows| - 1];
      OpenReferences(rows[..|rows| - 1]) + if Open(row) && row.reference.Text? then [row.reference.text] else []
  }

  /** `cancel_references`: one undecidable row stops the whole command before anything is sent. */
  method CancelReferences(reply: Reply, c: Command) returns (r: Result<seq<string>>)
    requires c.CancelCommand?
    ensures r.Success? <==> reply.Some? && Accepts(c, reply.value)
    ensures r.Success? ==> r.value == OpenReferences(Selected(c, reply.value))
  {
    if reply.None? {
      return Failure;
    }
    var rows := reply.value;
    var selected: seq<OrderRow> := [];
    for i := 0 to |rows|
      invariant selected == Selected(c, rows[..i])
    {
      assert rows[..i + 1][..i] == rows[..i];
      if Selects(c, rows[i]) {
        selected := selected + [rows[i]];
      }
    }
    assert rows[..|rows|] == rows;
    if !c.cancelAll && |selected| != 1 {
      return Failure;
    }
    r := CollectReferences(selected);
  }

  ghost predicate Addable(rows: seq<OrderRow>, row: OrderRow) {
    Settled(row) || (Open(row) && ValidReference(row.reference) && row.reference.text !in OpenReferences(rows))
  }

  lemma OneMoreRow(rows: seq<OrderRow>, row: OrderRow)
    requires Decidable(rows)
    ensures Decidable(rows + [row]) <==> Addable(rows, row)
    ensures OpenReferences(rows + [row]) ==
      OpenReferences(rows) + if Open(row) && row.reference.Text? then [row.reference.text] else []
  {
    var more := rows + [row];
    assert more[..|rows|] == rows;
    MemberOfOpen(rows);
    if Open(row) && row.reference.Text? && row.reference.text in OpenReferences(rows) {
      var j :| 0 <= j < |rows| && Open(rows[j]) && rows[j].reference == Text(row.reference.text);
      assert Open(more[j]) && more[j].reference == more[|rows|].reference && Open(more[|rows|]);
    }
    if Decidable(more) {
      assert Settled(more[|rows|]) || (Open(more[|rows|]) && ValidReference(more[|rows|].reference));
    }
    if Addable(rows, row) {
      forall k | 0 <= k < |more|
        ensures Settled(more[k]) || (Open(more[k]) && ValidReference(more[k].reference))
      {
        if k < |rows| { assert more[k] == rows[k]; }
      }
      forall j, k | 0 <= j < k < |more| && Open(more[j]) && Open(more[k])
        ensures more[j].reference != more[k].reference
      {
        assert more[j] == rows[j];
        if k < |rows| { assert more[k] == rows[k]; }
      }
    }
  }

  lemma PrefixDecidable(rows: seq<OrderRow>, n: nat)
    requires n <= |rows| && Decidable(rows)
    ensures Decidable(rows[..n])
  {
  }

  method CollectReferences(rows: seq<OrderRow>) returns (r: Result<seq<string>>)
    ensures r.Success? <==> Decidable(rows)
    ensures r.Success? ==> r.value == OpenReferences(rows)
  {
    var references: seq<string> := [];
    for i := 0 to |rows|
      invariant Decidable(rows[..i])
      invariant references == OpenReferences(rows[..i])
    {
      var row := rows[i];
      assert rows[..i + 1] == rows[..i] + [row];
      OneMoreRow(rows[..i], row);
      if Settled(row) {
        continue;
      }
      if !Open(row) || !ValidReference(row.reference) || row.reference.text in references {
        if Decidable(rows) { PrefixDecidable(rows, i + 1); }
        return Failure;
      }
      references := references + [row.reference.text];
    }
    assert rows[..|rows|] == rows;
    return Success(references);
  }

  /** Exactly the references of open rows are listed. */
  lemma {:induction false} MemberOfOpen(rows: seq<OrderRow>)
    ensures forall r :: r in OpenReferences(rows) <==>
      exists k :: 0 <= k < |rows| && Open(rows[k]) && rows[k].reference == Text(r)
  {
    hide Open;
    if rows != [] {
      var rest, last := rows[..|rows| - 1], rows[|rows| - 1];
      MemberOfOpen(rest);
      forall r
        ensures r in OpenReferences(rows) <==>
          exists k :: 0 <= k < |rows| && Open(rows[k]) && rows[k].reference == Text(r)
      {
        if r in OpenReferences(rest) {
          var k :| 0 <= k < |rest| && Open(rest[k]) && rest[k].reference == Text(r);
          assert rows[k] == rest[k];
        }
        if k :| 0 <= k < |rows| && Open(rows[k]) && rows[k].reference == Text(r) {
          if k < |rest| {
            assert rest[k] == rows[k];
          }
        }
      }
    }
  }

  lemma {:induction false} MemberOfSelected(c: Command, rows: seq<OrderRow>)
    requires c.CancelCommand?
    ensures forall row :: row in Selected(c, rows) <==> row in rows && Selects(c, row)
  {
    if rows != [] {
      MemberOfSelected(c, rows[..|rows| - 1]);
      assert rows == rows[..|rows| - 1] + [rows[|rows| - 1]];
    }
  }

  lemma {:induction false} OpenAreDistinct(rows: seq<OrderRow>)
    requires Decidable(rows)
    ensures forall j, k :: 0 <= j < k < |OpenReferences(rows)| ==> OpenReferences(rows)[j] != OpenReferences(rows)[k]
  {
    if rows != [] {
      var rest := rows[..|rows| - 1];
      OpenAreDistinct(rest);
      MemberOfOpen(rest);
    }
  }

  /**
   What an accepted command will cancel: every open US order it selects and nothing else, each
   once; a command for one reference selects one row, so it cancels at most one order.
   */
  lemma CancelsExactlyTheOpenOrders(c: Command, rows: seq<OrderRow>)
    requires c.CancelCommand? && Accepts(c, rows)
    ensures var refs := OpenReferences(Selected(c, rows));
      && (forall r :: r in refs <==> exists row :: row in rows && row.us && Open(row) && row.reference == Text(r)
                                                && (c.cancelAll || c.orderReference == Some(r)))
      && (forall j, k :: 0 <= j < k < |refs| ==> refs[j] != refs[k])
      && (!c.cancelAll ==> |refs| <= 1)
  {
    var selected := Selected(c, rows);
    var refs := OpenReferences(selected);
    MemberOfSelected(c, rows);
    MemberOfOpen(selected);
    OpenAreDistinct(selected);
    if !c.cancelAll {
      assert selected[..0] == [];
    }
    forall r
      ensures r in refs <==> exists row :: row in rows && row.us && Open(row) && row.reference == Text(r)
                                         && (c.cancelAll || c.orderReference == Some(r))
    {
      if r in refs {
        var k :| 0 <= k < |selected| && Open(selected[k]) && selected[k].reference == Text(r);
        assert selected[k] in selected;
      }
      if row :| row in rows && row.us && Open(row) && row.reference == Text(r)
                && (c.cancelAll || c.orderReference == Some(r)) {
        assert Selects(c, row);
        assert row in selected;
      }
    }
  }

  // ---------------------------------------------------------------- which replies are refused

  /** A row whose cancellation can be decided: over, being cancelled, or open under a usable reference. */
  predicate Known(row: OrderRow) {
    Settled(row) || (Open(row) && ValidReference(row.reference))
  }

  predicate Clash(a: OrderRow, b: OrderRow) {
    Open(a) && Open(b) && a.reference == b.reference
  }

  /** Every selected row is known and no two open ones have one reference. */
  ghost predicate NothingUnclear(c: Command, rows: seq<OrderRow>)
    requires c.CancelCommand?
  {
    && (forall k :: 0 <= k < |rows| && Selects(c, rows[k]) ==> Known(rows[k]))
    && (forall j, k :: 0 <= j < k < |rows| && Selects(c, rows[j]) && Selects(c, rows[k]) ==> !Clash(rows[j], rows[k]))
  }

  ghost predicate SelectsOnly(c: Command, rows: seq<OrderRow>, k: nat)
    requires c.CancelCommand?
  {
    k < |rows| && Selects(c, rows[k]) && forall j :: 0 <= j < |rows| && Selects(c, rows[j]) ==> j == k
  }

  /**
   A command is accepted exactly if nothing it selects is unclear and, unless it cancels all, it
   selects a single row.
   */
  lemma AcceptsExactly(c: Command, rows: seq<OrderRow>)
    requires c.CancelCommand?
    ensures Accepts(c, rows) <==> NothingUnclear(c, rows) && (c.cancelAll || exists k :: SelectsOnly(c, rows, k))
  {
    hide Selects, Open, Settled, ValidReference, Decidable;
    SelectedDecidable(c, rows);
    SelectedOne(c, rows);
  }

  lemma {:induction false} SelectedNone(c: Command, rows: seq<OrderRow>)
    requires c.CancelCommand?
    ensures Selected(c, rows) == [] <==> forall k :: 0 <= k < |rows| ==> !Selects(c, rows[k])
  {
    hide Selects;
    if rows != [] {
      var rest := rows[..|rows| - 1];
      SelectedNone(c, rest);
      assert rows == rest + [rows[|rows| - 1]];
    }
  }

  lemma {:induction false} SelectedOne(c: Command, rows: seq<OrderRow>)
    requires c.CancelCommand?
    ensures |Selected(c, rows)| == 1 <==> exists k :: SelectsOnly(c, rows, k)
  {
    hide Selects;
    if rows != [] {
      var rest, last := rows[..|rows| - 1], rows[|rows| - 1];
      SelectedOne(c, rest);
      SelectedNone(c, rest);
      assert rows == rest + [last];
      if Selects(c, last) {
        if Selected(c, rest) == [] { assert SelectsOnly(c, rows, |rest|); }
      } else {
        if k: nat :| SelectsOnly(c, rest, k) { assert SelectsOnly(c, rows, k); }
        if k: nat :| SelectsOnly(c, rows, k) { assert rest[k] == rows[k] && SelectsOnly(c, rest, k); }
      }
    }
  }

  ghost predicate Clear(c: Command, rest: seq<OrderRow>, last: OrderRow)
    requires c.CancelCommand?
  {
    Known(last) && forall j :: 0 <= j < |rest| && Selects(c, rest[j]) ==> !Clash(rest[j], last)
  }

  lemma OneMoreUnclear(c: Command, rest: seq<OrderRow>, last: OrderRow)
    requires c.CancelCommand?
    ensures NothingUnclear(c, rest + [last]) <==> NothingUnclear(c, rest) && (Selects(c, last) ==> Clear(c, rest, last))
  {
    hide Selects, Known, Clash;
    var rows := rest + [last];
    assert forall k :: 0 <= k < |rest| ==> rows[k] == rest[k];
    assert rows[|rest|] == last;
  }

  lemma ClearIsAddable(c: Command, rest: seq<OrderRow>, last: OrderRow)
    requires c.CancelCommand?
    ensures Addable(Selected(c, rest), last) <==> Clear(c, rest, last)
  {
    hide Selects, Settled, UsableReference;
    if Open(last) && last.reference.Text? { ClashInSelection(c, rest, last); }
  }

  lemma {:induction false} SelectedDecidable(c: Command, rows: seq<OrderRow>)
    requires c.CancelCommand?
    ensures Decidable(Selected(c, rows)) <==> NothingUnclear(c, rows)
  {
    hide Selects, Open, Settled, UsableReference, Addable, Clear;
    if rows != [] {
      var rest, last := rows[..|rows| - 1], rows[|rows| - 1];
      var before := Selected(c, rest);
      SelectedDecidable(c, rest);
      assert rows == rest + [last];
      OneMoreUnclear(c, rest, last);
      if Selects(c, last) {
        ClearIsAddable(c, rest, last);
        if Decidable(before) {
          OneMoreRow(before, last);
        } else if Decidable(before + [last]) {
          assert (before + [last])[..|before|] == before;
          PrefixDecidable(before + [last], |before|);
        }
      } else {
        assert Selected(c, rows) == before + [] == before;
      }
    }
  }

  lemma ClashInSelection(c: Command, rest: seq<OrderRow>, last: OrderRow)
    requires c.CancelCommand? && Open(last) && last.reference.Text?
    ensures last.reference.text in OpenReferences(Selected(c, rest)) <==>
      exists j :: 0 <= j < |rest| && Selects(c, rest[j]) && Clash(rest[j], last)
  {
    var selected := Selected(c, rest);
    MemberOfOpen(selected);
    MemberOfSelected(c, rest);
    if k :| 0 <= k < |selected| && Open(selected[k]) && selected[k].reference == last.reference {
      assert selected[k] in selected;
    }
    if j :| 0 <= j < |rest| && Selects(c, rest[j]) && Clash(rest[j], last) {
      assert rest[j] in selected;
    }
  }
}
