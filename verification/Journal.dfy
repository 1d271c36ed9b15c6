/**
 The durable command journal. One SQLite transaction is one method call here; timestamps,
 messages and the execution details column carry no decision and are not modelled.
 */
module Journal {
  import opened Common
  import opened Commands

  datatype RowState =
    | Received | Disabled | Blocked | Dispatching | Submitted | Rejected | Unknown | NoAction | CancelRequested

  datatype CancelState = Pending | CancelDispatching | Requested | CancelRejected | CancelUnknown

  datatype Row = Row(digest: Fingerprint, state: RowState, reference: Option<string>,
                     cancelDue: Option<int>, cancelState: Option<CancelState>)

  type Rows = map<string, Row>

  function FreshRow(digest: Fingerprint): Row {
    Row(digest, Received, None, None, None)
  }

  /** SQL `COALESCE(new, old)`. */
  function Coalesce<T>(new_: Option<T>, old_: Option<T>): Option<T> {
    if new_.Some? then new_ else old_
  }

  function UpdatedRow(row: Row, state: RowState, reference: Option<string>,
                      cancelDue: Option<int>, cancelState: Option<CancelState>): Row {
    Row(row.digest, state, Coalesce(reference, row.reference), Coalesce(cancelDue, row.cancelDue),
        Coalesce(cancelState, row.cancelState))
  }

  predicate IsUnresolved(row: Row) {
    row.state in {Dispatching, Unknown}
  }

  predicate IsPendingCancellation(row: Row) {
    && row.state == Submitted && row.cancelDue.Some?
    && (row.cancelState.None? || row.cancelState.value in {Pending, CancelDispatching, CancelUnknown})
  }

  /** The broker's answer to the timer cancellation is on record. */
  predicate CancelSettled(s: Option<CancelState>) {
    s == Some(Requested) || s == Some(CancelRejected)
  }

  function UnresolvedIds(rows: Rows): set<string> {
    set id | id in rows && IsUnresolved(rows[id])
  }

  function PendingIds(rows: Rows): set<string> {
    set id | id in rows && IsPendingCancellation(rows[id])
  }

  /** `ids` names exactly the members of `wanted`, each once. */
  predicate Lists(ids: seq<string>, wanted: set<string>) {
    && (forall k :: 0 <= k < |ids| ==> ids[k] in wanted)
    && (forall id :: id in wanted ==> id in ids)
    && (forall i, k :: 0 <= i < k < |ids| ==> ids[i] != ids[k])
  }

  /** What a claim answers: new, already recorded, or an ID reused for something else. */
  function ClaimAnswer(rows: Rows, id: string, digest: Fingerprint): Result<bool> {
    if id !in rows then Success(true) else if rows[id].digest == digest then Success(false) else Failure
  }

  class CommandJournal {
    var rows: Rows

    constructor ()
      ensures rows == map[]
    {
      rows := map[];
    }

    method Claim(id: string, digest: Fingerprint) returns (fresh_: Result<bool>)
      modifies this
      ensures fresh_ == ClaimAnswer(old(rows), id, digest)
      ensures rows == if fresh_ == Success(true) then old(rows)[id := FreshRow(digest)] else old(rows)
      ensures fresh_ == Success(true) <==> id !in old(rows)
      ensures id !in old(rows) ==> rows == old(rows)[id := Row(digest, Received, None, None, None)]
    {
      if id in rows {
        if rows[id].digest != digest {
          return Failure;
        }
        return Success(false);
      }
      rows := rows[id := FreshRow(digest)];
      return Success(true);
    }

    /** An SQL UPDATE: it changes nothing when no row has this ID. */
    method Update(id: string, state: RowState, reference: Option<string> := None,
                  cancelDue: Option<int> := None, cancelState: Option<CancelState> := None)
      modifies this
      ensures id in old(rows) ==>
        rows == old(rows)[id := UpdatedRow(old(rows)[id], state, reference, cancelDue, cancelState)]
      ensures id !in old(rows) ==> rows == old(rows)
    {
      if id in rows {
        rows := rows[id := UpdatedRow(rows[id], state, reference, cancelDue, cancelState)];
      }
    }

    method HasUnresolved() returns (found: bool)
      ensures found <==> UnresolvedIds(rows) != {}
    {
      found := exists id :: id in rows && IsUnresolved(rows[id]);
      if found {
        var id :| id in rows && IsUnresolved(rows[id]);
        assert id in UnresolvedIds(rows);
      }
    }

    /** The selected rows in some order. */
    method PendingCancellations() returns (ids: seq<string>)
      ensures Lists(ids, PendingIds(rows))
    {
      var left := PendingIds(rows);
      ids := [];
      while left != {}
        invariant left <= PendingIds(rows)
        invariant forall k :: 0 <= k < |ids| ==> ids[k] in PendingIds(rows) - left
        invariant forall id :: id in PendingIds(rows) - left ==> id in ids
        invariant forall i, k :: 0 <= i < k < |ids| ==> ids[i] != ids[k]
        decreases left
      {
        var id :| id in left;
        ids, left := ids + [id], left - {id};
      }
    }
  }

  /**
   A redelivery that asks for the same thing, however its numbers are spelled, is answered
   `false`; any other use of the ID is refused. Nothing else can happen to a recorded ID.
   */
  lemma ClaimDetectsReuse(rows: Rows, first: Command, again: Command)
    requires ValidCommand(first) && ValidCommand(again) && first.id == again.id
    requires first.id in rows && rows[first.id].digest == FingerprintOf(first)
    ensures ClaimAnswer(rows, again.id, FingerprintOf(again)) ==
      if SameRequest(first, again) then Success(false) else Failure
  {
    FingerprintIdentifiesRequest(first, again);
  }
}
