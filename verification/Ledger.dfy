/** The audit table as the other components read it: appended to, never changed,
    and looked up by the newest or oldest row that matches. */
module Ledger {
  import opened Text

  type Id = nat

  datatype ObjectType =
    | AuthSession | UserObject | CaseObject | Notification | ResponseObject | DocumentObject | MessageObject

  datatype Action =
    | RefreshIssue | RefreshRevoke
    | CaseCreate | CaseCreateFromMessage | CaseUpdate | CaseAssign | CaseStatus | CaseNote | CaseEscalate
    | Trigger | Read
    | DocumentCreate
    | OtherAction

  /** One audit row; the facts stand for its before and after state. */
  datatype Row<+I, +S> = Row(tenant: Id, actor: Option<Id>, action: Action, objectType: ObjectType, objectId: Option<I>,
                           before: Option<S>, after: Option<S>)

  /** A row with its identity column and insertion time. */
  datatype Stamped<+R> = Stamped(id: nat, at: int, row: R)

  /** ORDER BY occurred_at, audit_id. */
  predicate Later<R>(a: Stamped<R>, b: Stamped<R>) { a.at > b.at || (a.at == b.at && a.id > b.id) }

  ghost predicate Ordered<R>(rows: seq<Stamped<R>>) {
    forall i, j | 0 <= i < j < |rows| :: Later(rows[j], rows[i]) && rows[j].at >= rows[i].at && rows[j].id > rows[i].id
  }

  function NextId<R>(rows: seq<Stamped<R>>): nat {
    if rows == [] then 1 else rows[|rows| - 1].id + 1
  }

  predicate NotBefore<R>(now: int, rows: seq<Stamped<R>>) { rows != [] ==> rows[|rows| - 1].at <= now }

  function Append<R>(rows: seq<Stamped<R>>, now: int, row: R): seq<Stamped<R>> {
    rows + [Stamped(NextId(rows), now, row)]
  }

  /** A clock that does not go back keeps the table in insertion order. */
  lemma AppendOrdered<R>(rows: seq<Stamped<R>>, now: int, row: R)
    requires Ordered(rows) && NotBefore(now, rows)
    ensures Ordered(Append(rows, now, row)) && NotBefore(now, Append(rows, now, row))
  {
    var all, n := Append(rows, now, row), |rows|;
    forall i | 0 <= i < n ensures Later(all[n], all[i]) && all[n].at >= all[i].at && all[n].id > all[i].id {
      if i < n - 1 { assert Later(rows[n - 1], rows[i]); }
    }
  }

  /** ORDER BY occurred_at DESC, audit_id DESC LIMIT 1, among the rows that match. */
  function Newest<R>(rows: seq<Stamped<R>>, p: R -> bool): Option<Stamped<R>> {
    if rows == [] then None
    else
      var last, older := rows[|rows| - 1], Newest(rows[..|rows| - 1], p);
      if !p(last.row) || (older.Some? && Later(older.value, last)) then older else Some(last)
  }

  /** ORDER BY occurred_at, audit_id LIMIT 1, among the rows that match. */
  function Oldest<R>(rows: seq<Stamped<R>>, p: R -> bool): Option<Stamped<R>> {
    if rows == [] then None
    else
      var last, older := rows[|rows| - 1], Oldest(rows[..|rows| - 1], p);
      if !p(last.row) || (older.Some? && !Later(older.value, last)) then older else Some(last)
  }

  lemma {:induction false} NewestFound<R>(rows: seq<Stamped<R>>, p: R -> bool) returns (k: nat)
    ensures match Newest(rows, p)
      case Some(r) => k < |rows| && rows[k] == r && p(r.row)
      case None => forall i | 0 <= i < |rows| :: !p(rows[i].row)
  {
    k := 0;
    if rows == [] {
    } else {
      k := NewestFound(rows[..|rows| - 1], p);
      if Newest(rows, p) == Some(rows[|rows| - 1]) { k := |rows| - 1; }
    }
  }

  lemma {:induction false} OldestFound<R>(rows: seq<Stamped<R>>, p: R -> bool) returns (k: nat)
    ensures match Oldest(rows, p)
      case Some(r) => k < |rows| && rows[k] == r && p(r.row)
      case None => forall i | 0 <= i < |rows| :: !p(rows[i].row)
  {
    k := 0;
    if rows == [] {
    } else {
      k := OldestFound(rows[..|rows| - 1], p);
      if Oldest(rows, p) == Some(rows[|rows| - 1]) { k := |rows| - 1; }
    }
  }

  /** In an ordered table the newest match is the last one written. */
  lemma NewestAppend<R>(rows: seq<Stamped<R>>, now: int, row: R, p: R -> bool)
    requires Ordered(rows) && NotBefore(now, rows)
    ensures Newest(Append(rows, now, row), p) ==
      if p(row) then Some(Stamped(NextId(rows), now, row)) else Newest(rows, p)
  {
    AppendOrdered(rows, now, row);
    var all := Append(rows, now, row);
    assert all[..|all| - 1] == rows;
    var k := NewestFound(rows, p);
    if Newest(rows, p).Some? { assert Later(all[|rows|], all[k]); }
  }

  /** In an ordered table the oldest match, once there is one, stays. */
  lemma OldestAppend<R>(rows: seq<Stamped<R>>, now: int, row: R, p: R -> bool)
    requires Ordered(rows) && NotBefore(now, rows)
    ensures Oldest(Append(rows, now, row), p) ==
      if Oldest(rows, p).Some? || !p(row) then Oldest(rows, p) else Some(Stamped(NextId(rows), now, row))
  {
    AppendOrdered(rows, now, row);
    var all := Append(rows, now, row);
    assert all[..|all| - 1] == rows;
    var k := OldestFound(rows, p);
    if Oldest(rows, p).Some? { assert Later(all[|rows|], all[k]); }
  }
}
