/** The evaluators of the notification outbox running side by side. Each is a
    transaction that locks a tenant, then checks and inserts item by item, then
    commits; a check sees what is committed and what its own transaction inserted. */
module OutboxLock {
  import opened Text
  import opened Ledger
  import Notifications

  /** A trigger row: the tenant and the notification's identifier. */
  datatype Item = Item(tenant: Id, notice: Notifications.NoticeId)

  /** An open transaction. `checked` is the item between its check and its insert,
      with what the check saw; `emitted` the items it has dealt with. */
  datatype Transaction = Transaction(locks: set<Id>, checked: Option<(Item, bool)>, inserted: seq<Item>,
      emitted: set<Item>)

  const FRESH := Transaction({}, None, [], {})

  datatype Db = Db(committed: seq<Item>, open: map<Id, Transaction>)

  const EMPTY_DB := Db([], map[])

  datatype Step =
    | Begin(worker: Id)
    | Lock(worker: Id, tenant: Id)
    | Check(worker: Id, item: Item)
    | Insert(worker: Id)
    | Commit(worker: Id)
    | Rollback(worker: Id)

  predicate Sees(db: Db, w: Id, i: Item)
    requires w in db.open
  {
    i in db.committed || i in db.open[w].inserted
  }

  predicate LockedByOther(db: Db, w: Id, tenant: Id) {
    exists v | v in db.open && v != w :: tenant in db.open[v].locks
  }

  /** An evaluator locks a tenant before it checks the tenant's items, and inserts what
      it just checked. `locking` says whether the advisory lock keeps others out. */
  predicate Enabled(db: Db, s: Step, locking: bool) {
    match s
    case Begin(w) => w !in db.open
    case Lock(w, tenant) => w in db.open && db.open[w].checked.None? && (locking ==> !LockedByOther(db, w, tenant))
    case Check(w, i) => w in db.open && db.open[w].checked.None? && i.tenant in db.open[w].locks
    case Insert(w) => w in db.open && db.open[w].checked.Some?
    case Commit(w) => w in db.open && db.open[w].checked.None?
    case Rollback(w) => w in db.open
  }

  function Next(db: Db, s: Step, locking: bool): Db
    requires Enabled(db, s, locking)
  {
    match s
    case Begin(w) => db.(open := db.open[w := FRESH])
    case Lock(w, tenant) => db.(open := db.open[w := db.open[w].(locks := db.open[w].locks + {tenant})])
    case Check(w, i) => db.(open := db.open[w := db.open[w].(checked := Some((i, Sees(db, w, i))))])
    case Insert(w) =>
      var t := db.open[w];
      var (i, present) := t.checked.value;
      db.(open := db.open[w := t.(checked := None, emitted := t.emitted + {i},
                                  inserted := if present then t.inserted else t.inserted + [i])])
    case Commit(w) => Db(db.committed + db.open[w].inserted, db.open - {w})
    case Rollback(w) => db.(open := db.open - {w})
  }

  ghost predicate Run(db: Db, steps: seq<Step>, locking: bool)
    decreases |steps|
  {
    steps == [] || (Enabled(db, steps[0], locking) && Run(Next(db, steps[0], locking), steps[1..], locking))
  }

  function After(db: Db, steps: seq<Step>, locking: bool): Db
    requires Run(db, steps, locking)
    decreases |steps|
  {
    if steps == [] then db else After(Next(db, steps[0], locking), steps[1..], locking)
  }

  ghost predicate Once(items: seq<Item>) { forall j, k | 0 <= j < k < |items| :: items[j] != items[k] }

  /** Locks exclude each other; a transaction's rows are its tenants', new, and once
      each and dealt with; a check stays true until its insert; what was dealt with is there. */
  ghost predicate Inv(db: Db) {
    && (forall v, w | v in db.open && w in db.open && v != w :: db.open[v].locks !! db.open[w].locks)
    && Once(db.committed)
    && (forall w | w in db.open :: Sound(db, w))
  }

  ghost predicate Sound(db: Db, w: Id)
    requires w in db.open
  {
    var t := db.open[w];
    && Once(t.inserted)
    && (forall i | i in t.inserted :: i.tenant in t.locks && i !in db.committed && i in t.emitted)
    && (t.checked.Some? ==> t.checked.value.0.tenant in t.locks && t.checked.value.1 == Sees(db, w, t.checked.value.0))
    && (forall i | i in t.emitted :: Sees(db, w, i))
  }

  lemma OnceAppend(a: seq<Item>, b: seq<Item>)
    requires Once(a) && Once(b) && forall i | i in b :: i !in a
    ensures Once(a + b)
  {
    forall j, k | 0 <= j < k < |a + b| ensures (a + b)[j] != (a + b)[k] {
      if j < |a| <= k { assert b[k - |a|] in b && a[j] in a; }
      if |a| <= j { assert b[j - |a|] != b[k - |a|]; }
    }
  }

  /** What others commit is invisible to a worker, as long as it is not about the worker's tenants. */
  lemma OthersSound(db: Db, db': Db, v: Id, rows: seq<Item>)
    requires v in db.open && Sound(db, v) && v in db'.open && db'.open[v] == db.open[v]
    requires db'.committed == db.committed + rows && forall i | i in rows :: i.tenant !in db.open[v].locks
    ensures Sound(db', v)
  {
    hide Once;
    forall i: Item | i.tenant in db.open[v].locks ensures Sees(db', v, i) <==> Sees(db, v, i) {
    }
  }

  lemma StepKeeps(db: Db, s: Step)
    requires Inv(db) && Enabled(db, s, true)
    ensures Inv(Next(db, s, true))
  {
    hide Once, Sound;
    var db', w := Next(db, s, true), s.worker;
    var rows := if s.Commit? then db.open[w].inserted else [];
    if w in db.open { assert Sound(db, w); OwnTenants(db, w); }
    assert db'.committed == db.committed + rows;
    forall v | v in db'.open ensures Sound(db', v) {
      if v != w {
        OthersSound(db, db', v, rows);
      } else {
        OwnSound(db, s);
      }
    }
    if s.Commit? { CommitOnce(db, w); } else { assert db.committed + [] == db.committed; }
  }

  lemma OwnTenants(db: Db, w: Id)
    requires w in db.open && Sound(db, w)
    ensures forall i | i in db.open[w].inserted :: i.tenant in db.open[w].locks
  {
  }

  lemma CommitOnce(db: Db, w: Id)
    requires w in db.open && Sound(db, w) && Once(db.committed)
    ensures Once(db.committed + db.open[w].inserted)
  {
    OnceAppend(db.committed, db.open[w].inserted);
  }

  lemma OwnSound(db: Db, s: Step)
    requires Enabled(db, s, true) && !s.Commit? && !s.Rollback?
    requires s.worker in db.open ==> Sound(db, s.worker)
    ensures s.worker in Next(db, s, true).open && Sound(Next(db, s, true), s.worker)
  {
    if s.Insert? {
      var t := db.open[s.worker];
      var (i, present) := t.checked.value;
      if !present { OnceAppend(t.inserted, [i]); }
    }
  }

  lemma {:induction false} RunKeeps(db: Db, steps: seq<Step>)
    requires Inv(db) && Run(db, steps, true)
    ensures Inv(After(db, steps, true))
    decreases |steps|
  {
    hide Inv, Enabled, Next;
    if steps == [] {
    } else {
      StepKeeps(db, steps[0]);
      RunKeeps(Next(db, steps[0], true), steps[1..]);
    }
  }

  /** However the evaluators interleave, commit and roll back, no item has two trigger
      rows; and when one commits, every item it dealt with has its row. */
  lemma ExactlyOnce(steps: seq<Step>, w: Id, i: Item)
    requires Run(EMPTY_DB, steps, true)
    ensures var db := After(EMPTY_DB, steps, true);
      && Once(db.committed)
      && (w in db.open && db.open[w].checked.None? && i in db.open[w].emitted ==>
          i in Next(db, Commit(w), true).committed)
  {
    hide Once;
    RunKeeps(EMPTY_DB, steps) by { EmptyInv(); }
    var db := After(EMPTY_DB, steps, true);
    if w in db.open { assert Sound(db, w); }
  }

  lemma EmptyInv()
    ensures Inv(EMPTY_DB)
  {
  }

  // ---------- as if one after the other ----------

  /** The items a transaction adds are those it dealt with that were not committed before. */
  lemma CommitAdds(db: Db, w: Id, i: Item)
    requires Inv(db) && Enabled(db, Commit(w), true)
    ensures i in db.open[w].inserted <==> i in db.open[w].emitted && i !in db.committed
  {
    assert Sound(db, w);
  }

  /** What the committed transactions of a run dealt with, in commit order. */
  function Commits(db: Db, steps: seq<Step>): seq<set<Item>>
    requires Run(db, steps, true)
    decreases |steps|
  {
    if steps == [] then []
    else
      (if steps[0].Commit? then [db.open[steps[0].worker].emitted] else [])
      + Commits(Next(db, steps[0], true), steps[1..])
  }

  /** One tenant's evaluation, of the cases and replies it reads at the time. */
  datatype Evaluation = Evaluation(world: Notifications.World, tenant: Id, now: int)

  function Dealt(e: Evaluation): set<Item> {
    set n | n in Notifications.Due(e.world, e.tenant, e.now) :: Item(e.tenant, n)
  }

  /** A transaction evaluates one tenant, or all of them one by one. */
  function AllDealt(es: seq<Evaluation>): set<Item> {
    if es == [] then {} else Dealt(es[0]) + AllDealt(es[1..])
  }

  /** The evaluations run with nobody else at work, from one ledger to another. */
  ghost predicate Serial(rows: Notifications.Rows, es: seq<Evaluation>, rows': Notifications.Rows)
    decreases |es|
  {
    if es == [] then rows' == rows
    else exists mid :: Evaluated(rows, es[0], mid) && Serial(mid, es[1..], rows')
  }

  /** What `Evaluator.EvaluateTenant` does, at whatever time it writes its rows. */
  ghost predicate Evaluated(rows: Notifications.Rows, e: Evaluation, rows': Notifications.Rows) {
    exists at :: Notifications.Emitted(rows, rows', e.tenant, at, Notifications.Due(e.world, e.tenant, e.now))
  }

  /** The transactions run one after the other. */
  ghost predicate SerialRun(rows: Notifications.Rows, jobs: seq<seq<Evaluation>>, rows': Notifications.Rows)
    decreases |jobs|
  {
    if jobs == [] then rows' == rows else exists mid :: Serial(rows, jobs[0], mid) && SerialRun(mid, jobs[1..], rows')
  }

  ghost predicate SameRows(db: Db, rows: Notifications.Rows) {
    forall i: Item :: i in db.committed <==> Notifications.Exists(rows, i.tenant, i.notice)
  }

  lemma {:induction false} SerialMeans(rows: Notifications.Rows, es: seq<Evaluation>, rows': Notifications.Rows,
      i: Item)
    requires Serial(rows, es, rows')
    ensures Notifications.Exists(rows', i.tenant, i.notice) <==>
      Notifications.Exists(rows, i.tenant, i.notice) || i in AllDealt(es)
    decreases |es|
  {
    hide Notifications.Emitted, Notifications.Exists, Notifications.Due;
    if es == [] {
    } else {
      var e := es[0];
      var mid :| Evaluated(rows, e, mid) && Serial(mid, es[1..], rows');
      var at :| Notifications.Emitted(rows, mid, e.tenant, at, Notifications.Due(e.world, e.tenant, e.now));
      Notifications.TriggeredAre(rows, mid, e.tenant, at, Notifications.Due(e.world, e.tenant, e.now), i.tenant,
        i.notice);
      SerialMeans(mid, es[1..], rows', i);
    }
  }

  lemma StepRows(db: Db, s: Step)
    requires Inv(db) && Enabled(db, s, true)
    ensures forall i :: i in Next(db, s, true).committed <==>
      i in db.committed || (s.Commit? && i in db.open[s.worker].emitted)
  {
    hide Inv;
    forall i ensures i in Next(db, s, true).committed <==>
      i in db.committed || (s.Commit? && i in db.open[s.worker].emitted)
    {
      if s.Commit? { CommitAdds(db, s.worker, i); }
    }
  }

  lemma {:induction false} SameAsSerialFrom(db: Db, steps: seq<Step>, rows: Notifications.Rows,
      jobs: seq<seq<Evaluation>>, rows': Notifications.Rows)
    requires Inv(db) && Run(db, steps, true) && SameRows(db, rows) && SerialRun(rows, jobs, rows')
    requires |jobs| == |Commits(db, steps)|
    requires forall k | 0 <= k < |jobs| :: AllDealt(jobs[k]) == Commits(db, steps)[k]
    ensures SameRows(After(db, steps, true), rows')
    decreases |steps|
  {
    hide Inv, Enabled, Next, Notifications.Exists, AllDealt;
    if steps == [] {
    } else {
      var db' := Next(db, steps[0], true);
      StepKeeps(db, steps[0]);
      StepRows(db, steps[0]);
      if steps[0].Commit? {
        var mid :| Serial(rows, jobs[0], mid) && SerialRun(mid, jobs[1..], rows');
        forall i: Item ensures i in db'.committed <==> Notifications.Exists(mid, i.tenant, i.notice) {
          SerialMeans(rows, jobs[0], mid, i);
        }
        assert Commits(db, steps)[1..] == Commits(db', steps[1..]);
        SameAsSerialFrom(db', steps[1..], mid, jobs[1..], rows');
      } else {
        assert [] + Commits(db', steps[1..]) == Commits(db', steps[1..]);
        SameAsSerialFrom(db', steps[1..], rows, jobs, rows');
      }
    }
  }

  lemma CanEmitOne(before: Notifications.Rows, rows: Notifications.Rows, tenant: Id, at: int,
                   done: set<Notifications.NoticeId>, n: Notifications.NoticeId) returns (rows': Notifications.Rows)
    requires Notifications.Emitted(before, rows, tenant, at, done)
    ensures Notifications.Emitted(before, rows', tenant, at, done + {n})
  {
    hide Notifications.NoticeOf, Notifications.IdOf, Notifications.Exists, Notifications.Outbox, NotBefore;
    rows' := rows;
    if !Notifications.Exists(rows, tenant, n) {
      hide Notifications.Emitted;
      NoticeNamed(n);
      Notifications.EmitOne(before, rows, tenant, at, done, Notifications.NoticeOf(n));
      rows' := Append(rows, at, Notifications.TriggerRow(tenant, Notifications.NoticeOf(n)));
    }
  }

  /** Emitting what is left of a set, one item after another. */
  lemma {:induction false} CanEmit(before: Notifications.Rows, rows: Notifications.Rows, tenant: Id, at: int,
                                   done: set<Notifications.NoticeId>, todo: set<Notifications.NoticeId>)
      returns (rows': Notifications.Rows)
    requires Notifications.Emitted(before, rows, tenant, at, done)
    ensures Notifications.Emitted(before, rows', tenant, at, done + todo)
    decreases |todo|
  {
    hide Notifications.Emitted;
    if todo == {} {
      rows' := rows;
      assert done + todo == done;
    } else {
      var n :| n in todo;
      rows' := CanEmitOne(before, rows, tenant, at, done, n);
      rows' := CanEmit(before, rows', tenant, at, done + {n}, todo - {n});
      assert done + {n} + (todo - {n}) == done + todo;
    }
  }

  lemma NoticeNamed(n: Notifications.NoticeId)
    ensures Notifications.IdOf(Notifications.NoticeOf(n)) == n
  {
  }

  lemma CanEvaluate(rows: Notifications.Rows, e: Evaluation) returns (rows': Notifications.Rows)
    requires Notifications.Outbox(rows)
    ensures Evaluated(rows, e, rows') && Notifications.Outbox(rows')
  {
    hide Notifications.Due;
    var at := if rows == [] then 0 else rows[|rows| - 1].at;
    Notifications.EmittedNothing(rows, e.tenant, at);
    rows' := CanEmit(rows, rows, e.tenant, at, {}, Notifications.Due(e.world, e.tenant, e.now));
    assert {} + Notifications.Due(e.world, e.tenant, e.now) == Notifications.Due(e.world, e.tenant, e.now);
  }

  lemma {:induction false} CanSerial(rows: Notifications.Rows, es: seq<Evaluation>) returns (rows': Notifications.Rows)
    requires Notifications.Outbox(rows)
    ensures Serial(rows, es, rows') && Notifications.Outbox(rows')
    decreases |es|
  {
    hide Evaluated, Notifications.Outbox;
    if es == [] {
      rows' := rows;
    } else {
      var mid := CanEvaluate(rows, es[0]);
      rows' := CanSerial(mid, es[1..]);
    }
  }

  /** A serial run of any transactions exists. */
  lemma {:induction false} CanRun(rows: Notifications.Rows, jobs: seq<seq<Evaluation>>)
      returns (rows': Notifications.Rows)
    requires Notifications.Outbox(rows)
    ensures SerialRun(rows, jobs, rows') && Notifications.Outbox(rows')
    decreases |jobs|
  {
    hide Serial, Notifications.Outbox;
    if jobs == [] {
      rows' := rows;
    } else {
      var mid := CanSerial(rows, jobs[0]);
      rows' := CanRun(mid, jobs[1..]);
    }
  }

  /** However the evaluators interleave: when each committed transaction dealt with what was
      due in its evaluations, the rows are those of the same evaluations run one after the
      other in commit order, which is possible, once each on both sides. */
  lemma SameAsSerial(steps: seq<Step>, jobs: seq<seq<Evaluation>>)
    requires Run(EMPTY_DB, steps, true)
    requires |jobs| == |Commits(EMPTY_DB, steps)|
    requires forall k | 0 <= k < |jobs| :: AllDealt(jobs[k]) == Commits(EMPTY_DB, steps)[k]
    ensures exists rows :: SerialRun([], jobs, rows)
    ensures forall rows | SerialRun([], jobs, rows) :: SameRows(After(EMPTY_DB, steps, true), rows)
    ensures Once(After(EMPTY_DB, steps, true).committed)
  {
    EmptyInv();
    RunKeeps(EMPTY_DB, steps);
    var _ := CanRun([], jobs);
    hide Run, After, SerialRun, SameRows, Commits, AllDealt;
    forall rows | SerialRun([], jobs, rows) ensures SameRows(After(EMPTY_DB, steps, true), rows) {
      NoRows();
      SameAsSerialFrom(EMPTY_DB, steps, [], jobs, rows);
    }
  }

  lemma NoRows()
    ensures SameRows(EMPTY_DB, [])
  {
  }

  // ---------- without the lock ----------

  lemma Prepend(db: Db, s: Step, rest: seq<Step>, locking: bool)
    requires Enabled(db, s, locking) && Run(Next(db, s, locking), rest, locking)
    ensures Run(db, [s] + rest, locking) && After(db, [s] + rest, locking) == After(Next(db, s, locking), rest, locking)
  {
    assert ([s] + rest)[1..] == rest;
  }

  /** Both workers hold the tenant, the item is nowhere, and both find it missing. */
  lemma BothInsert(db: Db, i: Item)
    requires db.committed == [] && db.open == map[1 := FRESH.(locks := {i.tenant}), 2 := FRESH.(locks := {i.tenant})]
    ensures
      var steps := [Check(1, i)] + ([Check(2, i)] + ([Insert(1)] + ([Insert(2)] + ([Commit(1)] + ([Commit(2)] + [])))));
      Run(db, steps, false) && After(db, steps, false).committed == [i, i]
  {
    var d1 := Next(db, Check(1, i), false);
    var d2 := Next(d1, Check(2, i), false);
    var d3 := Next(d2, Insert(1), false);
    var d4 := Next(d3, Insert(2), false);
    var d5 := Next(d4, Commit(1), false);
    assert d5.committed == [i] && d5.open[2].inserted == [i];
    Prepend(d5, Commit(2), [], false);
    Prepend(d4, Commit(1), [Commit(2)] + [], false);
    Prepend(d3, Insert(2), [Commit(1)] + ([Commit(2)] + []), false);
    Prepend(d2, Insert(1), [Insert(2)] + ([Commit(1)] + ([Commit(2)] + [])), false);
    Prepend(d1, Check(2, i), [Insert(1)] + ([Insert(2)] + ([Commit(1)] + ([Commit(2)] + []))), false);
    Prepend(db, Check(1, i), [Check(2, i)] + ([Insert(1)] + ([Insert(2)] + ([Commit(1)] + ([Commit(2)] + [])))), false);
  }

  function Holding(tenant: Id): Db {
    Db([], map[1 := FRESH.(locks := {tenant}), 2 := FRESH.(locks := {tenant})])
  }

  lemma BothLock(tenant: Id)
    ensures Enabled(EMPTY_DB, Begin(1), false)
    ensures var d1 := Next(EMPTY_DB, Begin(1), false);
      && Enabled(d1, Begin(2), false)
      && var d2 := Next(d1, Begin(2), false);
      && Enabled(d2, Lock(1, tenant), false)
      && var d3 := Next(d2, Lock(1, tenant), false);
      && Enabled(d3, Lock(2, tenant), false)
      && Next(d3, Lock(2, tenant), false) == Holding(tenant)
  {
    var d3 := Next(Next(Next(EMPTY_DB, Begin(1), false), Begin(2), false), Lock(1, tenant), false);
    assert {} + {tenant} == {tenant};
    assert d3.open == map[1 := FRESH.(locks := {tenant}), 2 := FRESH];
  }

  /** Any continuation of that state is a continuation of two evaluators starting. */
  lemma FromStart(tenant: Id, rest: seq<Step>) returns (steps: seq<Step>)
    requires Run(Holding(tenant), rest, false)
    ensures Run(EMPTY_DB, steps, false) && After(EMPTY_DB, steps, false) == After(Holding(tenant), rest, false)
  {
    BothLock(tenant);
    hide *;
    var d1 := Next(EMPTY_DB, Begin(1), false);
    var d2 := Next(d1, Begin(2), false);
    var d3 := Next(d2, Lock(1, tenant), false);
    steps := [Lock(2, tenant)] + rest;
    Prepend(d3, Lock(2, tenant), rest, false);
    var from3 := steps;
    steps := [Lock(1, tenant)] + from3;
    Prepend(d2, Lock(1, tenant), from3, false);
    var from2 := steps;
    steps := [Begin(2)] + from2;
    Prepend(d1, Begin(2), from2, false);
    var from1 := steps;
    steps := [Begin(1)] + from1;
    Prepend(EMPTY_DB, Begin(1), from1, false);
  }

  /** Without the lock, two evaluators can write the same item twice. */
  lemma LockNeeded(i: Item)
    ensures exists steps: seq<Step> :: Run(EMPTY_DB, steps, false) && !Once(After(EMPTY_DB, steps, false).committed)
  {
    BothInsert(Holding(i.tenant), i);
    hide Run, After;
    var rest := [Check(1, i)] + ([Check(2, i)] + ([Insert(1)] + ([Insert(2)] + ([Commit(1)] + ([Commit(2)] + [])))));
    var steps := FromStart(i.tenant, rest);
    assert [i, i][0] == [i, i][1];
  }
}
