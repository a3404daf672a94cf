/** The notification outbox: nested loops over cases, rules and recipients, and a
    check in the audit table that emits each item once. */
module Notifications {
  import opened Text
  import opened Ledger
  import Cases
  import Replies

  datatype Role = CommsOfficer | DeptHead | CrisisLead | OtherRole

  datatype User = User(tenant: Id, active: bool, roles: set<Role>)

  /** The tables an evaluation reads. */
  datatype World = World(users: map<Id, User>, cases: map<Id, Cases.Case>, replies: map<Id, Replies.Reply>)

  datatype Kind =
    | CaseAssigned | CaseUnassigned | SlaBreached | SlaDueSoon | CaseCritical | CustomerWaiting | DraftApproval

  const CASE_KINDS := {CaseAssigned, CaseUnassigned, SlaBreached, SlaDueSoon, CaseCritical, CustomerWaiting}

  /** The name-based UUID of the three parts, taken to be injective. */
  datatype NoticeId = NoticeId(kind: Kind, target: Id, recipient: Id)

  datatype Level = Info | Action | Warning | Critical

  datatype Page = CasesPage | WhatsAppPage

  /** What the trigger row stores, less the wording. */
  datatype Notice = Notice(recipient: Id, kind: Kind, level: Level, target: Id, page: Page)

  type AuditRow = Row<NoticeId, Notice>
  type Rows = seq<Stamped<AuditRow>>

  function IdOf(n: Notice): NoticeId { NoticeId(n.kind, n.target, n.recipient) }

  function TriggerRow(tenant: Id, n: Notice): AuditRow {
    Row(tenant, None, Trigger, Notification, Some(IdOf(n)), None, Some(n))
  }

  function ReadRow(tenant: Id, user: Id, id: NoticeId): AuditRow {
    Row(tenant, Some(user), Read, Notification, Some(id), None, None)
  }

  predicate IsTrigger(r: AuditRow, tenant: Id) { r.tenant == tenant && r.action == Trigger }

  /** The existence check of the emitter. */
  predicate Exists(rows: Rows, tenant: Id, id: NoticeId) {
    exists k | 0 <= k < |rows| ::
      IsTrigger(rows[k].row, tenant) && rows[k].row.objectType == Notification && rows[k].row.objectId == Some(id)
  }

  /** SELECT count(*) of a tenant's trigger rows. */
  function Count(rows: Rows, tenant: Id): nat {
    if rows == [] then 0
    else Count(rows[..|rows| - 1], tenant) + if IsTrigger(rows[|rows| - 1].row, tenant) then 1 else 0
  }

  /** Trigger rows are written here only, and one per tenant and identifier. */
  ghost predicate Outbox(rows: Rows) {
    && Ordered(rows)
    && (forall k | 0 <= k < |rows| :: rows[k].row.action == Trigger ==>
          rows[k].row.after.Some? && rows[k].row == TriggerRow(rows[k].row.tenant, rows[k].row.after.value))
    && (forall j, k | 0 <= j < k < |rows| ::
          rows[j].row.action == Trigger && rows[k].row.action == Trigger && rows[j].row.tenant == rows[k].row.tenant ==>
            rows[j].row.objectId != rows[k].row.objectId)
  }

  // ---------- what is due ----------

  predicate Has(u: User, roles: set<Role>) { u.roles * roles != {} }

  /** Active users of the tenant with one of the roles. */
  function Holders(w: World, tenant: Id, roles: set<Role>): set<Id> {
    set u | u in w.users && w.users[u].tenant == tenant && w.users[u].active && Has(w.users[u], roles)
  }

  function Managers(w: World, tenant: Id): set<Id> { Holders(w, tenant, {CommsOfficer, DeptHead}) }

  function Owners(w: World, c: Cases.Case): set<Id> {
    if c.assignee.Some? then {c.assignee.value} else Managers(w, c.tenant)
  }

  /** Who must hear of an open case, rule by rule. */
  function Recipients(w: World, now: int, kind: Kind, c: Cases.Case): set<Id> {
    match kind
    case CaseAssigned => if c.assignee.Some? then {c.assignee.value} else {}
    case CaseUnassigned =>
        if c.assignee.None? && c.status in {Cases.New, Cases.Triaged} then Managers(w, c.tenant) else {}
    case SlaBreached => if Cases.SlaState(c.status, c.slaDue, now).Breached? then Owners(w, c) else {}
    case SlaDueSoon => if Cases.SlaState(c.status, c.slaDue, now).DueSoon? then Owners(w, c) else {}
    case CaseCritical =>
      if c.severity.Critical?
      then Holders(w, c.tenant, {CrisisLead}) + (if c.assignee.Some? then {c.assignee.value} else {})
      else {}
    case CustomerWaiting =>
      if c.status.AwaitingResponse? && c.updated + 2 * Cases.HOUR <= now then Owners(w, c) else {}
    case DraftApproval => {}
  }

  function OpenCases(w: World, tenant: Id): set<Id> {
    set c | c in w.cases && w.cases[c].tenant == tenant && Cases.Open(w.cases[c].status)
  }

  function PendingReplies(w: World, tenant: Id): set<Id> {
    set r | r in w.replies && w.replies[r].tenant == tenant && w.replies[r].status == Replies.PendingApproval
  }

  /** Heads of department who neither made nor edited the reply. */
  function Approvers(w: World, r: Replies.Reply): set<Id> {
    set u | u in Holders(w, r.tenant, {DeptHead}) && Some(u) !in {r.createdBy, r.editedBy}
  }

  function To(kind: Kind, target: Id, recipients: set<Id>): set<NoticeId> {
    set u | u in recipients :: NoticeId(kind, target, u)
  }

  function CaseDue(w: World, now: int, id: Id): set<NoticeId>
    requires id in w.cases
  {
    set k, u | k in CASE_KINDS && u in Recipients(w, now, k, w.cases[id]) :: NoticeId(k, id, u)
  }

  function ReplyDue(w: World, id: Id): set<NoticeId>
    requires id in w.replies
  {
    To(DraftApproval, id, Approvers(w, w.replies[id]))
  }

  function Due(w: World, tenant: Id, now: int): set<NoticeId> {
    (set c, n | c in OpenCases(w, tenant) && n in CaseDue(w, now, c) :: n)
    + (set r, n | r in PendingReplies(w, tenant) && n in ReplyDue(w, r) :: n)
  }

  function LevelOf(k: Kind): Level {
    match k
    case CaseAssigned => Info
    case CaseUnassigned => Action
    case SlaBreached => Critical
    case SlaDueSoon => Warning
    case CaseCritical => Critical
    case CustomerWaiting => Warning
    case DraftApproval => Action
  }

  function PageOf(k: Kind): Page { if k == DraftApproval then WhatsAppPage else CasesPage }

  /** The notice an identifier stands for. */
  function NoticeOf(id: NoticeId): Notice {
    Notice(id.recipient, id.kind, LevelOf(id.kind), id.target, PageOf(id.kind))
  }

  // ---------- what emitting does ----------

  /** `rows` is `before` with exactly the identifiers of `todo` that were missing, each
      once, as trigger rows with the notice it stands for. */
  ghost predicate Emitted(before: Rows, rows: Rows, tenant: Id, now: int, todo: set<NoticeId>) {
    && Outbox(rows) && NotBefore(now, rows) && before <= rows
    && (forall id | id in todo :: Exists(rows, tenant, id))
    && (forall k | |before| <= k < |rows| ::
          rows[k].at == now && rows[k].row.objectId.Some? && var id := rows[k].row.objectId.value;
          rows[k].row == TriggerRow(tenant, NoticeOf(id)) && id in todo && !Exists(before, tenant, id))
  }

  class Evaluator {
    var rows: Rows

    constructor ()
      ensures rows == []
    {
      rows := [];
    }

    /** Emits unless the identifier was emitted before. */
    method Emit(ghost before: Rows, ghost done: set<NoticeId>, tenant: Id, now: int, n: Notice)
      requires Emitted(before, rows, tenant, now, done) && n == NoticeOf(IdOf(n))
      modifies this
      ensures Emitted(before, rows, tenant, now, done + {IdOf(n)})
    {
      if !Exists(rows, tenant, IdOf(n)) {
        EmitOne(before, rows, tenant, now, done, n);
        rows := rows + [Stamped(NextId(rows), now, TriggerRow(tenant, n))];
      }
    }

    method EmitEach(ghost before: Rows, ghost done: set<NoticeId>, tenant: Id, now: int,
                    kind: Kind, level: Level, target: Id, page: Page, recipients: set<Id>)
      requires Emitted(before, rows, tenant, now, done)
      requires level == LevelOf(kind) && page == PageOf(kind)
      modifies this
      ensures Emitted(before, rows, tenant, now, done + To(kind, target, recipients))
    {
      hide Emitted, LevelOf, PageOf, To;
      NothingTo(done, kind, target);
      assert recipients - recipients == {};
      var todo := recipients;
      ghost var sofar := done;
      while todo != {}
        invariant Emitted(before, rows, tenant, now, sofar)
        invariant todo <= recipients && sofar == done + To(kind, target, recipients - todo)
      {
        var u :| u in todo;
        assert recipients - (todo - {u}) == recipients - todo + {u};
        OneMoreTo(done, kind, target, recipients - todo, u);
        Emit(before, sofar, tenant, now, Notice(u, kind, level, target, page));
        sofar := sofar + {NoticeId(kind, target, u)};
        todo := todo - {u};
      }
      assert recipients - todo == recipients;
    }

    method EvaluateOwner(ghost before: Rows, ghost done: set<NoticeId>, tenant: Id, now: int, id: Id, c: Cases.Case,
        managers: set<Id>)
      requires Emitted(before, rows, tenant, now, done)
      modifies this
      ensures Emitted(before, rows, tenant, now, done
        + To(CaseAssigned, id, if c.assignee.Some? then {c.assignee.value} else {})
        + To(CaseUnassigned, id, if c.assignee.None? && c.status in {Cases.New, Cases.Triaged} then managers else {}))
    {
      hide Emitted;
      if c.assignee.Some? {
        EmitEach(before, done, tenant, now, CaseAssigned, Info, id, CasesPage, {c.assignee.value});
      } else if c.status in {Cases.New, Cases.Triaged} {
        EmitEach(before, done, tenant, now, CaseUnassigned, Action, id, CasesPage, managers);
      }
      NothingTo(done, CaseAssigned, id);
      NothingTo(done + To(CaseAssigned, id, if c.assignee.Some? then {c.assignee.value} else {}), CaseUnassigned, id);
    }

    method EvaluateSla(ghost before: Rows, ghost done: set<NoticeId>, tenant: Id, now: int, id: Id, c: Cases.Case,
        owners: set<Id>)
      requires Emitted(before, rows, tenant, now, done) && Cases.Open(c.status)
      modifies this
      ensures Emitted(before, rows, tenant, now, done
        + To(SlaBreached, id, if Cases.SlaState(c.status, c.slaDue, now).Breached? then owners else {})
        + To(SlaDueSoon, id, if Cases.SlaState(c.status, c.slaDue, now).DueSoon? then owners else {}))
    {
      hide Emitted;
      if c.slaDue.Some? {
        if c.slaDue.value <= now {
          EmitEach(before, done, tenant, now, SlaBreached, Critical, id, CasesPage, owners);
        } else if c.slaDue.value <= now + 4 * Cases.HOUR {
          EmitEach(before, done, tenant, now, SlaDueSoon, Warning, id, CasesPage, owners);
        }
      }
      NothingTo(done, SlaBreached, id);
      NothingTo(done + To(SlaBreached, id, if Cases.SlaState(c.status, c.slaDue, now).Breached? then owners else {}),
          SlaDueSoon, id);
    }

    method EvaluateCritical(ghost before: Rows, ghost done: set<NoticeId>, tenant: Id, now: int, id: Id, c: Cases.Case,
        leads: set<Id>)
      requires Emitted(before, rows, tenant, now, done)
      modifies this
      ensures Emitted(before, rows, tenant, now, done
        + To(CaseCritical, id,
             if c.severity.Critical? then leads + (if c.assignee.Some? then {c.assignee.value} else {}) else {}))
    {
      hide Emitted;
      NothingTo(done, CaseCritical, id);
      if c.severity.Critical? {
        var critical := leads;
        if c.assignee.Some? { critical := critical + {c.assignee.value}; }
        assert critical == leads + if c.assignee.Some? then {c.assignee.value} else {};
        EmitEach(before, done, tenant, now, CaseCritical, Critical, id, CasesPage, critical);
      }
    }

    method EvaluateWaiting(ghost before: Rows, ghost done: set<NoticeId>, tenant: Id, now: int, id: Id, c: Cases.Case,
        owners: set<Id>)
      requires Emitted(before, rows, tenant, now, done)
      modifies this
      ensures Emitted(before, rows, tenant, now, done
        + To(CustomerWaiting, id,
             if c.status.AwaitingResponse? && c.updated + 2 * Cases.HOUR <= now then owners else {}))
    {
      hide Emitted;
      NothingTo(done, CustomerWaiting, id);
      if c.status.AwaitingResponse? && c.updated <= now - 2 * Cases.HOUR {
        EmitEach(before, done, tenant, now, CustomerWaiting, Warning, id, CasesPage, owners);
      }
    }

    /** The body of the loop over cases: four blocks of rules. */
    method EvaluateCase(ghost before: Rows, ghost done: set<NoticeId>, w: World, tenant: Id, now: int, id: Id)
      requires Emitted(before, rows, tenant, now, done) && id in OpenCases(w, tenant)
      modifies this
      ensures Emitted(before, rows, tenant, now, done + CaseDue(w, now, id))
    {
      hide Emitted, CaseDue, To, Holders, Managers, Cases.SlaState;
      var c := w.cases[id];
      var managers, leads := Managers(w, tenant), Holders(w, tenant, {CrisisLead});
      var owners := if c.assignee.Some? then {c.assignee.value} else managers;
      ghost var e := done;
      EvaluateOwner(before, e, tenant, now, id, c, managers);
      e := e + To(CaseAssigned, id, Recipients(w, now, CaseAssigned, c))
             + To(CaseUnassigned, id, Recipients(w, now, CaseUnassigned, c));
      EvaluateSla(before, e, tenant, now, id, c, owners);
      e := e + To(SlaBreached, id, Recipients(w, now, SlaBreached, c))
             + To(SlaDueSoon, id, Recipients(w, now, SlaDueSoon, c));
      EvaluateCritical(before, e, tenant, now, id, c, leads);
      e := e + To(CaseCritical, id, Recipients(w, now, CaseCritical, c));
      EvaluateWaiting(before, e, tenant, now, id, c, owners);
      e := e + To(CustomerWaiting, id, Recipients(w, now, CustomerWaiting, c));
      CaseDueParts(w, now, id);
      assert e == done + CaseDue(w, now, id);
    }

    /** One evaluation of a tenant: the number of new items, and the outbox with them.
        Cases, replies and recipients come in any order. */
    method EvaluateTenant(w: World, tenant: Id, now: int) returns (n: int)
      requires Outbox(rows) && NotBefore(now, rows)
      modifies this
      ensures Emitted(old(rows), rows, tenant, now, Due(w, tenant, now))
      ensures n == |Missing(old(rows), tenant, Due(w, tenant, now))|
    {
      hide Emitted, CaseDue, Outbox;
      var existing := Count(rows, tenant);
      ghost var before, done := rows, {};
      EmittedNothing(rows, tenant, now);
      var cases := OpenCases(w, tenant);
      while cases != {}
        invariant cases <= OpenCases(w, tenant)
        invariant Emitted(before, rows, tenant, now, done)
        invariant done == set c, x | c in OpenCases(w, tenant) - cases && x in CaseDue(w, now, c) :: x
      {
        var c :| c in cases;
        EvaluateCase(before, done, w, tenant, now, c);
        done := done + CaseDue(w, now, c);
        cases := cases - {c};
      }
      ghost var fromCases := done;
      assert OpenCases(w, tenant) - cases == OpenCases(w, tenant);
      var pending := PendingReplies(w, tenant);
      while pending != {}
        invariant pending <= PendingReplies(w, tenant)
        invariant Emitted(before, rows, tenant, now, done)
        invariant done == fromCases + set r, x | r in PendingReplies(w, tenant) - pending && x in ReplyDue(w, r) :: x
      {
        var r :| r in pending;
        EmitEach(before, done, tenant, now, DraftApproval, Action, r, WhatsAppPage, Approvers(w, w.replies[r]));
        done := done + ReplyDue(w, r);
        pending := pending - {r};
      }
      assert PendingReplies(w, tenant) - pending == PendingReplies(w, tenant);
      CountMissing(before, rows, tenant, now, done);
      n := Count(rows, tenant) - existing;
    }

    /** Evaluates, then lists the user's newest items and how many are unread. */
    method ListNotifications(w: World, tenant: Id, user: Id, now: int, limit: nat)
      returns (items: seq<Item>, unread: nat)
      requires Outbox(rows) && NotBefore(now, rows)
      modifies this
      ensures Emitted(old(rows), rows, tenant, now, Due(w, tenant, now))
      ensures items == Listing(rows, tenant, user, limit)
      ensures Lists(rows, tenant, user, limit, items)
      ensures unread == |UnreadOf(items)| && unread == Unread(items)
    {
      hide Emitted, Outbox, Due, Listing, TriggersFor, IsRead, Unread, Lists, UnreadOf;
      var _ := EvaluateTenant(w, tenant, now);
      EmittedMeans(old(rows), rows, tenant, now, Due(w, tenant, now));
      items := Listing(rows, tenant, user, limit);
      ghost var listed := rows;
      NoneUnread([]);
      unread := 0;
      for i := 0 to |items|
        invariant rows == listed && unread == Unread(items[..i])
      {
        UnreadNext(items, i);
        if !items[i].isRead { unread := unread + 1; }
      }
      assert items[..|items|] == items;
      ListingLists(rows, tenant, user, limit);
      UnreadCounts(items);
    }

    method MarkNotificationRead(tenant: Id, user: Id, id: NoticeId, now: int) returns (found: bool)
      modifies this
      ensures found == Addressed(old(rows), tenant, user, id)
      ensures rows ==
        if found && !IsRead(old(rows), tenant, user, id) then Append(old(rows), now, ReadRow(tenant, user, id))
        else old(rows)
    {
      if !Addressed(rows, tenant, user, id) { return false; }
      found := true;
      if !IsRead(rows, tenant, user, id) {
        rows := rows + [Stamped(NextId(rows), now, ReadRow(tenant, user, id))];
      }
    }

    /** Marks what is unread among the newest 200. */
    method MarkAllRead(w: World, tenant: Id, user: Id, now: int) returns (n: nat)
      requires Outbox(rows) && NotBefore(now, rows)
      modifies this
      ensures Outbox(rows) && NotBefore(now, rows)
      ensures forall id | id in Due(w, tenant, now) :: Exists(rows, tenant, id)
      ensures Unread(Listing(rows, tenant, user, 200)) == 0
      ensures exists listed: Rows ::
        && Emitted(old(rows), listed, tenant, now, Due(w, tenant, now))
        && listed <= rows && |rows| == |listed| + n && n == Unread(Listing(listed, tenant, user, 200))
        && ReadBy(rows, |listed|, tenant, user)
        && exists items ::
            Lists(listed, tenant, user, 200, items) && n == |UnreadOf(items)| && AllMarked(rows, tenant, user, items)
    {
      hide Emitted, Outbox, Due, IsRead, TriggersFor, Exists, Unread, OnlyReads, Listing, Addressed, NotBefore, Lists,
        UnreadOf, AllMarked;
      var items, unread := ListNotifications(w, tenant, user, now, 200);
      ghost var listed := rows;
      EmittedMeans(old(rows), listed, tenant, now, Due(w, tenant, now));
      ListedRead(listed, tenant, user, 200);
      n := 0;
      for i := 0 to |items|
        invariant OnlyReads(listed, rows) && NotBefore(now, rows)
        invariant |rows| == |listed| + n && n == Unread(items[..i]) && ReadBy(rows, |listed|, tenant, user)
        invariant forall k | 0 <= k < |items| :: IsRead(rows, tenant, user, items[k].id) <==> items[k].isRead || k < i
      {
        UnreadNext(items, i);
        if !items[i].isRead {
          ListedAddressed(listed, rows, tenant, user, 200, i);
          MarkReads(listed, rows, tenant, user, items[i].id, now);
          var _ := MarkNotificationRead(tenant, user, items[i].id, now);
          n := n + 1;
        }
      }
      assert items[..|items|] == items;
      MarksAll(rows, tenant, user, items);
      ReadsAll(listed, rows, tenant, user, 200);
      ReadsMean(listed, rows, tenant);
    }
  }

  lemma EmittedMeans(before: Rows, rows: Rows, tenant: Id, now: int, todo: set<NoticeId>)
    requires Emitted(before, rows, tenant, now, todo)
    ensures Outbox(rows) && NotBefore(now, rows) && OnlyReads(rows, rows)
    ensures forall id | id in todo :: Exists(rows, tenant, id)
  {
  }

  lemma ListedRead(rows: Rows, tenant: Id, user: Id, limit: nat)
    requires Outbox(rows)
    ensures var items := Listing(rows, tenant, user, limit);
      && (forall k | 0 <= k < |items| :: items[k].isRead <==> IsRead(rows, tenant, user, items[k].id))
      && (forall j, k | 0 <= j < k < |items| :: items[j].id != items[k].id)
    ensures Unread([]) == 0
  {
    TriggersDescend(rows, tenant, user);
    TriggersFilled(rows, tenant, user, limit);
    hide IsRead, Outbox, TriggersFor;
    var r, items := TriggersFor(rows, tenant, user), Listing(rows, tenant, user, limit);
    forall j, k | 0 <= j < k < |items| ensures items[j].id != items[k].id {
      assert Precedes(r[j], r[k]);
    }
  }

  predicate Precedes(a: Stamped<AuditRow>, b: Stamped<AuditRow>) { a.row.objectId != b.row.objectId && Later(a, b) }

  ghost predicate Descending(r: Rows) { forall j, k | 0 <= j < k < |r| :: Precedes(r[j], r[k]) }

  lemma DescendingMore(first: Stamped<AuditRow>, r: Rows)
    requires Descending(r) && forall k | 0 <= k < |r| :: Precedes(first, r[k])
    ensures Descending([first] + r)
  {
    hide Precedes;
  }

  lemma LastPrecedes(rows: Rows, tenant: Id, user: Id, i: nat)
    requires Outbox(rows) && i < |rows| - 1
    requires IsFor(rows[i].row, tenant, user) && IsFor(rows[|rows| - 1].row, tenant, user)
    ensures Precedes(rows[|rows| - 1], rows[i])
  {
  }

  /** The rows of a list are distinct and come newest first. */
  lemma {:induction false} TriggersDescend(rows: Rows, tenant: Id, user: Id)
    requires Outbox(rows)
    ensures Descending(TriggersFor(rows, tenant, user))
  {
    if rows != [] {
      var older := rows[..|rows| - 1];
      PrefixOutbox(rows);
      hide Outbox, IsFor, Precedes, Descending;
      TriggersDescend(older, tenant, user);
      var at := Positions(older, tenant, user);
      var last, r := rows[|rows| - 1], TriggersFor(older, tenant, user);
      if IsFor(last.row, tenant, user) {
        forall k | 0 <= k < |r| ensures Precedes(last, r[k]) {
          SameRule(rows[at[k]], tenant, user);
          LastPrecedes(rows, tenant, user, at[k]);
        }
        DescendingMore(last, r);
      }
    } else {
      assert Descending([]);
    }
  }

  lemma PrefixOutbox(rows: Rows)
    requires Outbox(rows) && rows != []
    ensures Outbox(rows[..|rows| - 1])
  {
  }

  ghost predicate ReadBy(rows: Rows, m: nat, tenant: Id, user: Id) {
    forall k | m <= k < |rows| ::
        rows[k].row.action == Read && rows[k].row.actor == Some(user) && rows[k].row.tenant == tenant
  }

  lemma UnreadNext(items: seq<Item>, i: nat)
    requires i < |items|
    ensures Unread(items[..i + 1]) == Unread(items[..i]) + if items[i].isRead then 0 else 1
  {
    assert items[..i + 1][..i] == items[..i];
  }

  lemma ReadsMean(listed: Rows, rows: Rows, tenant: Id)
    requires OnlyReads(listed, rows)
    ensures listed <= rows && Outbox(rows) && forall id | Exists(listed, tenant, id) :: Exists(rows, tenant, id)
  {
    hide Outbox, Exists;
    forall id | Exists(listed, tenant, id) ensures Exists(rows, tenant, id) { ExistsLonger(listed, rows, tenant, id); }
  }

  lemma EmittedNothing(rows: Rows, tenant: Id, now: int)
    requires Outbox(rows) && NotBefore(now, rows)
    ensures Emitted(rows, rows, tenant, now, {})
  {
  }

  lemma OneMoreTo(done: set<NoticeId>, kind: Kind, target: Id, told: set<Id>, u: Id)
    ensures done + To(kind, target, told) + {NoticeId(kind, target, u)} == done + To(kind, target, told + {u})
  {
  }

  lemma NothingTo(done: set<NoticeId>, kind: Kind, target: Id)
    ensures done + To(kind, target, {}) == done
  {
  }

  /** The rules, one after the other. */
  lemma CaseDueParts(w: World, now: int, id: Id)
    requires id in w.cases
    ensures var c := w.cases[id];
      CaseDue(w, now, id) ==
        To(CaseAssigned, id, Recipients(w, now, CaseAssigned, c))
        + To(CaseUnassigned, id, Recipients(w, now, CaseUnassigned, c))
        + To(SlaBreached, id, Recipients(w, now, SlaBreached, c))
        + To(SlaDueSoon, id, Recipients(w, now, SlaDueSoon, c))
        + To(CaseCritical, id, Recipients(w, now, CaseCritical, c))
        + To(CustomerWaiting, id, Recipients(w, now, CustomerWaiting, c))
  {
    hide Recipients;
  }

  // ---------- counting what was new ----------

  function Missing(before: Rows, tenant: Id, todo: set<NoticeId>): set<NoticeId> {
    set id | id in todo && !Exists(before, tenant, id)
  }

  function NewIds(rows: Rows, m: nat, n: nat): set<NoticeId>
    requires m <= n <= |rows|
  {
    set k | m <= k < n && rows[k].row.objectId.Some? :: rows[k].row.objectId.value
  }

  ghost predicate DistinctTriggers(rows: Rows, tenant: Id, m: nat) {
    && (forall k | m <= k < |rows| :: IsTrigger(rows[k].row, tenant) && rows[k].row.objectId.Some?)
    && (forall j, k | m <= j < k < |rows| :: rows[j].row.objectId != rows[k].row.objectId)
  }

  lemma {:induction false} CountUpTo(rows: Rows, tenant: Id, m: nat, n: nat)
    requires m <= n <= |rows| && DistinctTriggers(rows, tenant, m)
    ensures Count(rows[..n], tenant) == Count(rows[..m], tenant) + |NewIds(rows, m, n)|
  {
    if n == m {
      assert NewIds(rows, m, n) == {};
    } else {
      hide Count, NewIds, IsTrigger;
      assert IsTrigger(rows[n - 1].row, tenant);
      CountUpTo(rows, tenant, m, n - 1);
      CountNext(rows, tenant, n);
      NewIdsNext(rows, tenant, m, n);
    }
  }

  lemma CountNext(rows: Rows, tenant: Id, n: nat)
    requires 0 < n <= |rows| && IsTrigger(rows[n - 1].row, tenant)
    ensures Count(rows[..n], tenant) == Count(rows[..n - 1], tenant) + 1
  {
    assert rows[..n][..n - 1] == rows[..n - 1];
  }

  lemma NewIdsNext(rows: Rows, tenant: Id, m: nat, n: nat)
    requires m < n <= |rows| && DistinctTriggers(rows, tenant, m)
    ensures |NewIds(rows, m, n)| == |NewIds(rows, m, n - 1)| + 1
  {
    var id := rows[n - 1].row.objectId.value;
    assert NewIds(rows, m, n) == NewIds(rows, m, n - 1) + {id};
    assert id !in NewIds(rows, m, n - 1);
  }

  lemma EmittedDistinct(before: Rows, rows: Rows, tenant: Id, now: int, todo: set<NoticeId>)
    requires Emitted(before, rows, tenant, now, todo)
    ensures DistinctTriggers(rows, tenant, |before|)
  {
    hide Exists, NoticeOf, Ordered;
  }

  lemma CountMissing(before: Rows, rows: Rows, tenant: Id, now: int, todo: set<NoticeId>)
    requires Emitted(before, rows, tenant, now, todo)
    ensures Count(rows, tenant) - Count(before, tenant) == |Missing(before, tenant, todo)|
  {
    hide Ordered, NoticeOf;
    EmittedDistinct(before, rows, tenant, now, todo);
    CountUpTo(rows, tenant, |before|, |rows|);
    assert rows[..|rows|] == rows && rows[..|before|] == before;
    var added := NewIds(rows, |before|, |rows|);
    forall id ensures id in added <==> id in Missing(before, tenant, todo) {
      if id in Missing(before, tenant, todo) { ExistsAdded(before, rows, tenant, id); }
    }
    assert added == Missing(before, tenant, todo);
  }

  lemma ExistsAdded(before: Rows, rows: Rows, tenant: Id, id: NoticeId)
    requires before <= rows && Exists(rows, tenant, id) && !Exists(before, tenant, id)
    ensures id in NewIds(rows, |before|, |rows|)
  {
    var k :| 0 <= k < |rows| && IsTrigger(rows[k].row, tenant) && rows[k].row.objectType == Notification
        && rows[k].row.objectId == Some(id);
    assert forall j | 0 <= j < |before| :: before[j] == rows[j];
  }

  // ---------- the list and the read marks ----------

  datatype Item = Item(id: NoticeId, at: int, isRead: bool, notice: Notice)

  predicate IsRead(rows: Rows, tenant: Id, user: Id, id: NoticeId) {
    exists k | 0 <= k < |rows| ::
      var r := rows[k].row;
      r.tenant == tenant && r.objectType == Notification && r.objectId == Some(id) && r.action == Read
          && r.actor == Some(user)
  }

  predicate IsFor(r: AuditRow, tenant: Id, user: Id) {
    IsTrigger(r, tenant) && r.after.Some? && r.after.value.recipient == user
  }

  /** A trigger row for this user with this identifier. */
  predicate Addressed(rows: Rows, tenant: Id, user: Id, id: NoticeId) {
    exists k | 0 <= k < |rows| :: IsFor(rows[k].row, tenant, user) && rows[k].row.objectId == Some(id)
  }

  /** The user's trigger rows, newest first. */
  function TriggersFor(rows: Rows, tenant: Id, user: Id): Rows {
    if rows == [] then []
    else
      var last, older := rows[|rows| - 1], TriggersFor(rows[..|rows| - 1], tenant, user);
      if IsFor(last.row, tenant, user) then [last] + older else older
  }

  /** A trigger row of the tenant for this user. */
  predicate Mine(r: Stamped<AuditRow>, tenant: Id, user: Id) {
    r.row.tenant == tenant && r.row.action == Trigger && r.row.after.Some? && r.row.after.value.recipient == user
  }

  /** All of the user's rows, in descending order. */
  ghost predicate AllOf(rows: Rows, tenant: Id, user: Id, at: seq<nat>) {
    && (forall j | 0 <= j < |at| :: at[j] < |rows| && Mine(rows[at[j]], tenant, user))
    && (forall i, j | 0 <= i < j < |at| :: at[j] < at[i])
    && Complete(rows, tenant, user, at)
  }

  ghost predicate Complete(rows: Rows, tenant: Id, user: Id, at: seq<nat>) {
    forall k | 0 <= k < |rows| && Mine(rows[k], tenant, user) :: k in at
  }

  lemma CompleteMore(rows: Rows, tenant: Id, user: Id, at: seq<nat>, all: seq<nat>)
    requires rows != [] && Complete(rows[..|rows| - 1], tenant, user, at)
    requires forall k | k in at :: k in all
    requires Mine(rows[|rows| - 1], tenant, user) ==> |rows| - 1 in all
    ensures Complete(rows, tenant, user, all)
  {
    hide Mine;
    forall k | 0 <= k < |rows| && Mine(rows[k], tenant, user) ensures k in all {
      if k < |rows| - 1 { assert rows[..|rows| - 1][k] == rows[k]; }
    }
  }

  lemma AllOfMore(rows: Rows, tenant: Id, user: Id, at: seq<nat>)
    requires rows != [] && AllOf(rows[..|rows| - 1], tenant, user, at)
    ensures AllOf(rows, tenant, user, if Mine(rows[|rows| - 1], tenant, user) then [|rows| - 1] + at else at)
  {
    hide Mine, Complete;
    var n := |rows| - 1;
    if Mine(rows[n], tenant, user) {
      Front(n, at);
      CompleteMore(rows, tenant, user, at, [n] + at);
    } else {
      CompleteMore(rows, tenant, user, at, at);
    }
  }

  lemma Front(n: nat, at: seq<nat>)
    ensures n in [n] + at && forall k | k in at :: k in [n] + at
  {
    assert ([n] + at)[0] == n;
  }

  /** The rows at these positions. */
  ghost predicate RowsAt(rows: Rows, at: seq<nat>, found: Rows) {
    |found| == |at| && forall j | 0 <= j < |at| :: at[j] < |rows| && found[j] == rows[at[j]]
  }

  lemma RowsAtMore(rows: Rows, at: seq<nat>, found: Rows)
    requires rows != [] && RowsAt(rows[..|rows| - 1], at, found)
    ensures RowsAt(rows, at, found)
    ensures RowsAt(rows, [|rows| - 1] + at, [rows[|rows| - 1]] + found)
  {
  }

  lemma TriggersNext(rows: Rows, tenant: Id, user: Id)
    requires rows != []
    ensures TriggersFor(rows, tenant, user) ==
      if Mine(rows[|rows| - 1], tenant, user) then [rows[|rows| - 1]] + TriggersFor(rows[..|rows| - 1], tenant, user)
      else TriggersFor(rows[..|rows| - 1], tenant, user)
  {
    SameRule(rows[|rows| - 1], tenant, user);
  }

  lemma {:induction false} Positions(rows: Rows, tenant: Id, user: Id) returns (at: seq<nat>)
    ensures AllOf(rows, tenant, user, at) && RowsAt(rows, at, TriggersFor(rows, tenant, user))
  {
    if rows == [] {
      at := [];
    } else {
      hide *;
      var n := |rows| - 1;
      at := Positions(rows[..n], tenant, user);
      AllOfMore(rows, tenant, user, at);
      RowsAtMore(rows, at, TriggersFor(rows[..n], tenant, user));
      TriggersNext(rows, tenant, user);
      if Mine(rows[n], tenant, user) { at := [n] + at; }
    }
  }

  lemma SameRule(r: Stamped<AuditRow>, tenant: Id, user: Id)
    ensures IsFor(r.row, tenant, user) <==> Mine(r, tenant, user)
  {
  }

  predicate Filled(r: Rows) { forall k | 0 <= k < |r| :: r[k].row.objectId.Some? && r[k].row.after.Some? }

  function First(r: Rows, n: nat): Rows { if |r| <= n then r else r[..n] }

  /** Trigger rows are complete. */
  lemma TriggersFilled(rows: Rows, tenant: Id, user: Id, limit: nat)
    requires Outbox(rows)
    ensures Filled(First(TriggersFor(rows, tenant, user), limit))
  {
    var at := Positions(rows, tenant, user);
    hide TriggersFor, Complete, Ordered;
    assert Filled(TriggersFor(rows, tenant, user));
  }

  function Items(found: Rows, rows: Rows, tenant: Id, user: Id): (items: seq<Item>)
    requires Filled(found)
    ensures |items| == |found|
  {
    seq(|found|, k requires 0 <= k < |found| =>
      Item(found[k].row.objectId.value, found[k].at, IsRead(rows, tenant, user, found[k].row.objectId.value),
          found[k].row.after.value))
  }

  function Listing(rows: Rows, tenant: Id, user: Id, limit: nat): seq<Item>
    requires Outbox(rows)
  {
    TriggersFilled(rows, tenant, user, limit);
    Items(First(TriggersFor(rows, tenant, user), limit), rows, tenant, user)
  }

  function Unread(items: seq<Item>): nat {
    if items == [] then 0
    else Unread(items[..|items| - 1]) + if items[|items| - 1].isRead then 0 else 1
  }

  /** The user has marked the item: some row says so. */
  predicate Marked(rows: Rows, tenant: Id, user: Id, id: NoticeId) {
    exists k | 0 <= k < |rows| ::
      && rows[k].row.tenant == tenant && rows[k].row.action == Read && rows[k].row.objectType == Notification
      && rows[k].row.objectId == Some(id) && rows[k].row.actor == Some(user)
  }

  /** The item shows what the row says. */
  predicate Shows(i: Item, r: Stamped<AuditRow>) {
    r.row.objectId == Some(i.id) && r.at == i.at && r.row.after == Some(i.notice)
  }

  /** Position by position the rows `at`, from the newest to the oldest, all of them the
      user's; and none of the user's rows is missing but those older than `limit` others. */
  ghost predicate NewestOf(rows: Rows, tenant: Id, user: Id, limit: nat, at: seq<nat>) {
    && |at| <= limit
    && (forall j | 0 <= j < |at| :: at[j] < |rows| && Mine(rows[at[j]], tenant, user))
    && (forall i, j | 0 <= i < j < |at| :: at[j] < at[i])
    && (forall k | 0 <= k < |rows| && Mine(rows[k], tenant, user) ::
          k in at || (|at| == limit && forall j | 0 <= j < |at| :: k < at[j]))
  }

  /** The items are the user's newest ones, up to the limit, with their read marks. */
  ghost predicate Lists(rows: Rows, tenant: Id, user: Id, limit: nat, items: seq<Item>) {
    exists at: seq<nat> :: NewestOf(rows, tenant, user, limit, at) && ItemsAt(rows, tenant, user, items, at)
  }

  ghost predicate ItemsAt(rows: Rows, tenant: Id, user: Id, items: seq<Item>, at: seq<nat>) {
    && |items| == |at|
    && forall j | 0 <= j < |items| ::
        at[j] < |rows| && Shows(items[j], rows[at[j]])
        && (items[j].isRead <==> Marked(rows, tenant, user, items[j].id))
  }

  lemma NewestAre(rows: Rows, tenant: Id, user: Id, limit: nat, all: seq<nat>)
    requires AllOf(rows, tenant, user, all)
    ensures NewestOf(rows, tenant, user, limit, if |all| <= limit then all else all[..limit])
  {
    hide Mine;
    if |all| > limit {
      var at := all[..limit];
      forall k | 0 <= k < |rows| && Mine(rows[k], tenant, user)
        ensures k in at || (|at| == limit && forall j | 0 <= j < |at| :: k < at[j])
      {
        var m :| 0 <= m < |all| && all[m] == k;
        if m < limit { assert at[m] == k; }
      }
    }
  }

  lemma RowsAtFirst(rows: Rows, all: seq<nat>, found: Rows, n: nat)
    requires RowsAt(rows, all, found)
    ensures RowsAt(rows, if |all| <= n then all else all[..n], First(found, n))
  {
  }

  /** Items made of those rows show them. */
  lemma ItemsShow(found: Rows, rows: Rows, tenant: Id, user: Id, at: seq<nat>)
    requires Filled(found) && RowsAt(rows, at, found)
    ensures ItemsAt(rows, tenant, user, Items(found, rows, tenant, user), at)
  {
    hide IsRead, Marked;
    var items := Items(found, rows, tenant, user);
    forall j | 0 <= j < |items|
      ensures Shows(items[j], rows[at[j]]) && (items[j].isRead <==> Marked(rows, tenant, user, items[j].id))
    {
      SameMark(rows, tenant, user, items[j].id);
    }
  }

  /** The list leaves out none of the user's items but the oldest beyond the limit. */
  lemma ListingLists(rows: Rows, tenant: Id, user: Id, limit: nat)
    requires Outbox(rows)
    ensures Lists(rows, tenant, user, limit, Listing(rows, tenant, user, limit))
  {
    var all := Positions(rows, tenant, user);
    NewestAre(rows, tenant, user, limit, all);
    TriggersFilled(rows, tenant, user, limit);
    var at := if |all| <= limit then all else all[..limit];
    RowsAtFirst(rows, all, TriggersFor(rows, tenant, user), limit);
    ItemsShow(First(TriggersFor(rows, tenant, user), limit), rows, tenant, user, at);
    hide AllOf, RowsAt, TriggersFor, NewestOf, Outbox, Items, ItemsAt, First;
  }

  ghost predicate AllMarked(rows: Rows, tenant: Id, user: Id, items: seq<Item>) {
    forall k | 0 <= k < |items| :: Marked(rows, tenant, user, items[k].id)
  }

  lemma MarksAll(rows: Rows, tenant: Id, user: Id, items: seq<Item>)
    requires forall k | 0 <= k < |items| :: IsRead(rows, tenant, user, items[k].id)
    ensures AllMarked(rows, tenant, user, items)
  {
    hide IsRead, Marked;
    forall k | 0 <= k < |items| ensures Marked(rows, tenant, user, items[k].id) {
      SameMark(rows, tenant, user, items[k].id);
    }
  }

  lemma SameMark(rows: Rows, tenant: Id, user: Id, id: NoticeId)
    ensures IsRead(rows, tenant, user, id) <==> Marked(rows, tenant, user, id)
  {
  }

  /** How many items nobody marked. */
  lemma {:induction false} UnreadCounts(items: seq<Item>)
    ensures Unread(items) == |UnreadOf(items)|
  {
    if items == [] {
      assert UnreadOf(items) == {};
    } else {
      var n := |items| - 1;
      UnreadCounts(items[..n]);
      UnreadOfNext(items);
    }
  }

  lemma UnreadOfNext(items: seq<Item>)
    requires items != []
    ensures var n := |items| - 1; |UnreadOf(items)| == |UnreadOf(items[..n])| + if items[n].isRead then 0 else 1
  {
    var n := |items| - 1;
    assert UnreadOf(items) == UnreadOf(items[..n]) + if items[n].isRead then {} else {n};
  }

  function UnreadOf(items: seq<Item>): set<nat> { set k: nat | k < |items| && !items[k].isRead }

  /** Nothing was added since but read marks. */
  ghost predicate OnlyReads(listed: Rows, rows: Rows) {
    && Outbox(listed) && Outbox(rows) && listed <= rows
    && forall k | |listed| <= k < |rows| :: rows[k].row.action == Read
  }

  lemma {:induction false} SameTriggers(listed: Rows, rows: Rows, tenant: Id, user: Id)
    requires listed <= rows && forall k | |listed| <= k < |rows| :: rows[k].row.action == Read
    ensures TriggersFor(rows, tenant, user) == TriggersFor(listed, tenant, user)
    decreases |rows|
  {
    if |rows| > |listed| { SameTriggers(listed, rows[..|rows| - 1], tenant, user); } else { assert rows == listed; }
  }

  lemma ListedAddressed(listed: Rows, rows: Rows, tenant: Id, user: Id, limit: nat, i: nat)
    requires OnlyReads(listed, rows) && i < |Listing(listed, tenant, user, limit)|
    ensures Addressed(rows, tenant, user, Listing(listed, tenant, user, limit)[i].id)
  {
    hide Ordered;
    TriggersFilled(listed, tenant, user, limit);
    var at := Positions(listed, tenant, user);
    hide Complete, TriggersFor;
    assert rows[at[i]] == TriggersFor(listed, tenant, user)[i];
  }

  lemma MarkReads(listed: Rows, rows: Rows, tenant: Id, user: Id, id: NoticeId, now: int)
    requires OnlyReads(listed, rows) && NotBefore(now, rows)
    ensures var all := Append(rows, now, ReadRow(tenant, user, id));
      && OnlyReads(listed, all) && NotBefore(now, all)
      && IsRead(all, tenant, user, id)
      && forall x :: IsRead(all, tenant, user, x) <==> IsRead(rows, tenant, user, x) || x == id
  {
    hide Ordered, IsRead;
    var row := ReadRow(tenant, user, id);
    var all := Append(rows, now, row);
    AppendOrdered(rows, now, row);
    forall x ensures IsRead(all, tenant, user, x) <==> IsRead(rows, tenant, user, x) || x == id {
      MarkIsRead(rows, tenant, user, id, now, x);
    }
  }

  lemma MarkIsRead(rows: Rows, tenant: Id, user: Id, id: NoticeId, now: int, x: NoticeId)
    ensures IsRead(Append(rows, now, ReadRow(tenant, user, id)), tenant, user, x) <==>
        IsRead(rows, tenant, user, x) || x == id
  {
    var all := Append(rows, now, ReadRow(tenant, user, id));
    assert all[|rows|].row == ReadRow(tenant, user, id);
    if IsRead(rows, tenant, user, x) {
      var k :| 0 <= k < |rows| && var r := rows[k].row;
        r.tenant == tenant && r.objectType == Notification && r.objectId == Some(x) && r.action == Read
            && r.actor == Some(user);
      assert all[k] == rows[k];
    }
  }

  lemma {:induction false} NoneUnread(items: seq<Item>)
    requires forall k | 0 <= k < |items| :: items[k].isRead
    ensures Unread(items) == 0
  {
    if items == [] {
    } else {
      NoneUnread(items[..|items| - 1]);
    }
  }

  lemma ReadsAll(listed: Rows, rows: Rows, tenant: Id, user: Id, limit: nat)
    requires OnlyReads(listed, rows)
    requires var items := Listing(listed, tenant, user, limit);
      forall k | 0 <= k < |items| :: IsRead(rows, tenant, user, items[k].id)
    ensures Unread(Listing(rows, tenant, user, limit)) == 0
  {
    hide Outbox, IsRead, TriggersFor;
    SameTriggers(listed, rows, tenant, user);
    var items, again := Listing(listed, tenant, user, limit), Listing(rows, tenant, user, limit);
    forall k | 0 <= k < |again| ensures again[k].isRead { assert again[k].id == items[k].id; }
    NoneUnread(again);
  }

  lemma EmitOne(before: Rows, rows: Rows, tenant: Id, now: int, done: set<NoticeId>, n: Notice)
    requires Emitted(before, rows, tenant, now, done) && n == NoticeOf(IdOf(n)) && !Exists(rows, tenant, IdOf(n))
    ensures Emitted(before, Append(rows, now, TriggerRow(tenant, n)), tenant, now, done + {IdOf(n)})
  {
    hide Ordered, NoticeOf, Later;
    var row := TriggerRow(tenant, n);
    var all := Append(rows, now, row);
    AppendOrdered(rows, now, row);
    forall id ensures Exists(all, tenant, id) <==> Exists(rows, tenant, id) || id == IdOf(n) {
      ExistsAppend(rows, now, row, tenant, id);
    }
    if Exists(before, tenant, IdOf(n)) { ExistsLonger(before, rows, tenant, IdOf(n)); }
  }

  lemma ExistsLonger(before: Rows, rows: Rows, tenant: Id, id: NoticeId)
    requires before <= rows && Exists(before, tenant, id)
    ensures Exists(rows, tenant, id)
  {
    var k :| 0 <= k < |before| && IsTrigger(before[k].row, tenant) && before[k].row.objectType == Notification
        && before[k].row.objectId == Some(id);
    assert rows[k] == before[k];
  }

  lemma ExistsAppend(rows: Rows, now: int, row: AuditRow, tenant: Id, id: NoticeId)
    ensures Exists(Append(rows, now, row), tenant, id) <==>
      Exists(rows, tenant, id) || (IsTrigger(row, tenant) && row.objectType == Notification && row.objectId == Some(id))
  {
    var all := Append(rows, now, row);
    assert all[|rows|].row == row;
    if Exists(rows, tenant, id) {
      var k :| 0 <= k < |rows| && IsTrigger(rows[k].row, tenant) && rows[k].row.objectType == Notification
          && rows[k].row.objectId == Some(id);
      assert all[k] == rows[k];
    }
  }

  // ---------- what an evaluation amounts to ----------

  /** The triggered identifiers are the old ones and the due ones, and no other tenant's change. */
  lemma TriggeredAre(before: Rows, rows: Rows, tenant: Id, now: int, todo: set<NoticeId>, other: Id, id: NoticeId)
    requires Emitted(before, rows, tenant, now, todo)
    ensures Exists(rows, other, id) <==> Exists(before, other, id) || (other == tenant && id in todo)
  {
    hide Outbox, NoticeOf;
    if Exists(before, other, id) {
      ExistsLonger(before, rows, other, id);
    } else if Exists(rows, other, id) {
      ExistsAdded(before, rows, other, id);
    }
  }

  lemma AddedOne(rows: Rows, later: Rows, tenant: Id, now: int, todo: set<NoticeId>, k: nat)
    requires Emitted(rows, later, tenant, now, todo) && |rows| <= k < |later|
    ensures exists id :: id in todo && !Exists(rows, tenant, id)
  {
    hide Outbox, Exists, NoticeOf;
    assert later[k].row.objectId.value in todo;
  }

  lemma EmittedLonger(rows: Rows, later: Rows, tenant: Id, now: int, todo: set<NoticeId>)
    requires Emitted(rows, later, tenant, now, todo)
    ensures rows <= later
  {
  }

  /** Evaluating again at the same instant emits nothing, in whatever order it goes. */
  lemma AgainNothing(before: Rows, rows: Rows, later: Rows, tenant: Id, now: int, todo: set<NoticeId>)
    requires Emitted(before, rows, tenant, now, todo) && Emitted(rows, later, tenant, now, todo)
    ensures later == rows && Missing(rows, tenant, todo) == {}
  {
    hide Emitted, Exists;
    EmittedMeans(before, rows, tenant, now, todo);
    if |later| > |rows| { AddedOne(rows, later, tenant, now, todo, |rows|); }
    EmittedLonger(rows, later, tenant, now, todo);
  }

  /** After marking all, a list at the same instant of at most 200 items has none unread. */
  lemma AllReadStays(rows: Rows, later: Rows, w: World, tenant: Id, user: Id, now: int, limit: nat)
    requires Outbox(rows) && forall id | id in Due(w, tenant, now) :: Exists(rows, tenant, id)
    requires Unread(Listing(rows, tenant, user, 200)) == 0 && limit <= 200
    requires Emitted(rows, later, tenant, now, Due(w, tenant, now))
    ensures later == rows && Unread(Listing(later, tenant, user, limit)) == 0
  {
    hide Outbox, Emitted, Exists, Due, TriggersFor;
    if |later| > |rows| { AddedOne(rows, later, tenant, now, Due(w, tenant, now), |rows|); }
    EmittedLonger(rows, later, tenant, now, Due(w, tenant, now));
    var most, least := Listing(rows, tenant, user, 200), Listing(rows, tenant, user, limit);
    assert least == most[..|least|];
    UnreadPrefix(most, |least|);
  }

  lemma {:induction false} UnreadPrefix(items: seq<Item>, n: nat)
    requires n <= |items|
    ensures Unread(items[..n]) <= Unread(items)
  {
    if n < |items| {
      UnreadPrefix(items[..|items| - 1], n);
      assert items[..|items| - 1][..n] == items[..n];
    } else {
      assert items[..n] == items;
    }
  }

  predicate Employs(w: World, tenant: Id, u: Id, role: Role) {
    u in w.users && w.users[u].tenant == tenant && w.users[u].active && role in w.users[u].roles
  }

  /** The assignee, or any officer or head of department while there is none. */
  predicate Concerns(w: World, c: Cases.Case, u: Id) {
    || c.assignee == Some(u)
    || (c.assignee.None? && (Employs(w, c.tenant, u, CommsOfficer) || Employs(w, c.tenant, u, DeptHead)))
  }

  predicate Unfinished(c: Cases.Case) {
    c.status in {Cases.New, Cases.Triaged, Cases.Assigned, Cases.AwaitingResponse, Cases.Responded}
  }

  /** How urgent each kind is shown, and which page it leads to. */
  lemma LevelsAre(n: NoticeId)
    ensures var x := NoticeOf(n);
      && x.recipient == n.recipient && x.kind == n.kind && x.target == n.target
      && (x.level == Critical <==> n.kind in {SlaBreached, CaseCritical})
      && (x.level == Warning <==> n.kind in {SlaDueSoon, CustomerWaiting})
      && (x.level == Action <==> n.kind in {CaseUnassigned, DraftApproval})
      && (x.level == Info <==> n.kind == CaseAssigned)
      && (x.page == WhatsAppPage <==> n.kind == DraftApproval)
  {
  }

  /** The rule of each kind, for an open case. */
  predicate Rule(w: World, now: int, kind: Kind, c: Cases.Case, u: Id) {
    match kind
    case CaseAssigned => c.assignee == Some(u)
    case CaseUnassigned => c.assignee.None? && c.status in {Cases.New, Cases.Triaged} && Concerns(w, c, u)
    case SlaBreached => c.slaDue.Some? && c.slaDue.value <= now && Concerns(w, c, u)
    case SlaDueSoon => c.slaDue.Some? && now < c.slaDue.value <= now + 14400 && Concerns(w, c, u)
    case CaseCritical => c.severity.Critical? && (c.assignee == Some(u) || Employs(w, c.tenant, u, CrisisLead))
    case CustomerWaiting => c.status.AwaitingResponse? && c.updated + 7200 <= now && Concerns(w, c, u)
    case DraftApproval => false
  }

  /** The rules in one place, on users, cases and replies. */
  predicate MustHear(w: World, tenant: Id, now: int, n: NoticeId) {
    if n.kind == DraftApproval then
      && n.target in w.replies && w.replies[n.target].tenant == tenant
      && w.replies[n.target].status == Replies.PendingApproval && Employs(w, tenant, n.recipient, DeptHead)
      && w.replies[n.target].createdBy != Some(n.recipient) && w.replies[n.target].editedBy != Some(n.recipient)
    else
      && n.target in w.cases && w.cases[n.target].tenant == tenant
      && Unfinished(w.cases[n.target])
      && Rule(w, now, n.kind, w.cases[n.target], n.recipient)
  }

  /** What is due is exactly what the rules demand. */
  lemma DueIff(w: World, tenant: Id, now: int, n: NoticeId)
    ensures n in Due(w, tenant, now) <==> MustHear(w, tenant, now, n)
  {
    if n.kind == DraftApproval {
      if n.target in w.replies { ApproverIff(w, n.target, n.recipient); }
      assert n in Due(w, tenant, now) <==> n.target in PendingReplies(w, tenant) && n in ReplyDue(w, n.target);
    } else {
      hide Rule, Recipients;
      if n.target in w.cases && Unfinished(w.cases[n.target]) {
        RecipientIff(w, now, n.kind, w.cases[n.target], n.recipient);
      }
      if n.target in w.cases { CaseDueIff(w, now, n); }
      assert n in Due(w, tenant, now) <==> n.target in OpenCases(w, tenant) && n in CaseDue(w, now, n.target);
    }
  }

  lemma ApproverIff(w: World, id: Id, u: Id)
    requires id in w.replies
    ensures var r := w.replies[id];
      NoticeId(DraftApproval, id, u) in ReplyDue(w, id) <==>
        Employs(w, r.tenant, u, DeptHead) && r.createdBy != Some(u) && r.editedBy != Some(u)
  {
    HolderIff(w, w.replies[id].tenant, u, {DeptHead});
  }

  lemma HolderIff(w: World, tenant: Id, u: Id, roles: set<Role>)
    ensures u in Holders(w, tenant, roles) <==> exists r | r in roles :: Employs(w, tenant, u, r)
  {
    if u in Holders(w, tenant, roles) {
      var r :| r in w.users[u].roles * roles;
      assert Employs(w, tenant, u, r);
    }
    if r :| r in roles && Employs(w, tenant, u, r) { assert r in w.users[u].roles * roles; }
  }

  lemma ManagerIff(w: World, tenant: Id, u: Id)
    ensures u in Managers(w, tenant) <==> Employs(w, tenant, u, CommsOfficer) || Employs(w, tenant, u, DeptHead)
    ensures u in Holders(w, tenant, {CrisisLead}) <==> Employs(w, tenant, u, CrisisLead)
  {
    HolderIff(w, tenant, u, {CommsOfficer, DeptHead});
    HolderIff(w, tenant, u, {CrisisLead});
    hide Holders;
  }

  lemma RecipientIff(w: World, now: int, kind: Kind, c: Cases.Case, u: Id)
    requires Unfinished(c)
    ensures u in Recipients(w, now, kind, c) <==> Rule(w, now, kind, c, u)
  {
    ManagerIff(w, c.tenant, u);
    hide Managers, Holders, Employs;
  }

  lemma CaseDueIff(w: World, now: int, n: NoticeId)
    requires n.target in w.cases && n.kind != DraftApproval
    ensures n in CaseDue(w, now, n.target) <==> n.recipient in Recipients(w, now, n.kind, w.cases[n.target])
  {
    hide Recipients;
    assert n.kind in CASE_KINDS;
  }

  /** With the life cycle of cases: an open case always concerns somebody, its assignee
      or, as long as there is one, every manager. */
  lemma NobodyForgotten(w: World, tenant: Id, now: int, id: Id)
    requires id in OpenCases(w, tenant) && Cases.WellFormed(w.cases[id])
    ensures forall u | u in Owners(w, w.cases[id]) ::
      exists k | k in {CaseAssigned, CaseUnassigned} :: NoticeId(k, id, u) in Due(w, tenant, now)
  {
    var c := w.cases[id];
    forall u | u in Owners(w, c)
      ensures exists k | k in {CaseAssigned, CaseUnassigned} :: NoticeId(k, id, u) in Due(w, tenant, now)
    {
      var k := if c.assignee.Some? then CaseAssigned else CaseUnassigned;
      assert u in Recipients(w, now, k, c);
      assert NoticeId(k, id, u) in CaseDue(w, now, id);
      assert NoticeId(k, id, u) in Due(w, tenant, now);
    }
  }

  /** Nobody is asked to approve a reply they made or edited, so whoever is asked may approve it. */
  lemma AskedMayApprove(w: World, tenant: Id, now: int, id: Id, u: Id, sending: Replies.Sending)
    requires NoticeId(DraftApproval, id, u) in Due(w, tenant, now)
    requires id in w.replies && w.replies[id].message.Some? && Replies.PassesChecks(w.replies[id])
    ensures var d := Replies.Desk(w.replies, [], []);
      sending.Sent? ==> Replies.ApproveReply(d, now, id, tenant, u, sending).1 == Replies.Ref(sending.ref)
  {
    assert id in PendingReplies(w, tenant) && NoticeId(DraftApproval, id, u) in ReplyDue(w, id);
  }
}
