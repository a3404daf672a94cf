/** Cases: the row each case has now, and the audit rows it can be replayed from. */
module Cases {
  import opened Text
  import opened Ledger

  datatype Status = New | Triaged | Assigned | AwaitingResponse | Responded | Resolved | Closed | Rejected

  datatype Severity = Low | Medium | High | Critical

  datatype Case = Case(tenant: Id, status: Status, severity: Severity, assignee: Option<Id>, slaDue: Option<int>,
                       firstResponse: Option<int>, resolved: Option<int>, updated: int)

  /** STATUS_TRANSITIONS. */
  function Transitions(s: Status): set<Status> {
    match s
    case New => {Triaged, Assigned, Rejected}
    case Triaged => {Assigned, Rejected}
    case Assigned => {AwaitingResponse, Responded, Resolved}
    case AwaitingResponse => {Assigned, Responded, Resolved}
    case Responded => {AwaitingResponse, Resolved}
    case Resolved => {Assigned, Closed}
    case Closed => {}
    case Rejected => {}
  }

  /** The edges of the life cycle. */
  const EDGES := {(New, Triaged), (New, Assigned), (New, Rejected), (Triaged, Assigned), (Triaged, Rejected),
                  (Assigned, AwaitingResponse), (Assigned, Responded), (Assigned, Resolved),
                  (AwaitingResponse, Assigned), (AwaitingResponse, Responded), (AwaitingResponse, Resolved),
                  (Responded, AwaitingResponse), (Responded, Resolved), (Resolved, Assigned), (Resolved, Closed)}

  lemma EdgesAre(s: Status, t: Status)
    ensures t in Transitions(s) <==> (s, t) in EDGES
  {
  }

  predicate Open(s: Status) { s in {New, Triaged, Assigned, AwaitingResponse, Responded} }

  /** What an audit row says of a case, before or after: only some of the fields. */
  datatype Facts = Facts(status: Option<Status>, assignee: Option<Option<Id>>, severity: Option<Severity>)

  const NO_FACTS := Facts(None, None, None)

  type AuditRow = Row<Id, Facts>
  type Rows = seq<Stamped<AuditRow>>

  /** Where a new case goes: the taxonomy node's time limit, None when it has none. */
  datatype Routing = Routing(slaHours: Option<nat>)

  const HOUR := 3600

  /** `if sla_hours`: a limit of zero counts as none. */
  function Due(now: int, routing: Option<Routing>): Option<int> {
    if routing.Some? && routing.value.slaHours.Some? && routing.value.slaHours.value != 0
    then Some(now + routing.value.slaHours.value * HOUR) else None
  }

  datatype Outcome = Done | Created(id: Id) | NotFound | Invalid

  /** What ties a message to the case it opened. */
  datatype Complaint = Complaint(message: Id, caseId: Id)

  datatype Tables = Tables(cases: map<Id, Case>, complaints: seq<Complaint>, rows: Rows)

  const EMPTY_TABLES := Tables(map[], [], [])

  /** The case of the first complaint with this message. */
  function CaseOf(complaints: seq<Complaint>, message: Id): (r: Option<Id>)
    ensures r.Some? ==> Complaint(message, r.value) in complaints
    ensures r.None? ==> forall k | 0 <= k < |complaints| :: complaints[k].message != message
  {
    if complaints == [] then None
    else if complaints[0].message == message then Some(complaints[0].caseId)
    else CaseOf(complaints[1..], message)
  }

  /** At most one complaint per message and per case. */
  ghost predicate OneEach(complaints: seq<Complaint>) {
    forall j, k | 0 <= j < k < |complaints| ::
      complaints[j].message != complaints[k].message && complaints[j].caseId != complaints[k].caseId
  }

  /** `node` is None when no taxonomy node was asked for, Some(None) when it is unavailable. */
  datatype Request =
    | Create(node: Option<Option<Routing>>, severity: Severity, newId: Id)
    | Update(id: Id, newSeverity: Option<Severity>)
    | Assign(id: Id, assignee: Id, active: bool)
    | Transition(id: Id, next: Status)
    | Note(id: Id)
    | Escalate(id: Id)

  datatype Step =
    | Ask(now: int, tenant: Id, actor: Id, request: Request)
    | FromMessage(now: int, tenant: Id, message: Id, urgent: bool, routing: Option<Routing>, newId: Id)
    | Elsewhere(now: int, row: AuditRow)

  predicate Known(t: Tables, tenant: Id, id: Id) { id in t.cases && t.cases[id].tenant == tenant }

  function CaseRow(tenant: Id, actor: Option<Id>, action: Action, id: Id, before: Option<Facts>,
      after: Facts): AuditRow {
    Row(tenant, actor, action, CaseObject, Some(id), before, Some(after))
  }

  function Opened(tenant: Id, severity: Severity, due: Option<int>, now: int): Case {
    Case(tenant, New, severity, None, due, None, None, now)
  }

  function AfterAssign(c: Case, assignee: Id, now: int): Case {
    var status := if c.status in {New, Triaged, Resolved} then Assigned else c.status;
    c.(assignee := Some(assignee), status := status,
       resolved := if status == Assigned then None else c.resolved, updated := now)
  }

  function AfterTransition(c: Case, next: Status, now: int): Case {
    c.(status := next,
       firstResponse := if next == Responded && c.firstResponse.None? then Some(now) else c.firstResponse,
       resolved :=
         if next in {Resolved, Closed} then (if c.resolved.None? then Some(now) else c.resolved)
         else if next == Assigned then None else c.resolved,
       updated := now)
  }

  /** What a case looks like after the request, and the facts it records. */
  function Effect(t: Tables, now: int, tenant: Id, actor: Id, r: Request): (Tables, Outcome) {
    if r.Create? then
      if r.node == Some(None) then (t, Invalid)
      else
        var routing := if r.node.None? then None else r.node.value;
        var row := CaseRow(tenant, Some(actor), CaseCreate, r.newId, None, Facts(Some(New), None, Some(r.severity)));
        (Tables(t.cases[r.newId := Opened(tenant, r.severity, Due(now, routing), now)], t.complaints,
                Append(t.rows, now, row)),
         Created(r.newId))
    else if r.Assign? && !r.active then (t, Invalid)
    else if !Known(t, tenant, r.id) then (t, NotFound)
    else
      var c := t.cases[r.id];
      match r
      case Update(id, newSeverity) =>
        var severity := if newSeverity.Some? then newSeverity.value else c.severity;
        (Changed(t, now, tenant, actor, CaseUpdate, id, c.(severity := severity, updated := now),
                 Some(Facts(None, None, Some(c.severity))), Facts(None, None, Some(severity))), Done)
      case Assign(id, assignee, _) =>
        var d := AfterAssign(c, assignee, now);
        (Changed(t, now, tenant, actor, CaseAssign, id, d,
                 Some(Facts(Some(c.status), Some(c.assignee), None)),
                 Facts(Some(d.status), Some(Some(assignee)), None)), Done)
      case Transition(id, next) =>
        if next !in Transitions(c.status) then (t, Invalid)
        else if next in {Assigned, AwaitingResponse, Responded, Resolved} && c.assignee.None? then (t, Invalid)
        else (Changed(t, now, tenant, actor, CaseStatus, id, AfterTransition(c, next, now),
                      Some(Facts(Some(c.status), None, None)), Facts(Some(next), None, None)), Done)
      case Note(id) =>
        (Changed(t, now, tenant, actor, CaseNote, id, c.(updated := now), None, NO_FACTS), Done)
      case Escalate(id) =>
        (Changed(t, now, tenant, actor, CaseEscalate, id, c.(severity := Critical, updated := now),
                 None, Facts(None, None, Some(Critical))), Done)
  }

  function Changed(t: Tables, now: int, tenant: Id, actor: Id, action: Action, id: Id, c: Case, before: Option<Facts>,
      after: Facts): Tables {
    t.(cases := t.cases[id := c], rows := Append(t.rows, now, CaseRow(tenant, Some(actor), action, id, before, after)))
  }

  /** A message opens at most one case, and its audit row leaves the status out. */
  function Opening(t: Tables, now: int, tenant: Id, message: Id, urgent: bool, routing: Option<Routing>,
      newId: Id): (Tables, Id) {
    var existing := CaseOf(t.complaints, message);
    if existing.Some? then (t, existing.value)
    else
      var severity := if urgent then High else Medium;
      var row := CaseRow(tenant, None, CaseCreateFromMessage, newId, None, Facts(None, None, Some(severity)));
      (Tables(t.cases[newId := Opened(tenant, severity, Due(now, routing), now)],
              t.complaints + [Complaint(message, newId)], Append(t.rows, now, row)),
       newId)
  }

  function Next(t: Tables, s: Step): Tables {
    match s
    case Ask(now, tenant, actor, r) => Effect(t, now, tenant, actor, r).0
    case FromMessage(now, tenant, message, urgent, routing, newId) =>
        Opening(t, now, tenant, message, urgent, routing, newId).0
    case Elsewhere(now, row) => t.(rows := Append(t.rows, now, row))
  }

  // ---------- the service ----------

  /** What may be asked of a case: an edge, and an assignee for the states that need one. */
  predicate MayMove(c: Case, next: Status) {
    (c.status, next) in EDGES && (next in {Assigned, AwaitingResponse, Responded, Resolved} ==> c.assignee.Some?)
  }

  /** One row more, about this case and by this actor. */
  predicate Logged(before: Rows, after: Rows, now: int, tenant: Id, actor: Option<Id>, action: Action, id: Id) {
    && |after| == |before| + 1 && after[..|before|] == before
    && var r := after[|before|];
    && r.at == now && r.row.tenant == tenant && r.row.actor == actor && r.row.action == action
    && r.row.objectType == CaseObject && r.row.objectId == Some(id)
  }

  /** No other case is touched. */
  predicate Only(before: map<Id, Case>, after: map<Id, Case>, id: Id) {
    && after.Keys == before.Keys + {id}
    && forall i | i in before && i != id :: i in after && after[i] == before[i]
  }

  class CaseDesk {
    var cases: map<Id, Case>
    var complaints: seq<Complaint>
    var rows: Rows

    function State(): Tables
      reads this
    {
      Tables(cases, complaints, rows)
    }

    constructor ()
      ensures State() == EMPTY_TABLES
    {
      cases, complaints, rows := map[], [], [];
    }

    method WriteAudit(now: int, row: AuditRow)
      modifies this`rows
      ensures rows == Append(old(rows), now, row)
    {
      rows := rows + [Stamped(NextId(rows), now, row)];
    }

    method CreateCase(now: int, tenant: Id, actor: Id, node: Option<Option<Routing>>, severity: Severity, newId: Id)
      returns (out: Outcome)
      modifies this
      ensures (State(), out) == Effect(old(State()), now, tenant, actor, Create(node, severity, newId))
      ensures out == Invalid <==> node == Some(None)
      ensures out == Invalid ==> State() == old(State())
      ensures out != Invalid ==>
        && out == Created(newId) && Only(old(cases), cases, newId) && complaints == old(complaints)
        && Logged(old(rows), rows, now, tenant, Some(actor), CaseCreate, newId)
        && cases[newId] == Case(tenant, New, severity, None, cases[newId].slaDue, None, None, now)
        && cases[newId].slaDue == match node {
             case Some(Some(Routing(Some(hours)))) => if hours > 0 then Some(now + 3600 * hours) else None
             case _ => None }
    {
      var routing: Option<Routing> := None;
      if node.Some? {
        if node.value.None? { return Invalid; }
        routing := node.value;
      }
      cases := cases[newId := Opened(tenant, severity, Due(now, routing), now)];
      WriteAudit(now, CaseRow(tenant, Some(actor), CaseCreate, newId, None, Facts(Some(New), None, Some(severity))));
      out := Created(newId);
    }

    method UpdateCase(now: int, tenant: Id, actor: Id, id: Id, newSeverity: Option<Severity>) returns (out: Outcome)
      modifies this
      ensures (State(), out) == Effect(old(State()), now, tenant, actor, Update(id, newSeverity))
      ensures out == NotFound <==> id !in old(cases) || old(cases)[id].tenant != tenant
      ensures out != Done ==> State() == old(State())
      ensures out == Done ==>
        && Only(old(cases), cases, id) && Logged(old(rows), rows, now, tenant, Some(actor), CaseUpdate, id)
        && var c := old(cases)[id];
        cases[id] == c.(severity := if newSeverity.Some? then newSeverity.value else c.severity, updated := now)
    {
      if id !in cases || cases[id].tenant != tenant { return NotFound; }
      var row := cases[id];
      var severity := if newSeverity.Some? then newSeverity.value else row.severity;
      cases := cases[id := row.(severity := severity, updated := now)];
      WriteAudit(now, CaseRow(tenant, Some(actor), CaseUpdate, id, Some(Facts(None, None, Some(row.severity))),
          Facts(None, None, Some(severity))));
      out := Done;
    }

    method AssignCase(now: int, tenant: Id, actor: Id, id: Id, assignee: Id, active: bool) returns (out: Outcome)
      modifies this
      ensures (State(), out) == Effect(old(State()), now, tenant, actor, Assign(id, assignee, active))
      ensures out == Invalid <==> !active
      ensures out == NotFound <==> active && (id !in old(cases) || old(cases)[id].tenant != tenant)
      ensures out != Done ==> State() == old(State())
      ensures out == Done ==>
        && Only(old(cases), cases, id) && Logged(old(rows), rows, now, tenant, Some(actor), CaseAssign, id)
        && var c := old(cases)[id];
        && cases[id] == c.(assignee := Some(assignee), status := cases[id].status, resolved := cases[id].resolved,
                           updated := now)
        && cases[id].status == (if c.status in {New, Triaged, Resolved} then Assigned else c.status)
        && cases[id].resolved == (if cases[id].status == Assigned then None else c.resolved)
    {
      if !active { return Invalid; }
      if id !in cases || cases[id].tenant != tenant { return NotFound; }
      var row := cases[id];
      var status := row.status;
      if status == New || status == Triaged || status == Resolved { status := Assigned; }
      cases := cases[id := row.(assignee := Some(assignee), status := status,
                                resolved := if status == Assigned then None else row.resolved, updated := now)];
      WriteAudit(now, CaseRow(tenant, Some(actor), CaseAssign, id,
                              Some(Facts(Some(row.status), Some(row.assignee), None)),
                              Facts(Some(status), Some(Some(assignee)), None)));
      out := Done;
    }

    method TransitionCase(now: int, tenant: Id, actor: Id, id: Id, next: Status) returns (out: Outcome)
      modifies this
      ensures (State(), out) == Effect(old(State()), now, tenant, actor, Transition(id, next))
      ensures out == Done <==>
        id in old(cases) && old(cases)[id].tenant == tenant && MayMove(old(cases)[id], next)
      ensures out == NotFound <==> id !in old(cases) || old(cases)[id].tenant != tenant
      ensures out != Done ==> State() == old(State())
      ensures out == Done ==>
        && Only(old(cases), cases, id) && Logged(old(rows), rows, now, tenant, Some(actor), CaseStatus, id)
        && var c := old(cases)[id];
        && cases[id] == c.(status := next, firstResponse := cases[id].firstResponse, resolved := cases[id].resolved,
                           updated := now)
        && cases[id].firstResponse ==
             (if next == Responded && c.firstResponse.None? then Some(now) else c.firstResponse)
        && cases[id].resolved ==
             (if next == Assigned then None
              else if next in {Resolved, Closed} && c.resolved.None? then Some(now) else c.resolved)
    {
      if id !in cases || cases[id].tenant != tenant { return NotFound; }
      var row := cases[id];
      EdgesAre(row.status, next);
      if next !in Transitions(row.status) { return Invalid; }
      if next in {Assigned, AwaitingResponse, Responded, Resolved} && row.assignee.None? { return Invalid; }
      cases := cases[id := AfterTransition(row, next, now)];
      WriteAudit(now, CaseRow(tenant, Some(actor), CaseStatus, id, Some(Facts(Some(row.status), None, None)),
          Facts(Some(next), None, None)));
      out := Done;
    }

    /** Here the audit row comes first. */
    method AddCaseNote(now: int, tenant: Id, actor: Id, id: Id) returns (out: Outcome)
      modifies this
      ensures (State(), out) == Effect(old(State()), now, tenant, actor, Note(id))
      ensures out == NotFound <==> id !in old(cases) || old(cases)[id].tenant != tenant
      ensures out != Done ==> State() == old(State())
      ensures out == Done ==>
        && Only(old(cases), cases, id) && Logged(old(rows), rows, now, tenant, Some(actor), CaseNote, id)
        && cases[id] == old(cases)[id].(updated := now)
    {
      if id !in cases || cases[id].tenant != tenant { return NotFound; }
      WriteAudit(now, CaseRow(tenant, Some(actor), CaseNote, id, None, NO_FACTS));
      cases := cases[id := cases[id].(updated := now)];
      out := Done;
    }

    method EscalateCase(now: int, tenant: Id, actor: Id, id: Id) returns (out: Outcome)
      modifies this
      ensures (State(), out) == Effect(old(State()), now, tenant, actor, Escalate(id))
      ensures out == NotFound <==> id !in old(cases) || old(cases)[id].tenant != tenant
      ensures out != Done ==> State() == old(State())
      ensures out == Done ==>
        && Only(old(cases), cases, id) && Logged(old(rows), rows, now, tenant, Some(actor), CaseEscalate, id)
        && cases[id] == old(cases)[id].(severity := Critical, updated := now)
    {
      if id !in cases || cases[id].tenant != tenant { return NotFound; }
      cases := cases[id := cases[id].(severity := Critical, updated := now)];
      WriteAudit(now, CaseRow(tenant, Some(actor), CaseEscalate, id, None, Facts(None, None, Some(Critical))));
      out := Done;
    }

    method CreateCaseFromMessage(now: int, tenant: Id, message: Id, urgent: bool, routing: Option<Routing>, newId: Id)
      returns (id: Id)
      modifies this
      ensures (State(), id) == Opening(old(State()), now, tenant, message, urgent, routing, newId)
      ensures Complaint(message, id) in complaints
      ensures (exists k | 0 <= k < |old(complaints)| :: old(complaints)[k].message == message) ==>
        State() == old(State())
      ensures (forall k | 0 <= k < |old(complaints)| :: old(complaints)[k].message != message) ==>
        && id == newId && complaints == old(complaints) + [Complaint(message, newId)]
        && Only(old(cases), cases, newId)
        && Logged(old(rows), rows, now, tenant, None, CaseCreateFromMessage, newId)
        && cases[newId] ==
             Case(tenant, New, if urgent then High else Medium, None, cases[newId].slaDue, None, None, now)
        && cases[newId].slaDue == match routing {
             case Some(Routing(Some(hours))) => if hours > 0 then Some(now + 3600 * hours) else None
             case _ => None }
    {
      var existing := CaseOf(complaints, message);
      if existing.Some? { return existing.value; }
      var severity := if urgent then High else Medium;
      cases := cases[newId := Opened(tenant, severity, Due(now, routing), now)];
      complaints := complaints + [Complaint(message, newId)];
      WriteAudit(now, CaseRow(tenant, None, CaseCreateFromMessage, newId, None, Facts(None, None, Some(severity))));
      id := newId;
    }
  }

  // ---------- replaying the history ----------

  datatype Snapshot = Snapshot(status: Status, assignee: Option<Id>, severity: Severity)

  function Now(c: Case): Snapshot { Snapshot(c.status, c.assignee, c.severity) }

  function Overlay(s: Snapshot, f: Facts): Snapshot {
    Snapshot(if f.status.Some? then f.status.value else s.status,
             if f.assignee.Some? then f.assignee.value else s.assignee,
             if f.severity.Some? then f.severity.value else s.severity)
  }

  predicate Agrees(f: Facts, s: Snapshot) { Overlay(s, f) == s }

  predicate Own(r: AuditRow, tenant: Id, id: Id) {
    r.tenant == tenant && r.objectType == CaseObject && r.objectId == Some(id)
  }

  /** The case as its own rows tell it: a case begins new and unassigned. */
  function Replay(rows: Rows, tenant: Id, id: Id): Snapshot {
    if rows == [] then Snapshot(New, None, Medium)
    else
      var last, before := rows[|rows| - 1].row, Replay(rows[..|rows| - 1], tenant, id);
      if Own(last, tenant, id) && last.after.Some? then Overlay(before, last.after.value) else before
  }

  predicate FollowsEdge(s: Status, t: Status) { s == t || t in Transitions(s) }

  /** Row k, read together with the rows before it. */
  predicate HistoryOk(rows: Rows, k: nat)
    requires k < |rows|
  {
    var r := rows[k].row;
    r.objectType == CaseObject && r.objectId.Some? ==>
      var s := Replay(rows[..k], r.tenant, r.objectId.value);
      && (r.before.Some? ==> Agrees(r.before.value, s))
      && (r.after.Some? ==> FollowsEdge(s.status, Overlay(s, r.after.value).status))
  }

  ghost predicate HistoriesOk(rows: Rows) { forall k | 0 <= k < |rows| :: HistoryOk(rows, k) }

  // ---------- the invariant ----------

  /** The life cycle of one case. */
  predicate WellFormed(c: Case) {
    && (c.resolved.Some? <==> c.status in {Resolved, Closed})
    && (c.status in {Assigned, AwaitingResponse, Responded, Resolved, Closed} ==> c.assignee.Some?)
    && (c.status in {New, Triaged} ==> c.assignee.None?)
    && (c.status == Responded ==> c.firstResponse.Some?)
  }

  ghost predicate Inv(t: Tables) {
    && Ordered(t.rows)
    && HistoriesOk(t.rows)
    && (forall id | id in t.cases ::
        WellFormed(t.cases[id]) && Replay(t.rows, t.cases[id].tenant, id) == Now(t.cases[id]))
    && (forall k | 0 <= k < |t.rows| :: t.rows[k].row.objectType == CaseObject ==>
          t.rows[k].row.objectId.Some? && Known(t, t.rows[k].row.tenant, t.rows[k].row.objectId.value))
    && OneEach(t.complaints)
    && (forall k | 0 <= k < |t.complaints| :: t.complaints[k].caseId in t.cases)
  }

  /** The clock does not go back, new identifiers are new, and only this component
      writes rows about cases. */
  predicate Enabled(t: Tables, s: Step) {
    && NotBefore(s.now, t.rows)
    && (s.Ask? && s.request.Create? ==> s.request.newId !in t.cases)
    && (s.FromMessage? ==> s.newId !in t.cases)
    && (s.Elsewhere? ==> s.row.objectType != CaseObject)
  }

  lemma ReplayAppend(rows: Rows, now: int, row: AuditRow, tenant: Id, id: Id)
    ensures Replay(Append(rows, now, row), tenant, id) ==
      if Own(row, tenant, id) && row.after.Some? then Overlay(Replay(rows, tenant, id), row.after.value)
      else Replay(rows, tenant, id)
  {
    assert Append(rows, now, row)[..|rows|] == rows;
  }

  lemma {:induction false} ReplayUnknown(rows: Rows, tenant: Id, id: Id)
    requires forall k | 0 <= k < |rows| :: rows[k].row.objectType == CaseObject ==> rows[k].row.objectId != Some(id)
    ensures Replay(rows, tenant, id) == Snapshot(New, None, Medium)
  {
    if rows == [] {
    } else {
      ReplayUnknown(rows[..|rows| - 1], tenant, id);
    }
  }

  lemma HistoriesAppend(rows: Rows, now: int, row: AuditRow)
    requires HistoriesOk(rows)
    requires row.objectType == CaseObject && row.objectId.Some? ==>
      var s := Replay(rows, row.tenant, row.objectId.value);
      && (row.before.Some? ==> Agrees(row.before.value, s))
      && (row.after.Some? ==> FollowsEdge(s.status, Overlay(s, row.after.value).status))
    ensures HistoriesOk(Append(rows, now, row))
  {
    hide Replay, Agrees, FollowsEdge, Overlay;
    var all := Append(rows, now, row);
    assert all[..|rows|] == rows;
    forall k | 0 <= k < |all| ensures HistoryOk(all, k) {
      if k < |rows| {
        assert all[..k] == rows[..k] && HistoryOk(rows, k);
      }
    }
  }

  /** A request that changes one case and records it keeps the invariant, when the
      row tells the change and the change keeps the life cycle. */
  lemma ChangeKeeps(t: Tables, u: Tables, now: int, row: AuditRow, id: Id, c: Case)
    requires Inv(t) && NotBefore(now, t.rows)
    requires u.cases == t.cases[id := c] && u.rows == Append(t.rows, now, row)
    requires OneEach(u.complaints) && forall k | 0 <= k < |u.complaints| :: u.complaints[k].caseId in u.cases
    requires Own(row, c.tenant, id) && row.after.Some?
    requires id in t.cases ==> t.cases[id].tenant == c.tenant
    requires WellFormed(c)
    requires var s := if id in t.cases then Now(t.cases[id]) else Snapshot(New, None, Medium);
      && Now(c) == Overlay(s, row.after.value)
      && FollowsEdge(s.status, c.status)
      && (row.before.Some? ==> Agrees(row.before.value, s))
    ensures Inv(u)
  {
    hide Replay, Ordered, HistoriesOk, WellFormed, FollowsEdge, Agrees, Overlay;
    AppendOrdered(t.rows, now, row);
    if id !in t.cases { ReplayUnknown(t.rows, c.tenant, id); }
    HistoriesAppend(t.rows, now, row);
    forall i | i in u.cases ensures WellFormed(u.cases[i]) && Replay(u.rows, u.cases[i].tenant, i) == Now(u.cases[i]) {
      ReplayAppend(t.rows, now, row, u.cases[i].tenant, i);
    }
  }

  lemma ElsewhereKeeps(t: Tables, now: int, row: AuditRow)
    requires Inv(t) && NotBefore(now, t.rows) && row.objectType != CaseObject
    ensures Inv(t.(rows := Append(t.rows, now, row)))
  {
    hide Replay, Ordered, HistoriesOk, WellFormed, FollowsEdge, Agrees, Overlay;
    AppendOrdered(t.rows, now, row);
    HistoriesAppend(t.rows, now, row);
    forall i | i in t.cases ensures Replay(Append(t.rows, now, row), t.cases[i].tenant, i) == Now(t.cases[i]) {
      ReplayAppend(t.rows, now, row, t.cases[i].tenant, i);
    }
  }

  lemma RequestKeeps(t: Tables, now: int, tenant: Id, actor: Id, r: Request)
    requires Inv(t) && Enabled(t, Ask(now, tenant, actor, r))
    ensures Inv(Effect(t, now, tenant, actor, r).0)
  {
    hide Inv, Append, Ordered, HistoriesOk, Replay;
    InvCase(t);
    var u := Effect(t, now, tenant, actor, r).0;
    if u != t {
      if r.Create? {
        var after := Facts(Some(New), None, Some(r.severity));
        ChangeKeeps(t, u, now, CaseRow(tenant, Some(actor), CaseCreate, r.newId, None, after), r.newId,
            u.cases[r.newId]);
      } else {
        var c, d := t.cases[r.id], u.cases[r.id];
        match r
        case Update(id, _) =>
          var before, after := Facts(None, None, Some(c.severity)), Facts(None, None, Some(d.severity));
          ChangeKeeps(t, u, now, CaseRow(tenant, Some(actor), CaseUpdate, id, Some(before), after), id, d);
        case Assign(id, assignee, _) =>
          var before, after := Facts(Some(c.status), Some(c.assignee), None),
              Facts(Some(d.status), Some(Some(assignee)), None);
          ChangeKeeps(t, u, now, CaseRow(tenant, Some(actor), CaseAssign, id, Some(before), after), id, d);
        case Transition(id, next) =>
          var before, after := Facts(Some(c.status), None, None), Facts(Some(next), None, None);
          ChangeKeeps(t, u, now, CaseRow(tenant, Some(actor), CaseStatus, id, Some(before), after), id, d);
        case Note(id) =>
          ChangeKeeps(t, u, now, CaseRow(tenant, Some(actor), CaseNote, id, None, NO_FACTS), id, d);
        case Escalate(id) =>
          ChangeKeeps(t, u, now, CaseRow(tenant, Some(actor), CaseEscalate, id, None,
              Facts(None, None, Some(Critical))), id, d);
      }
    }
  }

  lemma InvCase(t: Tables)
    requires Inv(t)
    ensures forall id | id in t.cases :: WellFormed(t.cases[id])
    ensures OneEach(t.complaints) && forall k | 0 <= k < |t.complaints| :: t.complaints[k].caseId in t.cases
  {
  }

  lemma StepKeeps(t: Tables, s: Step)
    requires Inv(t) && Enabled(t, s)
    ensures Inv(Next(t, s))
  {
    hide Inv, Append, Ordered, HistoriesOk, Replay;
    InvCase(t);
    match s
    case Ask(now, tenant, actor, r) => RequestKeeps(t, now, tenant, actor, r);
    case Elsewhere(now, row) => ElsewhereKeeps(t, now, row);
    case FromMessage(now, tenant, message, urgent, routing, newId) =>
      var u := Next(t, s);
      if u != t {
        var severity := if urgent then High else Medium;
        ChangeKeeps(t, u, now, CaseRow(tenant, None, CaseCreateFromMessage, newId, None,
            Facts(None, None, Some(severity))), newId, u.cases[newId]);
      }
  }

  // ---------- all runs ----------

  ghost predicate Run(t: Tables, steps: seq<Step>)
    decreases |steps|
  {
    steps == [] || (Enabled(t, steps[0]) && Run(Next(t, steps[0]), steps[1..]))
  }

  function After(t: Tables, steps: seq<Step>): Tables
    decreases |steps|
  {
    if steps == [] then t else After(Next(t, steps[0]), steps[1..])
  }

  lemma {:induction false} RunKeeps(t: Tables, steps: seq<Step>)
    requires Inv(t) && Run(t, steps)
    ensures Inv(After(t, steps))
    decreases |steps|
  {
    hide Inv, Next, Enabled;
    if steps == [] {
    } else {
      StepKeeps(t, steps[0]);
      RunKeeps(Next(t, steps[0]), steps[1..]);
    }
  }

  lemma EmptyInv()
    ensures Inv(EMPTY_TABLES)
  {
  }

  /** Event sourcing: at any time, the rows of a case alone give its status, assignee
      and severity; each row's before-state agrees with the rows before it, and each
      recorded change of status is in the transition table. */
  lemma HistoryTellsCase(steps: seq<Step>, id: Id)
    requires Run(EMPTY_TABLES, steps)
    ensures var t := After(EMPTY_TABLES, steps);
      && HistoriesOk(t.rows)
      && (id in t.cases ==> Replay(t.rows, t.cases[id].tenant, id) == Now(t.cases[id]))
  {
    RunKeeps(EMPTY_TABLES, steps);
  }

  /** The life cycle holds of every case at any time. */
  lemma LifeCycle(steps: seq<Step>, id: Id)
    requires Run(EMPTY_TABLES, steps) && id in After(EMPTY_TABLES, steps).cases
    ensures WellFormed(After(EMPTY_TABLES, steps).cases[id])
  {
    hide *;
    EmptyInv();
    RunKeeps(EMPTY_TABLES, steps);
    InvCase(After(EMPTY_TABLES, steps));
  }

  /** What one step may do to a case that exists. */
  predicate Moves(c: Case, d: Case, now: int) {
    && d.tenant == c.tenant && d.slaDue == c.slaDue
    && FollowsEdge(c.status, d.status)
    && (c.firstResponse.Some? ==> d.firstResponse == c.firstResponse)
    && (d.firstResponse != c.firstResponse ==> c.status != Responded == d.status && d.firstResponse == Some(now))
    && (d.resolved != c.resolved ==>
          || (c.status != Resolved == d.status && d.resolved == Some(now))
          || (c.status == Resolved && d.status == Assigned && d.resolved.None?))
    && (c.assignee.Some? ==> d.assignee.Some?)
    && (d != c ==> d.updated == now)
  }

  lemma StepMoves(t: Tables, s: Step, id: Id)
    requires Inv(t) && Enabled(t, s) && id in t.cases
    ensures id in Next(t, s).cases && Moves(t.cases[id], Next(t, s).cases[id], s.now)
  {
    hide Inv, Append;
    InvCase(t);
    if s.Ask? { RequestMoves(t, s.now, s.tenant, s.actor, s.request, id); }
  }

  lemma RequestMoves(t: Tables, now: int, tenant: Id, actor: Id, r: Request, id: Id)
    requires (forall i | i in t.cases :: WellFormed(t.cases[i])) && id in t.cases && (r.Create? ==> r.newId !in t.cases)
    ensures var u := Effect(t, now, tenant, actor, r).0; id in u.cases && Moves(t.cases[id], u.cases[id], now)
  {
    hide Append;
    if r.Create? || r.id != id { OthersUntouched(t, now, tenant, actor, r, id); }
  }

  /** A closed or rejected case keeps its status, a first response its time, and a
      closed case the time it was resolved, whatever happens next. */
  lemma {:induction false} Forever(t: Tables, steps: seq<Step>, id: Id)
    requires Inv(t) && Run(t, steps) && id in t.cases
    ensures var u := After(t, steps);
      && id in u.cases
      && var c, d := t.cases[id], u.cases[id];
      && d.tenant == c.tenant && d.slaDue == c.slaDue
      && (c.status in {Closed, Rejected} ==> d.status == c.status && d.resolved == c.resolved)
      && (c.firstResponse.Some? ==> d.firstResponse == c.firstResponse)
      && (c.status != New ==> d.status != New)
    decreases |steps|
  {
    hide Inv, Next, Enabled;
    if steps == [] {
    } else {
      StepKeeps(t, steps[0]);
      StepMoves(t, steps[0], id);
      Forever(Next(t, steps[0]), steps[1..], id);
    }
  }

  /** Another tenant's request, or one about another case, leaves a case alone. */
  lemma OthersUntouched(t: Tables, now: int, tenant: Id, actor: Id, r: Request, id: Id)
    requires id in t.cases && (r.Create? ==> r.newId !in t.cases)
    requires t.cases[id].tenant != tenant || r.Create? || r.id != id
    ensures var u := Effect(t, now, tenant, actor, r).0; id in u.cases && u.cases[id] == t.cases[id]
  {
    hide Append;
  }

  // ---------- the service level ----------

  datatype Sla = Completed | NotSet | Breached | DueSoon | OnTrack

  function SlaState(status: Status, due: Option<int>, now: int): Sla {
    if !Open(status) then Completed
    else if due.None? then NotSet
    else if due.value <= now then Breached
    else if due.value <= now + 4 * HOUR then DueSoon
    else OnTrack
  }

  function Urgency(s: Sla): nat {
    match s
    case Breached => 2
    case DueSoon => 1
    case _ => 0
  }

  /** While a case stays open its urgency only grows, and finishing it is the one way to end a breach. */
  lemma BreachLasts(t: Tables, steps: seq<Step>, id: Id, now: int, later: int)
    requires Inv(t) && Run(t, steps) && id in t.cases && now <= later
    requires id in After(t, steps).cases && Open(After(t, steps).cases[id].status)
    ensures var c, d := t.cases[id], After(t, steps).cases[id];
      Urgency(SlaState(c.status, c.slaDue, now)) <= Urgency(SlaState(d.status, d.slaDue, later))
  {
    hide Inv, Run, After;
    Forever(t, steps, id);
  }
}
