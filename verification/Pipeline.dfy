/** Inbound messages: webhooks that may be replayed, and jobs that may be delivered
    again, with the reply mode changed in between. */
module Pipeline {
  import opened Text
  import opened Ledger
  import Cases
  import Normalization
  import Redaction
  import RedactionLimits
  import RedactionShapes
  import Regex
  import Replies

  /** The keyed hash of a sender's number, taken to be injective. */
  datatype Pseudonym = Pseudonym(of: string)

  datatype Message = Message(externalId: string, at: int, author: Pseudonym, text: string, content: string)

  /** A webhook's message. `stamp` is its timestamp, None when it does not parse. */
  datatype Inbound = Inbound(externalId: string, sender: string, stamp: Option<int>, text: string)

  /** What is sent to a citizen on receipt. */
  datatype Ack = Ack(message: Id, recipient: string)

  datatype Mode = Off | Draft | Acknowledge

  /** Redaction and search normalisation, as the other modules model them. */
  datatype Rules = Rules(redact: string -> string, normalize: string -> string, space: char -> bool)

  /** The tables, and the acknowledgements that left. `linked` is the case column of
      the replies. */
  datatype Tables = Tables(messages: map<Id, Message>, vault: map<Pseudonym, string>,
                           desk: Replies.Desk, linked: map<Id, Id>, work: Cases.Tables, acks: seq<Ack>)

  const EMPTY_TABLES := Tables(map[], map[], Replies.EMPTY_DESK, map[], Cases.EMPTY_TABLES, [])

  // ---------- ingestion ----------

  const FIVE_MINUTES := 300

  /** The time a message claims: that of its delivery when the timestamp does not parse. */
  function OccurredAt(now: int, stamp: Option<int>): int { if stamp.Some? then stamp.value else now }

  /** A time more than five minutes ahead is replaced by the time of delivery. */
  function Arrival(now: int, at: int): int { if at > now + FIVE_MINUTES then now else at }

  function Stored(c: Rules, now: int, m: Inbound): Message {
    var redacted := c.redact(m.text);
    Message(m.externalId, Arrival(now, OccurredAt(now, m.stamp)), Pseudonym(m.sender), redacted, c.normalize(redacted))
  }

  predicate SameExternal(p: Tables, m: Inbound) {
    exists id | id in p.messages :: p.messages[id].externalId == m.externalId
  }

  /** The unique key on content and time. */
  predicate SameContent(p: Tables, n: Message) {
    exists id | id in p.messages :: p.messages[id].content == n.content && p.messages[id].at == n.at
  }

  datatype Receipt = Ignored | SourceMissing | Duplicate | New(id: Id)

  function Ingest(c: Rules, p: Tables, now: int, sourceEnabled: bool, m: Inbound, newId: Id): (Tables, Receipt) {
    if m.text == "" then (p, Ignored)
    else if !sourceEnabled then (p, SourceMissing)
    else if SameExternal(p, m) then (p, Duplicate)
    else
      var n := Stored(c, now, m);
      if SameContent(p, n) then (p, Duplicate)
      else
        (p.(messages := p.messages[newId := n],
            vault := if n.author in p.vault then p.vault else p.vault[n.author := m.sender]),
         New(newId))
  }

  // ---------- processing ----------

  predicate Answered(p: Tables, message: Id) {
    exists r | r in p.desk.replies :: p.desk.replies[r].message == Some(message)
  }

  /** What the job meets on its way: the reply mode of the day, what retrieval found,
      the routing, what the provider will answer. */
  datatype Circumstances = Circumstances(tenant: Id, mode: Mode, draft: string, injected: bool, top: Option<real>,
                                         gate: real, urgent: bool, routing: Option<Cases.Routing>,
                                         newReply: Id, newCase: Id, sending: Replies.Sending)

  datatype Result = NotFound | AlreadyAnswered | SendFailed | Processed

  function WorkerRow(tenant: Id, message: Id): Cases.AuditRow {
    Row(tenant, None, OtherAction, MessageObject, Some(message), None, None)
  }

  /** The reply a worker drafts for the message. */
  function Drafted(p: Tables, message: Id, x: Circumstances): Replies.Desk {
    Replies.Insert(p.desk, x.newReply,
      Replies.Generated(x.tenant, Some(message), x.draft, Replies.Judge(x.injected, false, x.top, x.gate), None))
  }

  /** One job. Nothing of it stays when the acknowledgement cannot be sent. */
  function Process(p: Tables, now: int, message: Id, x: Circumstances): (Tables, Result) {
    if message !in p.messages || p.messages[message].author !in p.vault then (p, NotFound)
    else if Answered(p, message) then (p, AlreadyAnswered)
    else if x.mode.Acknowledge? && x.sending.Failed? then (p, SendFailed)
    else
      var (begun, id) := Cases.Opening(p.work, now, x.tenant, message, x.urgent, x.routing, x.newCase);
      var work := begun.(rows := Append(begun.rows, now, WorkerRow(x.tenant, message)));
      var q := if x.mode.Off? then p else p.(desk := Drafted(p, message, x), linked := p.linked[x.newReply := id]);
      (q.(work := work,
          acks := if x.mode.Acknowledge? then p.acks + [Ack(message, p.vault[p.messages[message].author])] else p.acks),
       Processed)
  }

  /** The one reply a job adds: an anonymous draft in answer to the message, refused when
      the text looks injected or nothing supports an answer, and linked to a case. */
  predicate ReplyMade(p: Tables, q: Tables, message: Id, x: Circumstances) {
    && x.newReply in q.desk.replies && x.newReply in q.linked
    && q.desk.sent == p.desk.sent
    && (forall r | r in q.desk.replies && r != x.newReply :: r in p.desk.replies)
    && (forall r | r in p.desk.replies && r != x.newReply ::
          r in q.desk.replies && q.desk.replies[r] == p.desk.replies[r])
    && var r := q.desk.replies[x.newReply];
      && r.message == Some(message) && r.tenant == x.tenant && r.status == Replies.Draft
      && r.createdBy.None? && r.editedBy.None?
      && (r.abstained <==> x.injected || x.top.None? || x.top.value < x.gate)
      && (r.flags != [] <==> x.injected) && r.body == if r.abstained then "" else x.draft
  }

  /** The job's own row in the audit table. */
  predicate Reported(r: Stamped<Cases.AuditRow>, now: int, tenant: Id, message: Id) {
    && r.at == now && r.row.tenant == tenant && r.row.actor.None? && r.row.objectType == MessageObject
    && r.row.objectId == Some(message)
  }

  lemma DraftMade(p: Tables, q: Tables, message: Id, x: Circumstances)
    requires q.desk == Drafted(p, message, x) && x.newReply in q.linked
    ensures ReplyMade(p, q, message, x)
  {
  }

  // ---------- the service ----------

  class Worker {
    var tables: Tables

    constructor ()
      ensures tables == EMPTY_TABLES
    {
      tables := EMPTY_TABLES;
    }

    method PersistInboundMessage(c: Rules, now: int, sourceEnabled: bool, m: Inbound, newId: Id) returns (r: Receipt)
      modifies this
      ensures (tables, r) == Ingest(c, old(tables), now, sourceEnabled, m, newId)
      ensures !r.New? ==> tables == old(tables)
      ensures r.New? ==>
        && r.id == newId && m.text != "" && sourceEnabled
        && newId in tables.messages && var n := tables.messages[newId];
        && n.externalId == m.externalId && n.author.of == m.sender
        && n.text == c.redact(m.text) && n.content == c.normalize(n.text)
        && n.at == (if m.stamp.Some? && m.stamp.value <= now + 300 then m.stamp.value else now)
        && n.author in tables.vault && tables.desk == old(tables).desk && tables.work == old(tables).work
        && tables.acks == old(tables).acks
        && (n.author !in old(tables).vault ==> tables.vault[n.author] == m.sender)
    {
      if m.text == "" { return Ignored; }
      if !sourceEnabled { return SourceMissing; }
      if SameExternal(tables, m) { return Duplicate; }
      var at := OccurredAt(now, m.stamp);
      if at > now + FIVE_MINUTES { at := now; }
      var redacted := c.redact(m.text);
      var pseudonym := Pseudonym(m.sender);
      var n := Message(m.externalId, at, pseudonym, redacted, c.normalize(redacted));
      if SameContent(tables, n) { return Duplicate; }
      tables := tables.(messages := tables.messages[newId := n]);
      if pseudonym !in tables.vault { tables := tables.(vault := tables.vault[pseudonym := m.sender]); }
      r := New(newId);
    }

    /** The transaction works on a copy, which a failed send discards. */
    method ProcessPersistedMessage(now: int, message: Id, x: Circumstances) returns (r: Result)
      modifies this
      ensures (tables, r) == Process(old(tables), now, message, x)
      ensures r.SendFailed? ==> x.mode == Acknowledge && x.sending.Failed?
      ensures !r.Processed? ==> tables == old(tables)
      ensures r.Processed? ==>
        && message in old(tables).messages && old(tables).messages[message].author in old(tables).vault
        && tables.acks == old(tables).acks + (if x.mode == Acknowledge
             then [Ack(message, old(tables).vault[old(tables).messages[message].author])] else [])
        && (x.mode == Off ==> tables.desk == old(tables).desk && tables.linked == old(tables).linked)
        && (x.mode != Off ==> ReplyMade(old(tables), tables, message, x))
        && var rows := tables.work.rows; rows != [] && Reported(rows[|rows| - 1], now, x.tenant, message)
    {
      hide Cases.Opening, Answered, Drafted, ReplyMade;
      if message !in tables.messages { return NotFound; }
      var persisted := tables.messages[message];
      if persisted.author !in tables.vault { return NotFound; }
      var recipient := tables.vault[persisted.author];
      if Answered(tables, message) { return AlreadyAnswered; }
      var t := tables;
      if x.mode.Draft? || x.mode.Acknowledge? {
        t := t.(desk := Drafted(t, message, x));
      }
      var (begun, caseId) := Cases.Opening(t.work, now, x.tenant, message, x.urgent, x.routing, x.newCase);
      t := t.(work := begun);
      if !x.mode.Off? {
        t := t.(linked := t.linked[x.newReply := caseId]);
      }
      t := t.(work := t.work.(rows := Append(t.work.rows, now, WorkerRow(x.tenant, message))));
      if x.mode.Acknowledge? {
        if x.sending.Failed? { return SendFailed; }
        t := t.(acks := t.acks + [Ack(message, recipient)]);
      }
      if !x.mode.Off? { DraftMade(tables, t, message, x); }
      tables := t;
      r := Processed;
    }
  }

  // ---------- steps ----------

  /** Besides webhooks and jobs: the studio and the officers at work on replies and
      cases, and other parts of the system writing audit rows. */
  datatype Step =
    | Webhook(now: int, sourceEnabled: bool, inbound: Inbound, newId: Id)
    | Job(now: int, message: Id, x: Circumstances)
    | ReplyWork(action: Replies.Step)
    | Casework(change: Cases.Step)

  predicate Enabled(p: Tables, s: Step) {
    match s
    case Webhook(_, _, _, newId) => newId !in p.messages
    case Job(now, message, x) =>
        x.newReply !in p.desk.replies && x.newCase !in p.work.cases && NotBefore(now, p.work.rows)
    case ReplyWork(a) => Replies.Enabled(p.desk, a) && (a.Generate? ==> a.message.None?)
    case Casework(a) => Cases.Enabled(p.work, a) && !a.FromMessage?
  }

  function Next(c: Rules, p: Tables, s: Step): Tables {
    match s
    case Webhook(now, sourceEnabled, m, newId) => Ingest(c, p, now, sourceEnabled, m, newId).0
    case Job(now, message, x) => Process(p, now, message, x).0
    case ReplyWork(a) => p.(desk := Replies.Next(c.space, p.desk, a))
    case Casework(a) => p.(work := Cases.Next(p.work, a))
  }

  ghost predicate Run(c: Rules, p: Tables, steps: seq<Step>)
    decreases |steps|
  {
    steps == [] || (Enabled(p, steps[0]) && Run(c, Next(c, p, steps[0]), steps[1..]))
  }

  function After(c: Rules, p: Tables, steps: seq<Step>): Tables
    decreases |steps|
  {
    if steps == [] then p else After(c, Next(c, p, steps[0]), steps[1..])
  }

  // ---------- the invariant ----------

  ghost predicate VaultOk(p: Tables) {
    && (forall id | id in p.messages :: p.messages[id].author in p.vault)
    && (forall a | a in p.vault :: p.vault[a] == a.of)
  }

  /** At most one reply for a message, linked to the case the message opened. */
  ghost predicate RepliesOk(p: Tables) {
    && (forall r, s | r in p.desk.replies && s in p.desk.replies ::
          p.desk.replies[r].message.Some? && p.desk.replies[r].message == p.desk.replies[s].message ==> r == s)
    && (forall r | r in p.desk.replies && p.desk.replies[r].message.Some? ::
          var m := p.desk.replies[r].message.value;
          m in p.messages && r in p.linked && Cases.CaseOf(p.work.complaints, m) == Some(p.linked[r]))
  }

  ghost predicate AcksOk(p: Tables) {
    && (forall j, k | 0 <= j < k < |p.acks| :: p.acks[j].message != p.acks[k].message)
    && (forall k | 0 <= k < |p.acks| ::
          p.acks[k].message in p.messages && Answered(p, p.acks[k].message)
          && p.acks[k].recipient == p.messages[p.acks[k].message].author.of)
  }

  ghost predicate Inv(c: Rules, p: Tables) {
    VaultOk(p) && RepliesOk(p) && AcksOk(p) && Replies.Inv(c.space, p.desk) && Cases.Inv(p.work)
  }

  lemma WebhookKeeps(c: Rules, p: Tables, now: int, sourceEnabled: bool, m: Inbound, newId: Id)
    requires Inv(c, p) && newId !in p.messages
    ensures Inv(c, Ingest(c, p, now, sourceEnabled, m, newId).0)
  {
    hide Replies.Inv, Cases.Inv, Cases.CaseOf;
    var q := Ingest(c, p, now, sourceEnabled, m, newId).0;
    assert q.desk == p.desk && q.acks == p.acks;
    forall i | Answered(p, i) ensures Answered(q, i) {}
  }

  /** The complaint of a message, once there, is found unchanged; a new one is found. */
  lemma {:induction false} CaseOfGrows(complaints: seq<Cases.Complaint>, x: Cases.Complaint, message: Id)
    ensures Cases.CaseOf(complaints + [x], message) ==
      if Cases.CaseOf(complaints, message).Some? then Cases.CaseOf(complaints, message)
      else if x.message == message then Some(x.caseId) else None
  {
    if complaints == [] {
      assert ([] + [x])[1..] == [];
      assert complaints + [x] == [x];
    } else {
      assert (complaints + [x])[1..] == complaints[1..] + [x];
      CaseOfGrows(complaints[1..], x, message);
    }
  }

  lemma OpeningFound(t: Cases.Tables, now: int, tenant: Id, message: Id, urgent: bool, routing: Option<Cases.Routing>,
      newId: Id)
    ensures var (u, id) := Cases.Opening(t, now, tenant, message, urgent, routing, newId);
      && Cases.CaseOf(u.complaints, message) == Some(id)
      && forall m :: Cases.CaseOf(t.complaints, m).Some? ==>
          Cases.CaseOf(u.complaints, m) == Cases.CaseOf(t.complaints, m)
  {
    hide Cases.CaseOf;
    forall m ensures Cases.CaseOf(t.complaints, m).Some? ==>
      Cases.CaseOf(Cases.Opening(t, now, tenant, message, urgent, routing, newId).0.complaints, m) ==
          Cases.CaseOf(t.complaints, m)
    {
      CaseOfGrows(t.complaints, Cases.Complaint(message, newId), m);
    }
    CaseOfGrows(t.complaints, Cases.Complaint(message, newId), message);
  }

  lemma OpeningKeeps(t: Cases.Tables, now: int, message: Id, x: Circumstances)
    requires Cases.Inv(t) && NotBefore(now, t.rows) && x.newCase !in t.cases
    ensures var u := Cases.Opening(t, now, x.tenant, message, x.urgent, x.routing, x.newCase).0;
      Cases.Inv(u.(rows := Append(u.rows, now, WorkerRow(x.tenant, message))))
  {
    hide Cases.Inv, Cases.CaseOf;
    Cases.StepKeeps(t, Cases.FromMessage(now, x.tenant, message, x.urgent, x.routing, x.newCase));
    var u := Cases.Opening(t, now, x.tenant, message, x.urgent, x.routing, x.newCase).0;
    assert NotBefore(now, u.rows);
    Cases.ElsewhereKeeps(u, now, WorkerRow(x.tenant, message));
  }

  /** A reply added for a message without one, linked to its case. */
  lemma RepliesAfterJob(p: Tables, q: Tables, message: Id, newReply: Id, r: Replies.Reply, caseId: Id)
    requires RepliesOk(p) && message in p.messages && !Answered(p, message) && newReply !in p.desk.replies
    requires q.messages == p.messages
    requires q.desk.replies == p.desk.replies[newReply := r] && r.message == Some(message)
        && q.linked == p.linked[newReply := caseId]
    requires Cases.CaseOf(q.work.complaints, message) == Some(caseId)
    requires forall m :: Cases.CaseOf(p.work.complaints, m).Some? ==>
        Cases.CaseOf(q.work.complaints, m) == Cases.CaseOf(p.work.complaints, m)
    ensures RepliesOk(q)
  {
    hide Cases.CaseOf;
    assert forall s | s in p.desk.replies :: p.desk.replies[s].message != Some(message);
  }

  lemma AnsweredStays(p: Tables, q: Tables)
    requires forall r | r in p.desk.replies ::
        r in q.desk.replies && q.desk.replies[r].message == p.desk.replies[r].message
    ensures forall i: Id | Answered(p, i) :: Answered(q, i)
  {
    forall i: Id | Answered(p, i) ensures Answered(q, i) {
      var s :| s in p.desk.replies && p.desk.replies[s].message == Some(i);
      assert s in q.desk.replies && q.desk.replies[s].message == Some(i);
    }
  }

  lemma AcksAfterJob(p: Tables, q: Tables, message: Id)
    requires AcksOk(p) && VaultOk(p) && message in p.messages && !Answered(p, message)
    requires q.messages == p.messages && forall i: Id | Answered(p, i) :: Answered(q, i)
    requires q.acks == p.acks || (q.acks == p.acks + [Ack(message, p.vault[p.messages[message].author])]
        && Answered(q, message))
    ensures AcksOk(q)
  {
    hide Answered;
  }

  lemma JobKeeps(c: Rules, p: Tables, now: int, message: Id, x: Circumstances)
    requires Inv(c, p) && Enabled(p, Job(now, message, x))
    ensures Inv(c, Process(p, now, message, x).0)
  {
    hide Replies.Inv, Cases.Inv, Cases.CaseOf, Cases.Opening, Append, NotBefore, Replies.Judge, Answered, RepliesOk;
    hide AcksOk;
    var (q, r) := Process(p, now, message, x);
    if r.Processed? {
      OpeningKeeps(p.work, now, message, x);
      OpeningFound(p.work, now, x.tenant, message, x.urgent, x.routing, x.newCase);
      if !x.mode.Off? {
        var step := Replies.Generate(x.newReply, x.tenant, Some(message), x.draft, None, x.injected, false, x.top,
            x.gate);
        Replies.StepKeeps(c.space, p.desk, step);
        assert q.desk == Replies.Next(c.space, p.desk, step);
        RepliesAfterJob(p, q, message, x.newReply, q.desk.replies[x.newReply], q.linked[x.newReply]);
        NewAnswer(q, x.newReply, message);
      } else {
        RepliesSame(p, q);
      }
      AnsweredStays(p, q);
      AcksAfterJob(p, q, message);
    }
  }

  lemma NewAnswer(q: Tables, r: Id, message: Id)
    requires r in q.desk.replies && q.desk.replies[r].message == Some(message)
    ensures Answered(q, message)
  {
  }

  /** Replies keep to their messages through every other kind of step. */
  lemma RepliesSame(p: Tables, q: Tables)
    requires RepliesOk(p) && p.linked == q.linked && forall id | id in p.messages :: id in q.messages
    requires forall r | r in q.desk.replies && q.desk.replies[r].message.Some? ::
      r in p.desk.replies && q.desk.replies[r].message == p.desk.replies[r].message
    requires forall m :: Cases.CaseOf(p.work.complaints, m).Some? ==>
        Cases.CaseOf(q.work.complaints, m) == Cases.CaseOf(p.work.complaints, m)
    ensures RepliesOk(q)
  {
    hide Cases.CaseOf;
  }

  lemma ReplyWorkKeeps(c: Rules, p: Tables, a: Replies.Step)
    requires Inv(c, p) && Enabled(p, ReplyWork(a))
    ensures Inv(c, Next(c, p, ReplyWork(a)))
  {
    hide Replies.Inv, Cases.Inv, Cases.CaseOf, Replies.Judge, Answered, RepliesOk, Replies.Sound;
    hide Replies.EditReply, Replies.SubmitReply, Replies.ApproveReply;
    var q := Next(c, p, ReplyWork(a));
    Replies.StepKeeps(c.space, p.desk, a);
    forall r | r in p.desk.replies
      ensures r in q.desk.replies && q.desk.replies[r].message == p.desk.replies[r].message
    {
      Replies.StepPreserves(c.space, p.desk, a, r);
    }
    forall r | r in q.desk.replies && r !in p.desk.replies ensures q.desk.replies[r].message.None? {
      NoOtherReply(c, p.desk, a, r);
    }
    AnsweredStays(p, q);
    RepliesSame(p, q);
  }

  lemma NoOtherReply(c: Rules, d: Replies.Desk, a: Replies.Step, r: Id)
    requires r in Replies.Next(c.space, d, a).replies && r !in d.replies
    ensures a.Generate? && r == a.newId && Replies.Next(c.space, d, a).replies[r].message == a.message
  {
    hide Replies.Judge, Trim, Replies.LongEnough;
  }

  lemma CaseworkKeeps(c: Rules, p: Tables, a: Cases.Step)
    requires Inv(c, p) && Enabled(p, Casework(a))
    ensures Inv(c, Next(c, p, Casework(a)))
  {
    hide Replies.Inv, Cases.Inv, Cases.CaseOf, Answered, RepliesOk, Append, NotBefore;
    var q := Next(c, p, Casework(a));
    Cases.StepKeeps(p.work, a);
    assert q.work.complaints == p.work.complaints;
    AnsweredStays(p, q);
    RepliesSame(p, q);
  }

  lemma StepKeeps(c: Rules, p: Tables, s: Step)
    requires Inv(c, p) && Enabled(p, s)
    ensures Inv(c, Next(c, p, s))
  {
    match s
    case Webhook(now, sourceEnabled, m, newId) => WebhookKeeps(c, p, now, sourceEnabled, m, newId);
    case Job(now, message, x) => JobKeeps(c, p, now, message, x);
    case ReplyWork(a) => ReplyWorkKeeps(c, p, a);
    case Casework(a) => CaseworkKeeps(c, p, a);
  }

  lemma {:induction false} RunKeeps(c: Rules, p: Tables, steps: seq<Step>)
    requires Inv(c, p) && Run(c, p, steps)
    ensures Inv(c, After(c, p, steps))
    decreases |steps|
  {
    hide Inv, Next, Enabled;
    if steps == [] {
    } else {
      StepKeeps(c, p, steps[0]);
      RunKeeps(c, Next(c, p, steps[0]), steps[1..]);
    }
  }

  lemma EmptyInv(c: Rules)
    ensures Inv(c, EMPTY_TABLES)
  {
  }

  // ---------- what holds at any time ----------

  predicate Distinct(a: Message, b: Message) {
    a.externalId != b.externalId && (a.content != b.content || a.at != b.at)
  }

  ghost predicate Apart(p: Tables) {
    forall m, n | m in p.messages && n in p.messages && m != n :: Distinct(p.messages[m], p.messages[n])
  }

  lemma StepApart(c: Rules, p: Tables, s: Step)
    requires Apart(p) && Enabled(p, s)
    ensures Apart(Next(c, p, s))
  {
    hide Cases.Opening, Append, NotBefore, Replies.Next, Cases.Next, Replies.Enabled, Cases.Enabled, Answered;
  }

  lemma {:induction false} ApartAlways(c: Rules, p: Tables, steps: seq<Step>)
    requires Apart(p) && Run(c, p, steps)
    ensures Apart(After(c, p, steps))
    decreases |steps|
  {
    hide Apart, Next, Enabled;
    if steps == [] {
    } else {
      StepApart(c, p, steps[0]);
      ApartAlways(c, Next(c, p, steps[0]), steps[1..]);
    }
  }

  function AcksOf(acks: seq<Ack>, message: Id): seq<Ack> {
    if acks == [] then []
    else (if acks[0].message == message then [acks[0]] else []) + AcksOf(acks[1..], message)
  }

  lemma {:induction false} AtMostOneAck(acks: seq<Ack>, message: Id)
    requires forall j, k | 0 <= j < k < |acks| :: acks[j].message != acks[k].message
    ensures |AcksOf(acks, message)| <= 1
    ensures AcksOf(acks, message) != [] ==> exists k | 0 <= k < |acks| :: acks[k].message == message
  {
    if acks == [] {
    } else {
      AtMostOneAck(acks[1..], message);
    }
  }

  /** However often webhooks are replayed and jobs redelivered, sends fail and the reply
      mode changes: no two stored messages share an external identifier, or content and
      time; each has its sender in the vault, at most one reply, at most one complaint,
      which has a case of its own, and at most one acknowledgement; a reply is linked to
      that case. */
  lemma MessageOnce(c: Rules, steps: seq<Step>, m: Id)
    requires Run(c, EMPTY_TABLES, steps) && m in After(c, EMPTY_TABLES, steps).messages
    ensures var p := After(c, EMPTY_TABLES, steps);
      && p.messages[m].author in p.vault && p.vault[p.messages[m].author] == p.messages[m].author.of
      && (forall n | n in p.messages && n != m :: Distinct(p.messages[m], p.messages[n]))
      && (forall r, s | r in p.desk.replies && s in p.desk.replies ::
            p.desk.replies[r].message == Some(m) && p.desk.replies[s].message == Some(m) ==> r == s)
      && Cases.OneEach(p.work.complaints)
      && |AcksOf(p.acks, m)| <= 1
      && (AcksOf(p.acks, m) != [] ==> Answered(p, m))
      && (forall r | r in p.desk.replies && p.desk.replies[r].message == Some(m) ::
            r in p.linked && Cases.CaseOf(p.work.complaints, m) == Some(p.linked[r]) && p.linked[r] in p.work.cases)
  {
    hide Replies.Inv, Cases.Inv, Cases.CaseOf, Run, After, Answered, Cases.OneEach;
    EmptyInv(c);
    RunKeeps(c, EMPTY_TABLES, steps);
    ApartAlways(c, EMPTY_TABLES, steps);
    var p := After(c, EMPTY_TABLES, steps);
    Cases.InvCase(p.work);
    AtMostOneAck(p.acks, m);
    forall r | r in p.desk.replies && p.desk.replies[r].message == Some(m) ensures p.linked[r] in p.work.cases {
      var x := Cases.Complaint(m, p.linked[r]);
      assert x in p.work.complaints;
    }
  }

  /** The job answers the message, if it is not answered yet. */
  predicate Answers(s: Step, m: Id) { s.Job? && s.message == m && !s.x.mode.Off? && !s.x.sending.Failed? }

  /** Once answered a message stays answered. */
  lemma StaysAnswered(c: Rules, p: Tables, s: Step, m: Id)
    requires Inv(c, p) && Enabled(p, s) && Answered(p, m)
    ensures Answered(Next(c, p, s), m)
  {
    hide Replies.Inv, Cases.Inv, Cases.CaseOf, Cases.Opening, Append, NotBefore, Replies.Judge, Replies.Next;
    hide Replies.Enabled, Cases.Enabled, Cases.Next, VaultOk, RepliesOk, AcksOk;
    var r :| r in p.desk.replies && p.desk.replies[r].message == Some(m);
    if s.ReplyWork? { Replies.StepPreserves(c.space, p.desk, s.action, r); }
    var q := Next(c, p, s);
    assert r in q.desk.replies && q.desk.replies[r].message == Some(m);
  }

  /** Such a job always finds a stored message. */
  lemma JobAnswers(c: Rules, p: Tables, s: Step, m: Id)
    requires VaultOk(p) && m in p.messages && !Answered(p, m) && Answers(s, m)
    ensures Answered(Next(c, p, s), m)
  {
    hide Cases.Opening, Append, Replies.Judge;
    assert Next(c, p, s).desk.replies[s.x.newReply].message == Some(m);
  }

  lemma {:induction false} AnsweredFrom(c: Rules, p: Tables, steps: seq<Step>, m: Id)
    requires Inv(c, p) && Run(c, p, steps) && m in p.messages
    requires Answered(p, m) || exists k | 0 <= k < |steps| :: Answers(steps[k], m)
    ensures Answered(After(c, p, steps), m)
    decreases |steps|
  {
    hide VaultOk, RepliesOk, AcksOk, Replies.Inv, Cases.Inv, Next, Enabled, Answered, Answers;
    if steps == [] {
    } else {
      var q, rest := Next(c, p, steps[0]), steps[1..];
      StepKeeps(c, p, steps[0]);
      if Answered(p, m) || Answers(steps[0], m) {
        if Answered(p, m) { StaysAnswered(c, p, steps[0], m); } else { JobAnswers(c, p, steps[0], m); }
      } else {
        var k :| 0 <= k < |steps| && Answers(steps[k], m);
        assert rest[k - 1] == steps[k];
      }
      MessageStays(c, p, steps[0], m);
      AnsweredFrom(c, q, rest, m);
    }
  }

  /** A stored message is never lost: any continuation with a job of it that drafts and
      does not fail to send ends with the message answered, whatever else happens and
      however often jobs are delivered. */
  lemma AnsweredInTheEnd(c: Rules, history: seq<Step>, steps: seq<Step>, m: Id)
    requires Run(c, EMPTY_TABLES, history) && Run(c, After(c, EMPTY_TABLES, history), steps)
    requires m in After(c, EMPTY_TABLES, history).messages && exists k | 0 <= k < |steps| :: Answers(steps[k], m)
    ensures Answered(After(c, After(c, EMPTY_TABLES, history), steps), m)
  {
    hide Inv, Run, After, Answers;
    EmptyInv(c);
    RunKeeps(c, EMPTY_TABLES, history);
    AnsweredFrom(c, After(c, EMPTY_TABLES, history), steps, m);
  }

  lemma MessageStays(c: Rules, p: Tables, s: Step, m: Id)
    requires m in p.messages && Enabled(p, s)
    ensures m in Next(c, p, s).messages
  {
  }

  // ---------- acknowledgements ----------

  /** The job acknowledges the message, if it is stored and not answered yet. */
  predicate Acknowledges(s: Step, m: Id) { s.Job? && s.message == m && s.x.mode == Acknowledge && s.x.sending.Sent? }

  /** What a step does to the acknowledgements: a job that finds its message stored and
      unanswered, in mode Acknowledge and with a working provider, tells the message's
      sender. Nothing else does. */
  lemma StepAcks(c: Rules, p: Tables, s: Step)
    requires VaultOk(p) && Enabled(p, s)
    ensures Next(c, p, s).acks == p.acks +
      if s.Job? && Acknowledges(s, s.message) && s.message in p.messages && !Answered(p, s.message)
      then [Ack(s.message, p.messages[s.message].author.of)] else []
  {
    hide Cases.Opening, Append, NotBefore, Replies.Next, Cases.Next, Replies.Enabled, Cases.Enabled, Answered;
    hide Drafted;
  }

  lemma {:induction false} AcksOfAppend(acks: seq<Ack>, a: Ack, m: Id)
    ensures AcksOf(acks + [a], m) == AcksOf(acks, m) + if a.message == m then [a] else []
  {
    if acks == [] {
      assert (acks + [a])[1..] == [];
    } else {
      assert (acks + [a])[1..] == acks[1..] + [a];
      AcksOfAppend(acks[1..], a, m);
    }
  }

  /** No job of the message in mode Acknowledge with a working provider: nobody is told. */
  lemma {:induction false} UnacknowledgedFrom(c: Rules, p: Tables, steps: seq<Step>, m: Id)
    requires Inv(c, p) && Run(c, p, steps) && forall k | 0 <= k < |steps| :: !Acknowledges(steps[k], m)
    ensures AcksOf(After(c, p, steps).acks, m) == AcksOf(p.acks, m)
    decreases |steps|
  {
    hide VaultOk, RepliesOk, AcksOk, Replies.Inv, Cases.Inv, Next, Enabled, Answered;
    if steps == [] {
    } else {
      var s, q := steps[0], Next(c, p, steps[0]);
      StepKeeps(c, p, s);
      StepAcks(c, p, s);
      if q.acks != p.acks {
        AcksOfAppend(p.acks, Ack(s.message, p.messages[s.message].author.of), m);
      } else {
        assert p.acks + [] == p.acks;
      }
      UnacknowledgedFrom(c, q, steps[1..], m);
    }
  }

  /** In every run a message is acknowledged, at most once and to its sender, only if some
      job of it ran in mode Acknowledge and could send. */
  lemma NoUnwantedAck(c: Rules, steps: seq<Step>, m: Id)
    requires Run(c, EMPTY_TABLES, steps) && forall k | 0 <= k < |steps| :: !Acknowledges(steps[k], m)
    ensures AcksOf(After(c, EMPTY_TABLES, steps).acks, m) == []
  {
    EmptyInv(c);
    UnacknowledgedFrom(c, EMPTY_TABLES, steps, m);
  }

  /** And such a job, at a time when the message is stored and unanswered, adds exactly one
      acknowledgement, to the sender; it is the only one the message will ever have. */
  lemma AcknowledgedOnce(c: Rules, history: seq<Step>, job: Step, later: seq<Step>, m: Id)
    requires Run(c, EMPTY_TABLES, history) && m in After(c, EMPTY_TABLES, history).messages
    requires !Answered(After(c, EMPTY_TABLES, history), m) && Acknowledges(job, m)
    requires Enabled(After(c, EMPTY_TABLES, history), job)
    requires Run(c, Next(c, After(c, EMPTY_TABLES, history), job), later)
    ensures var p := After(c, EMPTY_TABLES, history);
      && Next(c, p, job).acks == p.acks + [Ack(m, p.messages[m].author.of)]
      && AcksOf(After(c, Next(c, p, job), later).acks, m) == [Ack(m, p.messages[m].author.of)]
  {
    hide Run, After, Enabled, Next, Answered, VaultOk, RepliesOk, AcksOk, Replies.Inv, Cases.Inv;
    EmptyInv(c);
    RunKeeps(c, EMPTY_TABLES, history);
    var p := After(c, EMPTY_TABLES, history);
    var a := Ack(m, p.messages[m].author.of);
    StepAcks(c, p, job);
    StepKeeps(c, p, job);
    Unanswered(p, m);
    AcksOfAppend(p.acks, a, m);
    JobAnswers(c, p, job, m);
    AnsweredNoMore(c, Next(c, p, job), later, m);
  }

  lemma Unanswered(p: Tables, m: Id)
    requires AcksOk(p) && !Answered(p, m)
    ensures AcksOf(p.acks, m) == []
  {
    hide Answered;
    AtMostOneAck(p.acks, m);
  }

  lemma {:induction false} AnsweredNoMore(c: Rules, p: Tables, steps: seq<Step>, m: Id)
    requires Inv(c, p) && Run(c, p, steps) && Answered(p, m)
    ensures AcksOf(After(c, p, steps).acks, m) == AcksOf(p.acks, m)
    decreases |steps|
  {
    hide VaultOk, RepliesOk, AcksOk, Replies.Inv, Cases.Inv, Next, Enabled, Answered;
    if steps == [] {
    } else {
      var s, q := steps[0], Next(c, p, steps[0]);
      StepKeeps(c, p, s);
      StepAcks(c, p, s);
      StaysAnswered(c, p, s, m);
      if q.acks != p.acks {
        AcksOfAppend(p.acks, Ack(s.message, p.messages[s.message].author.of), m);
      } else {
        assert p.acks + [] == p.acks;
      }
      AnsweredNoMore(c, q, steps[1..], m);
    }
  }

  // ---------- webhook replays ----------

  /** Messages are never changed or removed. */
  lemma {:induction false} MessagesStay(c: Rules, p: Tables, steps: seq<Step>)
    requires Run(c, p, steps)
    ensures forall m | m in p.messages ::
        m in After(c, p, steps).messages && After(c, p, steps).messages[m] == p.messages[m]
    decreases |steps|
  {
    if steps == [] {
    } else {
      MessagesStay(c, Next(c, p, steps[0]), steps[1..]);
    }
  }

  /** The message has a time of its own, which no delivery will replace. */
  predicate Timed(now: int, m: Inbound) { m.stamp.Some? && m.stamp.value <= now + FIVE_MINUTES }

  /** Delivered once and again later, the message stores nothing the second time. */
  lemma TimedReplay(c: Rules, p: Tables, now: int, m: Inbound, newId: Id, between: seq<Step>, later: int, otherId: Id)
    requires newId !in p.messages && now <= later && (m.text == "" || Timed(now, m))
    requires Run(c, Ingest(c, p, now, true, m, newId).0, between)
    ensures var q := After(c, Ingest(c, p, now, true, m, newId).0, between);
      Ingest(c, q, later, true, m, otherId).0 == q
  {
    hide Run, After;
    var p', q := Ingest(c, p, now, true, m, newId).0, After(c, Ingest(c, p, now, true, m, newId).0, between);
    MessagesStay(c, p', between);
    if m.text != "" {
      assert Stored(c, now, m) == Stored(c, later, m);
      if SameExternal(p, m) {
        var id :| id in p.messages && p.messages[id].externalId == m.externalId;
        assert id in q.messages && q.messages[id].externalId == m.externalId;
      } else if SameContent(p, Stored(c, now, m)) {
        var n := Stored(c, now, m);
        var id :| id in p.messages && p.messages[id].content == n.content && p.messages[id].at == n.at;
        assert id in q.messages && q.messages[id].content == n.content && q.messages[id].at == n.at;
      } else {
        assert newId in q.messages && q.messages[newId].externalId == m.externalId;
      }
    }
  }

  /** A delivery of m at `now`, in a state the service can reach, and a later one.
      `sourceEnabled` is what the first delivery finds; the later one finds the source
      enabled, since otherwise it stores nothing anyway. */
  ghost predicate IsReplay(c: Rules, now: int, sourceEnabled: bool, m: Inbound, history: seq<Step>, newId: Id,
                           between: seq<Step>, later: int, otherId: Id) {
    && Run(c, EMPTY_TABLES, history) && newId !in After(c, EMPTY_TABLES, history).messages
    && Run(c, Ingest(c, After(c, EMPTY_TABLES, history), now, sourceEnabled, m, newId).0, between)
    && now <= later && otherId !in BeforeReplay(c, now, sourceEnabled, m, history, newId, between).messages
  }

  function BeforeReplay(c: Rules, now: int, sourceEnabled: bool, m: Inbound, history: seq<Step>, newId: Id,
                        between: seq<Step>): Tables {
    After(c, Ingest(c, After(c, EMPTY_TABLES, history), now, sourceEnabled, m, newId).0, between)
  }

  /** Whatever was stored before, happens in between, and however much later: a replay of
      the message stores nothing. */
  ghost predicate ReplaySafe(c: Rules, now: int, sourceEnabled: bool, m: Inbound) {
    forall history, newId, between, later, otherId |
        IsReplay(c, now, sourceEnabled, m, history, newId, between, later, otherId) ::
      var q := BeforeReplay(c, now, sourceEnabled, m, history, newId, between);
      Ingest(c, q, later, true, m, otherId).0 == q
  }

  /** The same text from another message, stored at the time of this delivery. */
  function Like(now: int, m: Inbound): Inbound { Inbound(m.externalId + "x", m.sender, Some(now), m.text) }

  /** A message without a time of its own is dropped after a like one stored at exactly the
      time of its delivery, and stored on replay. */
  lemma UntimedReplay(c: Rules, now: int, m: Inbound)
    requires m.text != "" && !Timed(now, m)
    ensures var p := Ingest(c, EMPTY_TABLES, now, true, Like(now, m), 1).0;
      && Ingest(c, p, now, true, m, 2) == (p, Duplicate)
      && Ingest(c, p, now + 1, true, m, 2).1 == New(2)
  {
    var like := Like(now, m);
    var p := Ingest(c, EMPTY_TABLES, now, true, like, 1).0;
    assert |like.externalId| == |m.externalId| + 1;
    assert p.messages == map[1 := Stored(c, now, like)];
    assert 1 in p.messages;
    assert SameContent(p, Stored(c, now, m));
  }

  /** A first delivery that finds the source disabled leaves nothing to recognise. */
  lemma AfterDisabled(c: Rules, now: int, m: Inbound)
    requires m.text != ""
    ensures !ReplaySafe(c, now, false, m)
  {
    var p := Ingest(c, EMPTY_TABLES, now, false, m, 1).0;
    assert p == EMPTY_TABLES && After(c, EMPTY_TABLES, []) == EMPTY_TABLES;
    assert Run(c, EMPTY_TABLES, []);
    assert IsReplay(c, now, false, m, [], 1, [], now, 1);
    assert 1 !in p.messages && 1 in Ingest(c, p, now, true, m, 1).0.messages;
  }

  lemma TextlessReplay(c: Rules, p: Tables, now: int, sourceEnabled: bool, m: Inbound, newId: Id)
    requires m.text == ""
    ensures Ingest(c, p, now, sourceEnabled, m, newId) == (p, Ignored)
  {
  }

  /** Replays of a message are safe if and only if it has no text, or its first delivery
      finds the source enabled and a timestamp that parses and is not more than five
      minutes ahead. */
  lemma ReplaySafeIff(c: Rules, now: int, sourceEnabled: bool, m: Inbound)
    ensures ReplaySafe(c, now, sourceEnabled, m) <==> m.text == "" || (sourceEnabled && Timed(now, m))
  {
    hide Run, After, Ingest;
    if m.text == "" || (sourceEnabled && Timed(now, m)) {
      forall history, newId, between, later, otherId |
          IsReplay(c, now, sourceEnabled, m, history, newId, between, later, otherId)
        ensures var q := BeforeReplay(c, now, sourceEnabled, m, history, newId, between);
          Ingest(c, q, later, true, m, otherId).0 == q
      {
        if m.text == "" {
          TextlessReplay(c, BeforeReplay(c, now, sourceEnabled, m, history, newId, between), later, true, m, otherId);
        } else {
          TimedReplay(c, After(c, EMPTY_TABLES, history), now, m, newId, between, later, otherId);
        }
      }
    } else if !sourceEnabled {
      AfterDisabled(c, now, m);
    } else {
      UntimedReplay(c, now, m);
      AfterLike(c, now, m);
    }
  }

  lemma AfterLike(c: Rules, now: int, m: Inbound)
    requires var p := Ingest(c, EMPTY_TABLES, now, true, Like(now, m), 1).0;
      && Ingest(c, p, now, true, m, 2) == (p, Duplicate)
      && Ingest(c, p, now + 1, true, m, 2).1 == New(2)
    ensures !ReplaySafe(c, now, true, m)
  {
    var history := [Webhook(now, true, Like(now, m), 1)];
    var p := Ingest(c, EMPTY_TABLES, now, true, Like(now, m), 1).0;
    assert history[1..] == [];
    assert After(c, EMPTY_TABLES, history) == After(c, p, []) == p;
    assert Run(c, p, []) && Run(c, EMPTY_TABLES, history);
    assert IsReplay(c, now, true, m, history, 2, [], now + 1, 2);
    assert 2 !in p.messages && 2 in Ingest(c, p, now + 1, true, m, 2).0.messages;
  }

  // ---------- what is stored ----------

  /** Messages hold the redacted text and its search form, of some text received. */
  ghost predicate Redacted(c: Rules, p: Tables) {
    forall m | m in p.messages :: exists original: string :: IsStored(c, p.messages[m], original)
  }

  predicate IsStored(c: Rules, m: Message, original: string) {
    m.text == c.redact(original) && m.content == c.normalize(m.text)
  }

  lemma {:induction false} RedactedAlways(c: Rules, p: Tables, steps: seq<Step>)
    requires Redacted(c, p) && Run(c, p, steps)
    ensures Redacted(c, After(c, p, steps))
    decreases |steps|
  {
    if steps == [] {
    } else {
      var s := steps[0];
      var q := Next(c, p, s);
      if s.Webhook? && q.messages != p.messages { assert IsStored(c, q.messages[s.newId], s.inbound.text); }
      assert Redacted(c, q);
      RedactedAlways(c, q, steps[1..]);
    }
  }

  /** The rules the service runs with. */
  function ServiceRules(t: Chars): Rules {
    Rules(s => Redaction.Redacted(t, s), s => Normalization.Normalize(t, s), t.space)
  }

  /** A stored message holds a telephone number or an Emirates ID exactly when some pass
      over the text received counted that far, never when that text was of at most forty
      million characters; and its search form is one that normalisation leaves alone. */
  lemma StoredClean(t: Chars, steps: seq<Step>, m: Id) returns (original: string)
    requires Unicode(t) && Normalization.Tables(t)
    requires Run(ServiceRules(t), EMPTY_TABLES, steps) && m in After(ServiceRules(t), EMPTY_TABLES, steps).messages
    ensures var n := After(ServiceRules(t), EMPTY_TABLES, steps).messages[m];
      && n.text == Redaction.Redacted(t, original)
      && Normalization.Normalize(t, n.content) == n.content
      && (Regex.Absent(Redaction.Phone(t), n.text) <==> Redaction.PhoneCount(t, original) < 20_000_000)
      && (Regex.Absent(Redaction.EmiratesId(t), n.text) <==>
            && Redaction.IdCount(t, original) < Redaction.FIRST_ID
            && Redaction.EmailCount(t, original) < Redaction.FIRST_ID
            && Redaction.PhoneCount(t, original) < Redaction.FIRST_ID)
      && (|original| <= 40_000_000 ==>
            Regex.Absent(Redaction.Phone(t), n.text) && Regex.Absent(Redaction.EmiratesId(t), n.text)
            && RedactionShapes.NoPhoneIn(t, n.text) && RedactionShapes.NoIdIn(t, n.text))
  {
    var c := ServiceRules(t);
    assert Redacted(c, EMPTY_TABLES);
    RedactedAlways(c, EMPTY_TABLES, steps);
    hide Run, After, Redaction.Redacted, Normalization.Normalize, Regex.Absent;
    hide Redaction.IdCount, Redaction.EmailCount, Redaction.PhoneCount, RedactionShapes.NoPhoneIn,
      RedactionShapes.NoIdIn;
    var n := After(c, EMPTY_TABLES, steps).messages[m];
    original :| IsStored(c, n, original);
    RulesApplied(t, original);
    RulesApplied(t, n.text);
    Normalization.Idempotent(t, n.text);
    Redaction.NoPhoneLeft(t, original);
    Redaction.NoEmiratesIdLeft(t, original);
    if |original| <= 40_000_000 {
      RedactionLimits.ShortTextClean(t, original);
      RedactionShapes.NoneLeft(t, original);
    }
  }

  lemma RulesApplied(t: Chars, s: string)
    ensures ServiceRules(t).redact(s) == Redaction.Redacted(t, s)
        && ServiceRules(t).normalize(s) == Normalization.Normalize(t, s)
  {
    hide Redaction.Redacted, Normalization.Normalize;
  }
}
