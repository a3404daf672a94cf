/** Replies to citizens: drafted, edited, submitted, approved by somebody else, delivered once. */
module Replies {
  import opened Text
  import opened Ledger
  import EditDistance

  datatype Status = Draft | PendingApproval | Approved | Rejected | Published | Withdrawn

  /** `message` is the inbound message a worker answered, through its inference run;
      drafts from the studio have none. */
  datatype Reply = Reply(tenant: Id, message: Option<Id>, body: string, status: Status,
                         grounding: Option<real>, abstained: bool, flags: seq<string>,
                         createdBy: Option<Id>, editedBy: Option<Id>,
                         editDistance: Option<nat>, submittedAt: Option<int>,
                         approvedBy: Option<Id>, approvedAt: Option<int>,
                         publishedAt: Option<int>, publishedRef: Option<string>)

  // ---------- generation ----------

  /** The verdict on a request: why it is refused, or how well it is grounded. */
  datatype Verdict = Verdict(abstained: bool, flags: seq<string>, grounding: real)

  function Clamp(score: real): real {
    var raised := if 0.6 >= score + 0.55 then 0.6 else score + 0.55;
    if raised <= 0.99 then raised else 0.99
  }

  /** `top` is the best retrieved score; the worker never passes `forbidden`. */
  function Judge(injected: bool, forbidden: bool, top: Option<real>, gate: real): Verdict {
    if injected then Verdict(true, ["prompt_injection"], 0.0)
    else if forbidden then Verdict(true, ["forbidden_commitment"], 0.0)
    else if top.None? || top.value < gate then Verdict(true, [], 0.0)
    else Verdict(false, [], Clamp(top.value))
  }

  /** The row that generation inserts; nothing is written when it refuses. */
  function Generated(tenant: Id, message: Option<Id>, text: string, v: Verdict, createdBy: Option<Id>): Reply {
    Reply(tenant, message, if v.abstained then "" else text, Draft, Some(v.grounding), v.abstained, v.flags,
          createdBy, None, None, None, None, None, None, None)
  }

  /** Refused exactly when the text looks injected, asks for a commitment, or finds no
      support at the gate; otherwise grounded at 0.55 above the best score, within bounds. */
  lemma JudgeMeans(injected: bool, forbidden: bool, top: Option<real>, gate: real)
    ensures var v := Judge(injected, forbidden, top, gate);
      && (v.abstained <==> injected || forbidden || top.None? || top.value < gate)
      && (v.flags == [] <==> !injected && !forbidden)
      && (injected ==> v.flags == ["prompt_injection"])
      && (forbidden && !injected ==> v.flags == ["forbidden_commitment"])
      && (v.abstained ==> v.grounding == 0.0)
      && (!v.abstained ==>
            && 0.6 <= v.grounding <= 0.99
            && (0.05 <= top.value <= 0.44 ==> v.grounding == top.value + 0.55)
            && (top.value < 0.05 ==> v.grounding == 0.6) && (top.value > 0.44 ==> v.grounding == 0.99))
  {
  }

  // ---------- the workflow ----------

  /** What left the building. */
  datatype Delivery = Delivery(reply: Id, body: string, ref: string)

  /** What was recorded, in order. */
  datatype Event =
    | Made(reply: Id, who: Option<Id>)
    | Edited(reply: Id, who: Option<Id>)
    | Submitted(reply: Id, who: Option<Id>, body: string)
    | Released(reply: Id, who: Option<Id>, ref: string)
    | SendFailed(reply: Id, who: Option<Id>)

  datatype Desk = Desk(replies: map<Id, Reply>, sent: seq<Delivery>, log: seq<Event>)

  const EMPTY_DESK := Desk(map[], [], [])

  datatype Sending = Sent(ref: string) | Failed

  datatype Outcome = Done | Ref(ref: string) | NotFound | Refused | DeliveryError

  datatype Step =
    | Generate(newId: Id, tenant: Id, message: Option<Id>, text: string, createdBy: Option<Id>,
               injected: bool, forbidden: bool, top: Option<real>, gate: real)
    | Edit(now: int, id: Id, tenant: Id, who: Id, body: string)
    | Submit(now: int, id: Id, tenant: Id, who: Id)
    | Approve(now: int, id: Id, tenant: Id, who: Id, sending: Sending)

  predicate PassesChecks(r: Reply) {
    !r.abstained && r.flags == [] && r.grounding.Some? && r.grounding.value >= 0.6
  }

  predicate LongEnough(space: char -> bool, body: string) { |Trim(space, body)| >= 10 }

  function Coalesce<T>(a: Option<T>, b: T): Option<T> { if a.Some? then a else Some(b) }

  function EditReply(space: char -> bool, d: Desk, id: Id, tenant: Id, who: Id, body: string): (Desk, Outcome) {
    if id !in d.replies || d.replies[id].tenant != tenant then (d, NotFound)
    else
      var r := d.replies[id];
      if r.status !in {Draft, PendingApproval} then (d, Refused)
      else
        var text := Trim(space, body);
        var r' := r.(body := text, status := Draft, editedBy := Some(who), createdBy := Coalesce(r.createdBy, who),
                     editDistance := Some(EditDistance.Distance(r.body, text)), submittedAt := None);
        (d.(replies := d.replies[id := r'], log := d.log + [Edited(id, Some(who))]), Done)
  }

  function SubmitReply(space: char -> bool, d: Desk, now: int, id: Id, tenant: Id, who: Id): (Desk, Outcome) {
    if id !in d.replies || d.replies[id].tenant != tenant then (d, NotFound)
    else
      var r := d.replies[id];
      if r.status != Draft || !LongEnough(space, r.body) || !PassesChecks(r) then (d, Refused)
      else
        var r' := r.(status := PendingApproval, submittedAt := Some(now),
                     createdBy := Coalesce(r.createdBy, who), editedBy := Coalesce(r.editedBy, who));
        (d.(replies := d.replies[id := r'], log := d.log + [Submitted(id, Some(who), r.body)]), Done)
  }

  function ApproveReply(d: Desk, now: int, id: Id, tenant: Id, who: Id, sending: Sending): (Desk, Outcome) {
    if id !in d.replies || d.replies[id].tenant != tenant || d.replies[id].message.None? then (d, NotFound)
    else
      var r := d.replies[id];
      if r.status == Published && r.publishedRef.Some? && r.publishedRef.value != "" then (d, Ref(r.publishedRef.value))
      else if r.status != PendingApproval then (d, Refused)
      else if Some(who) in {r.createdBy, r.editedBy} || !PassesChecks(r) then (d, Refused)
      else match sending
        case Failed => (d.(log := d.log + [SendFailed(id, Some(who))]), DeliveryError)
        case Sent(ref) =>
          var r' := r.(status := Published, approvedBy := Some(who), approvedAt := Coalesce(r.approvedAt, now),
                       publishedAt := Some(now), publishedRef := Some(ref));
          (Desk(d.replies[id := r'], d.sent + [Delivery(id, r.body, ref)], d.log + [Released(id, Some(who), ref)]),
              Ref(ref))
  }

  function Insert(d: Desk, newId: Id, r: Reply): Desk {
    d.(replies := d.replies[newId := r], log := d.log + [Made(newId, r.createdBy)])
  }

  function Next(space: char -> bool, d: Desk, s: Step): Desk {
    match s
    case Generate(newId, tenant, message, text, createdBy, injected, forbidden, top, gate) =>
      Insert(d, newId, Generated(tenant, message, text, Judge(injected, forbidden, top, gate), createdBy))
    case Edit(now, id, tenant, who, body) => EditReply(space, d, id, tenant, who, body).0
    case Submit(now, id, tenant, who) => SubmitReply(space, d, now, id, tenant, who).0
    case Approve(now, id, tenant, who, sending) => ApproveReply(d, now, id, tenant, who, sending).0
  }

  /** New identifiers are new, and a receipt names the message it is for. */
  predicate Enabled(d: Desk, s: Step) {
    && (s.Generate? ==> s.newId !in d.replies)
    && (s.Approve? && s.sending.Sent? ==> s.sending.ref != "")
  }

  /** No other reply is touched. */
  predicate Only(before: map<Id, Reply>, after: map<Id, Reply>, id: Id) {
    && after.Keys == before.Keys + {id}
    && forall i | i in before && i != id :: i in after && after[i] == before[i]
  }

  class ReplyDesk {
    var replies: map<Id, Reply>
    var sent: seq<Delivery>
    var log: seq<Event>

    function State(): Desk
      reads this
    {
      Desk(replies, sent, log)
    }

    constructor ()
      ensures State() == EMPTY_DESK
    {
      replies, sent, log := map[], [], [];
    }

    method UpdateReply(space: char -> bool, id: Id, tenant: Id, editor: Id, body: string) returns (out: Outcome)
      modifies this
      ensures (State(), out) == EditReply(space, old(State()), id, tenant, editor, body)
      ensures out != Done ==> State() == old(State())
      ensures out == NotFound <==> id !in old(replies) || old(replies)[id].tenant != tenant
      ensures out == Done ==>
        && Only(old(replies), replies, id) && sent == old(sent) && log == old(log) + [Edited(id, Some(editor))]
        && var r := old(replies)[id];
        && r.status in {Draft, PendingApproval}
        && replies[id] == r.(body := Trim(space, body), status := Draft, editedBy := Some(editor),
                             createdBy := if r.createdBy.Some? then r.createdBy else Some(editor),
                             editDistance := Some(EditDistance.Distance(r.body, Trim(space, body))),
                             submittedAt := None)
    {
      var normalized := Trim(space, body);
      if id !in replies || replies[id].tenant != tenant { return NotFound; }
      var row := replies[id];
      if row.status != Draft && row.status != PendingApproval { return Refused; }
      var distance := EditDistance.Distance(row.body, normalized);
      replies := replies[id := row.(body := normalized, status := Draft, editedBy := Some(editor),
                                    createdBy := Coalesce(row.createdBy, editor),
                                    editDistance := Some(distance), submittedAt := None)];
      log := log + [Edited(id, Some(editor))];
      out := Done;
    }

    method SubmitForApproval(space: char -> bool, now: int, id: Id, tenant: Id, submitter: Id) returns (out: Outcome)
      modifies this
      ensures (State(), out) == SubmitReply(space, old(State()), now, id, tenant, submitter)
      ensures out != Done ==> State() == old(State())
      ensures out == NotFound <==> id !in old(replies) || old(replies)[id].tenant != tenant
      ensures out == Done ==>
        && Only(old(replies), replies, id) && sent == old(sent)
        && var r := old(replies)[id];
        && log == old(log) + [Submitted(id, Some(submitter), r.body)]
        && r.status == Draft && |Trim(space, r.body)| >= 10
        && !r.abstained && r.flags == [] && r.grounding.Some? && r.grounding.value >= 0.6
        && replies[id] == r.(status := PendingApproval, submittedAt := Some(now),
                             createdBy := if r.createdBy.Some? then r.createdBy else Some(submitter),
                             editedBy := if r.editedBy.Some? then r.editedBy else Some(submitter))
    {
      if id !in replies || replies[id].tenant != tenant { return NotFound; }
      var row := replies[id];
      if row.status != Draft { return Refused; }
      if |Trim(space, row.body)| < 10 { return Refused; }
      if row.abstained || row.flags != [] || row.grounding.None? || row.grounding.value < 0.6 { return Refused; }
      replies := replies[id := row.(status := PendingApproval, submittedAt := Some(now),
                                    createdBy := Coalesce(row.createdBy, submitter),
                                    editedBy := Coalesce(row.editedBy, submitter))];
      log := log + [Submitted(id, Some(submitter), row.body)];
      out := Done;
    }

    /** `sending` is what the provider will answer, if it is asked. */
    method ApproveAndDeliver(now: int, id: Id, tenant: Id, approver: Id, sending: Sending) returns (out: Outcome)
      modifies this
      ensures (State(), out) == ApproveReply(old(State()), now, id, tenant, approver, sending)
      ensures out.NotFound? || out.Refused? ==> State() == old(State())
      ensures out.DeliveryError? ==> replies == old(replies) && sent == old(sent) && sending.Failed?
      ensures sent != old(sent) ==>
        && sending.Sent? && out == Ref(sending.ref) && Only(old(replies), replies, id)
        && id in old(replies) && var r := old(replies)[id];
        && sent == old(sent) + [Delivery(id, r.body, sending.ref)]
        && log == old(log) + [Released(id, Some(approver), sending.ref)]
        && r.tenant == tenant && r.message.Some? && r.status == PendingApproval
        && r.createdBy != Some(approver) && r.editedBy != Some(approver)
        && replies[id] == r.(status := Published, approvedBy := Some(approver), publishedAt := Some(now),
                             approvedAt := if r.approvedAt.Some? then r.approvedAt else Some(now),
                             publishedRef := Some(sending.ref))
      ensures sent == old(sent) ==> replies == old(replies)
    {
      if id !in replies || replies[id].tenant != tenant || replies[id].message.None? { return NotFound; }
      var row := replies[id];
      if row.status == Published && row.publishedRef.Some? && row.publishedRef.value != "" {
        return Ref(row.publishedRef.value);
      }
      if row.status != PendingApproval { return Refused; }
      if row.createdBy == Some(approver) || row.editedBy == Some(approver) { return Refused; }
      if row.abstained || row.flags != [] || row.grounding.None? || row.grounding.value < 0.6 { return Refused; }
      if sending.Failed? {
        log := log + [SendFailed(id, Some(approver))];
        return DeliveryError;
      }
      sent := sent + [Delivery(id, row.body, sending.ref)];
      replies := replies[id := row.(status := Published, approvedBy := Some(approver),
                                    approvedAt := Coalesce(row.approvedAt, now), publishedAt := Some(now),
                                    publishedRef := Some(sending.ref))];
      log := log + [Released(id, Some(approver), sending.ref)];
      out := Ref(sending.ref);
    }
  }

  // ---------- what the record says ----------

  /** Who first made, edited or submitted the reply under their own name. */
  function FirstAuthor(log: seq<Event>, id: Id): Option<Id> {
    if log == [] then None
    else
      var e, earlier := log[|log| - 1], FirstAuthor(log[..|log| - 1], id);
      if earlier.Some? then earlier
      else if e.reply == id && (e.Made? || e.Edited? || e.Submitted?) then e.who
      else None
  }

  function LastEditor(log: seq<Event>, id: Id): Option<Id> {
    if log == [] then None
    else
      var e := log[|log| - 1];
      if e.Edited? && e.reply == id then e.who else LastEditor(log[..|log| - 1], id)
  }

  /** The body as it was when last submitted. */
  function LastSubmission(log: seq<Event>, id: Id): Option<string> {
    if log == [] then None
    else
      var e := log[|log| - 1];
      if e.Submitted? && e.reply == id then Some(e.body) else LastSubmission(log[..|log| - 1], id)
  }

  function DeliveriesOf(sent: seq<Delivery>, id: Id): seq<Delivery> {
    if sent == [] then []
    else
      var last, before := sent[|sent| - 1], DeliveriesOf(sent[..|sent| - 1], id);
      if last.reply == id then before + [last] else before
  }

  // ---------- the invariant ----------

  predicate Submittable(space: char -> bool, r: Reply) { LongEnough(space, r.body) && PassesChecks(r) }

  /** One reply against the record. */
  ghost predicate Sound(space: char -> bool, d: Desk, id: Id)
    requires id in d.replies
  {
    var r := d.replies[id];
    && r.status in {Draft, PendingApproval, Published}
    && (PassesChecks(r) <==> !r.abstained)
    && r.createdBy == FirstAuthor(d.log, id)
    && (LastEditor(d.log, id).Some? ==> r.editedBy == LastEditor(d.log, id))
    && (r.status != Draft ==>
        Submittable(space, r) && LastSubmission(d.log, id) == Some(r.body) && r.createdBy.Some? && r.editedBy.Some?)
    && (r.status != Published ==> DeliveriesOf(d.sent, id) == [])
    && (r.status == Published ==>
          && r.message.Some? && r.approvedBy.Some? && r.approvedBy != r.createdBy && r.approvedBy != r.editedBy
          && r.publishedRef.Some? && r.publishedRef.value != ""
          && DeliveriesOf(d.sent, id) == [Delivery(id, r.body, r.publishedRef.value)])
  }

  ghost predicate Inv(space: char -> bool, d: Desk) {
    && (forall id | id in d.replies :: Sound(space, d, id))
    && (forall k | 0 <= k < |d.log| :: d.log[k].reply in d.replies)
    && (forall k | 0 <= k < |d.sent| :: d.sent[k].reply in d.replies)
  }

  lemma LogGrows(log: seq<Event>, e: Event, id: Id)
    ensures FirstAuthor(log + [e], id) ==
      if FirstAuthor(log, id).Some? then FirstAuthor(log, id)
      else if e.reply == id && (e.Made? || e.Edited? || e.Submitted?) then e.who else None
    ensures LastEditor(log + [e], id) == if e.Edited? && e.reply == id then e.who else LastEditor(log, id)
    ensures LastSubmission(log + [e], id) ==
      if e.Submitted? && e.reply == id then Some(e.body) else LastSubmission(log, id)
  {
    assert (log + [e])[..|log|] == log;
  }

  lemma SentGrows(sent: seq<Delivery>, x: Delivery, id: Id)
    ensures DeliveriesOf(sent + [x], id) == DeliveriesOf(sent, id) + if x.reply == id then [x] else []
  {
    assert (sent + [x])[..|sent|] == sent;
  }

  lemma {:induction false} NothingAbout(log: seq<Event>, sent: seq<Delivery>, id: Id)
    requires forall k | 0 <= k < |log| :: log[k].reply != id
    requires forall k | 0 <= k < |sent| :: sent[k].reply != id
    ensures FirstAuthor(log, id).None? && LastEditor(log, id).None? && DeliveriesOf(sent, id) == []
    decreases |log| + |sent|
  {
    if log != [] {
      NothingAbout(log[..|log| - 1], sent, id);
    } else if sent != [] {
      NothingAbout(log, sent[..|sent| - 1], id);
    }
  }

  /** Events and deliveries about one reply leave the others sound. */
  lemma OthersSound(space: char -> bool, d: Desk, d': Desk, e: Event, id: Id)
    requires id in d.replies && Sound(space, d, id) && e.reply != id
    requires id in d'.replies && d'.replies[id] == d.replies[id] && d'.log == d.log + [e]
    requires d'.sent == d.sent || (exists x: Delivery :: d'.sent == d.sent + [x] && x.reply == e.reply)
    ensures Sound(space, d', id)
  {
    hide FirstAuthor, LastEditor, LastSubmission, DeliveriesOf, Submittable, PassesChecks;
    LogGrows(d.log, e, id);
    if d'.sent != d.sent {
      var x: Delivery :| d'.sent == d.sent + [x] && x.reply == e.reply;
      SentGrows(d.sent, x, id);
    }
  }

  lemma StepKeeps(space: char -> bool, d: Desk, s: Step)
    requires Inv(space, d) && Enabled(d, s)
    ensures Inv(space, Next(space, d, s))
  {
    hide FirstAuthor, LastEditor, LastSubmission, DeliveriesOf, LongEnough, Trim, EditDistance.Distance, Sound;
    var d' := Next(space, d, s);
    if d' != d {
      var e := d'.log[|d.log|];
      assert d'.log == d.log + [e];
      forall id | id in d'.replies ensures Sound(space, d', id) {
        if e.reply != id {
          if d'.sent != d.sent { assert d'.sent == d.sent + [d'.sent[|d.sent|]]; }
          OthersSound(space, d, d', e, id);
        } else {
          TouchedSound(space, d, s, id);
        }
      }
    }
  }

  lemma TouchedSound(space: char -> bool, d: Desk, s: Step, id: Id)
    requires Inv(space, d) && Enabled(d, s) && Next(space, d, s) != d
    requires id == if s.Generate? then s.newId else s.id
    ensures id in Next(space, d, s).replies && Sound(space, Next(space, d, s), id)
  {
    hide FirstAuthor, LastEditor, LastSubmission, DeliveriesOf, LongEnough, Trim, EditDistance.Distance;
    var d' := Next(space, d, s);
    var e := d'.log[|d.log|];
    LogGrows(d.log, e, id);
    if s.Generate? { NothingAbout(d.log, d.sent, id); } else { assert Sound(space, d, id); }
    if d'.sent != d.sent { SentGrows(d.sent, d'.sent[|d.sent|], id); }
  }

  // ---------- all runs ----------

  ghost predicate Run(space: char -> bool, d: Desk, steps: seq<Step>)
    decreases |steps|
  {
    steps == [] || (Enabled(d, steps[0]) && Run(space, Next(space, d, steps[0]), steps[1..]))
  }

  function After(space: char -> bool, d: Desk, steps: seq<Step>): Desk
    decreases |steps|
  {
    if steps == [] then d else After(space, Next(space, d, steps[0]), steps[1..])
  }

  lemma {:induction false} RunKeeps(space: char -> bool, d: Desk, steps: seq<Step>)
    requires Inv(space, d) && Run(space, d, steps)
    ensures Inv(space, After(space, d, steps))
    decreases |steps|
  {
    hide Inv, Next, Enabled;
    if steps == [] {
    } else {
      StepKeeps(space, d, steps[0]);
      RunKeeps(space, Next(space, d, steps[0]), steps[1..]);
    }
  }

  /** Maker and checker: a published reply passed every check, left exactly once with the
      body that was last submitted, and was approved neither by its first recorded author
      nor by its last editor. Any other reply never left. */
  lemma PublishedIsSafe(space: char -> bool, steps: seq<Step>, id: Id)
    requires Run(space, EMPTY_DESK, steps) && id in After(space, EMPTY_DESK, steps).replies
    ensures var d := After(space, EMPTY_DESK, steps);
      var r := d.replies[id];
      if r.status != Published then DeliveriesOf(d.sent, id) == []
      else
        && r.message.Some? && r.publishedRef.Some?
        && DeliveriesOf(d.sent, id) == [Delivery(id, r.body, r.publishedRef.value)]
        && LastSubmission(d.log, id) == Some(r.body)
        && LongEnough(space, r.body) && PassesChecks(r)
        && r.approvedBy.Some? && FirstAuthor(d.log, id).Some?
        && r.approvedBy != FirstAuthor(d.log, id) && r.approvedBy != LastEditor(d.log, id)
  {
    hide Run, After, LongEnough, FirstAuthor, LastEditor, LastSubmission, DeliveriesOf;
    RunKeeps(space, EMPTY_DESK, steps);
    assert Sound(space, After(space, EMPTY_DESK, steps), id);
  }

  /** Only drafts, submissions and publications come about, and the checks amount to
      the verdict at generation: what was refused then can never be published. */
  lemma ChecksAreVerdict(space: char -> bool, steps: seq<Step>, id: Id)
    requires Run(space, EMPTY_DESK, steps) && id in After(space, EMPTY_DESK, steps).replies
    ensures var r := After(space, EMPTY_DESK, steps).replies[id];
      && r.status in {Draft, PendingApproval, Published}
      && (PassesChecks(r) <==> !r.abstained)
  {
    hide Run, After, LongEnough, FirstAuthor, LastEditor, LastSubmission, DeliveriesOf;
    RunKeeps(space, EMPTY_DESK, steps);
    assert Sound(space, After(space, EMPTY_DESK, steps), id);
  }

  /** What a step leaves as it was: the verdict always, everything once published. */
  lemma StepPreserves(space: char -> bool, d: Desk, s: Step, id: Id)
    requires Inv(space, d) && Enabled(d, s) && id in d.replies
    ensures id in Next(space, d, s).replies
    ensures var r, r' := d.replies[id], Next(space, d, s).replies[id];
      && r'.abstained == r.abstained && r'.message == r.message && r'.tenant == r.tenant
      && (r.status == Published ==> r' == r && (s.Approve? && s.id == id ==> Next(space, d, s) == d))
  {
    hide FirstAuthor, LastEditor, LastSubmission, DeliveriesOf, LongEnough, Trim, EditDistance.Distance;
    assert Sound(space, d, id);
  }

  /** A published reply never changes again. */
  lemma {:induction false} PublishedForever(space: char -> bool, d: Desk, steps: seq<Step>, id: Id)
    requires Inv(space, d) && Run(space, d, steps) && id in d.replies
    ensures var d' := After(space, d, steps);
      && id in d'.replies
      && d'.replies[id].abstained == d.replies[id].abstained
      && (d.replies[id].status == Published ==> d'.replies[id] == d.replies[id])
    decreases |steps|
  {
    hide Inv, Next, Enabled;
    if steps == [] {
    } else {
      StepKeeps(space, d, steps[0]);
      StepPreserves(space, d, steps[0], id);
      PublishedForever(space, Next(space, d, steps[0]), steps[1..], id);
    }
  }

  /** Approving again, by anyone, sends nothing and answers with the same reference. */
  lemma ApproveAgain(space: char -> bool, d: Desk, now: int, id: Id, tenant: Id, who: Id, sending: Sending)
    requires Inv(space, d) && id in d.replies && d.replies[id].tenant == tenant && d.replies[id].status == Published
    ensures d.replies[id].publishedRef.Some?
    ensures ApproveReply(d, now, id, tenant, who, sending) == (d, Ref(d.replies[id].publishedRef.value))
  {
    hide FirstAuthor, LastEditor, LastSubmission, DeliveriesOf, LongEnough;
    assert Sound(space, d, id);
  }

  /** The workflow is not stuck: a worker's reply that was not refused, with a long enough
      text, is published by two people in two steps; with one person it is not. */
  lemma TwoPeople(space: char -> bool, d: Desk, id: Id, now: int, a: Id, b: Id, ref: string)
    requires Inv(space, d) && id in d.replies && ref != ""
    requires var r := d.replies[id];
      r.status == Draft && !r.abstained && r.message.Some? && r.createdBy.None? && r.editedBy.None?
          && LongEnough(space, r.body)
    ensures var tenant := d.replies[id].tenant;
      var submitted := SubmitReply(space, d, now, id, tenant, a).0;
      var (e, out) := ApproveReply(submitted, now, id, tenant, b, Sent(ref));
      if a == b then e == submitted && out == Refused
      else
        && out == Ref(ref) && e.replies[id].status == Published
        && e.sent == d.sent + [Delivery(id, d.replies[id].body, ref)]
  {
    hide FirstAuthor, LastEditor, LastSubmission, DeliveriesOf, LongEnough;
    assert Sound(space, d, id);
  }

  // ---------- which replies can be published ----------

  /** Some continuation publishes the reply. */
  ghost predicate Publishable(space: char -> bool, d: Desk, id: Id) {
    exists steps: seq<Step> :: Run(space, d, steps) && PublishedIn(After(space, d, steps), id)
  }

  predicate PublishedIn(d: Desk, id: Id) { id in d.replies && d.replies[id].status == Published }

  /** The message a reply answers and the verdict on it never change. */
  lemma {:induction false} Constant(space: char -> bool, d: Desk, steps: seq<Step>, id: Id)
    requires Inv(space, d) && Run(space, d, steps) && id in d.replies
    ensures var d' := After(space, d, steps);
      && Inv(space, d') && id in d'.replies
      && d'.replies[id].abstained == d.replies[id].abstained && d'.replies[id].message == d.replies[id].message
    decreases |steps|
  {
    hide Inv, Next, Enabled;
    if steps == [] {
    } else {
      StepKeeps(space, d, steps[0]);
      StepPreserves(space, d, steps[0], id);
      Constant(space, Next(space, d, steps[0]), steps[1..], id);
    }
  }

  const TEN_LETTERS := "abcdefghij"

  lemma TenLettersStay(space: char -> bool)
    requires forall c | AsciiLetter(c) :: !space(c)
    ensures Trim(space, TEN_LETTERS) == TEN_LETTERS
  {
    var a, b := TrimSlice(space, TEN_LETTERS);
  }

  /** Edited and submitted by one person, then approved by another. */
  function Workflow(d: Desk, id: Id, author: Id, approver: Id): seq<Step>
    requires id in d.replies
  {
    var tenant := d.replies[id].tenant;
    [Edit(0, id, tenant, author, TEN_LETTERS), Submit(0, id, tenant, author),
        Approve(0, id, tenant, approver, Sent("ref"))]
  }

  function SomebodyElse(r: Reply): Id {
    if r.createdBy.Some? then r.createdBy.value + 1 else 1
  }

  lemma WorkflowPublishes(space: char -> bool, d: Desk, id: Id)
    requires forall c | AsciiLetter(c) :: !space(c)
    requires Inv(space, d) && id in d.replies && d.replies[id].status != Published
    requires d.replies[id].message.Some? && !d.replies[id].abstained
    ensures var steps := Workflow(d, id, 0, SomebodyElse(d.replies[id]));
      Run(space, d, steps) && PublishedIn(After(space, d, steps), id)
  {
    hide FirstAuthor, LastEditor, LastSubmission, DeliveriesOf, Trim, EditDistance.Distance, Sound;
    SoundIs(space, d, id);
    TenLettersStay(space);
    var r, other := d.replies[id], SomebodyElse(d.replies[id]);
    var steps := Workflow(d, id, 0, other);
    var d1 := Next(space, d, steps[0]);
    var d2 := Next(space, d1, steps[1]);
    assert d1.replies[id].status == Draft && PassesChecks(d1.replies[id]);
    assert d2.replies[id].status == PendingApproval && PassesChecks(d2.replies[id]);
    assert Some(other) !in {d2.replies[id].createdBy, d2.replies[id].editedBy};
    var d3 := Next(space, d2, steps[2]);
    assert PublishedIn(d3, id);
    hide Next, Enabled;
    ThreeSteps(space, d, steps);
  }

  lemma SoundIs(space: char -> bool, d: Desk, id: Id)
    requires Inv(space, d) && id in d.replies
    ensures var r := d.replies[id];
      && r.status in {Draft, PendingApproval, Published} && (PassesChecks(r) <==> !r.abstained)
      && (r.status == Published ==> r.message.Some? && PassesChecks(r))
  {
    hide FirstAuthor, LastEditor, LastSubmission, DeliveriesOf, LongEnough;
    assert Sound(space, d, id);
  }

  lemma ThreeSteps(space: char -> bool, d: Desk, steps: seq<Step>)
    requires |steps| == 3 && Enabled(d, steps[0])
    requires var d1 := Next(space, d, steps[0]);
      Enabled(d1, steps[1]) && Enabled(Next(space, d1, steps[1]), steps[2])
    ensures Run(space, d, steps)
    ensures After(space, d, steps) == Next(space, Next(space, Next(space, d, steps[0]), steps[1]), steps[2])
  {
    hide Next, Enabled;
    var d1 := Next(space, d, steps[0]);
    var d2 := Next(space, d1, steps[1]);
    var d3 := Next(space, d2, steps[2]);
    assert steps[1..][0] == steps[1] && steps[1..][1..] == steps[2..] && steps[2..][0] == steps[2]
        && steps[2..][1..] == [];
    assert Run(space, d2, steps[2..]) && After(space, d2, steps[2..]) == After(space, d3, []) == d3;
    assert Run(space, d1, steps[1..]) && After(space, d1, steps[1..]) == After(space, d2, steps[2..]);
  }

  lemma PublishableFrom(space: char -> bool, d: Desk, id: Id)
    requires forall c | AsciiLetter(c) :: !space(c)
    requires Inv(space, d) && id in d.replies
    ensures Publishable(space, d, id) <==> d.replies[id].message.Some? && !d.replies[id].abstained
  {
    hide Inv, Next, Enabled, Workflow;
    SoundIs(space, d, id);
    if d.replies[id].status == Published {
      assert Run(space, d, []) && PublishedIn(After(space, d, []), id);
    } else if d.replies[id].message.Some? && !d.replies[id].abstained {
      WorkflowPublishes(space, d, id);
    }
    if Publishable(space, d, id) {
      var steps: seq<Step> :| Run(space, d, steps) && PublishedIn(After(space, d, steps), id);
      Constant(space, d, steps, id);
      SoundIs(space, After(space, d, steps), id);
    }
  }

  /** At any time, some continuation publishes a reply if and only if it answers a message
      and was not refused when it was generated. */
  lemma PublishableIff(space: char -> bool, history: seq<Step>, id: Id)
    requires forall c | AsciiLetter(c) :: !space(c)
    requires Run(space, EMPTY_DESK, history) && id in After(space, EMPTY_DESK, history).replies
    ensures var d := After(space, EMPTY_DESK, history);
      Publishable(space, d, id) <==> d.replies[id].message.Some? && !d.replies[id].abstained
  {
    hide Run, After, Publishable;
    RunKeeps(space, EMPTY_DESK, history);
    PublishableFrom(space, After(space, EMPTY_DESK, history), id);
  }
}
