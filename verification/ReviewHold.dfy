/** A held message: the row, the compare-and-set transactions that resolve it, and what each
    approving actor decides before it commits. */
module ReviewHold {
  import opened GoStrings
  import opened RecipientLists

  datatype Direction = Inbound | Outbound

  datatype HoldStatus =
    | PendingReview
    | Sent
    | ReviewApproved
    | ReviewRejected
    | ReviewExpiredApproved
    | ReviewExpiredRejected

  datatype Job = Job(id: int, recipients: seq<string>)

  datatype Draft = Draft(
    kind: string, fields: Fields, subject: string, bodyText: string, bodyHtml: string, attachments: string,
    emailMessageId: string, replyTo: seq<string>, conversationId: string, managedUnsubscribe: bool)

  /** The row with what its resolving transaction writes beside it. */
  datatype Hold = Hold(
    direction: Direction, owner: string, agentId: string, draft: Draft, status: HoldStatus,
    deadline: int, trashedAt: Option<int>, jobs: seq<Job>, sendJobId: Option<int>, localCopies: nat)

  /** A fresh hold. */
  predicate Fresh(h: Hold) {
    h.status == PendingReview && h.jobs == [] && h.sendJobId == None && h.localCopies == 0
  }

  // ---- The store calls that resolve a hold ----

  datatype Resolution =
    | ApproveAndAccept(target: HoldStatus, recipients: seq<string>)
    | ApproveAndDeliverLocal(user: string)
    | ExpireAndDeliverLocal
    | RejectPending(user: string)
    | ExpireReject
    | TransitionReview(agent: string, review: HoldStatus)

  datatype Outcome = Won | NotPending | NotFound | InvalidTarget | Failed

  function Target(r: Resolution): HoldStatus {
    match r
    case ApproveAndAccept(target, _) => target
    case ApproveAndDeliverLocal(_) => Sent
    case ExpireAndDeliverLocal => ReviewExpiredApproved
    case RejectPending(_) => ReviewRejected
    case ExpireReject => ReviewExpiredRejected
    case TransitionReview(_, target) => target
  }

  predicate TargetOk(r: Resolution) {
    match r
    case ApproveAndAccept(t, _) => t == Sent || t == ReviewApproved || t == ReviewExpiredApproved
    case TransitionReview(_, t) => t != PendingReview && t != Sent
    case _ => true
  }

  predicate Open(h: Hold, d: Direction) { h.direction == d && h.status == PendingReview && h.trashedAt == None }

  /** What a resolving call answers when its transaction does not fail. */
  function Answer(h: Hold, r: Resolution, now: int): Outcome {
    match r
    case ApproveAndAccept(_, _) => if !TargetOk(r) then InvalidTarget else if Open(h, Outbound) then Won else NotPending
    case ApproveAndDeliverLocal(user) =>
      if h.direction != Outbound || h.trashedAt != None then NotFound
      else if h.status != PendingReview then NotPending
      else if h.owner != user then NotFound else Won
    case ExpireAndDeliverLocal => if Open(h, Outbound) && h.deadline < now then Won else NotPending
    case RejectPending(user) =>
      if Open(h, Outbound) && h.owner == user then Won else if h.owner == user then NotPending else NotFound
    case ExpireReject => if Open(h, Outbound) then Won else NotPending
    case TransitionReview(agent, _) =>
      if !TargetOk(r) then InvalidTarget
      else if Open(h, Inbound) && (agent == "" || h.agentId == agent) then Won else NotPending
  }

  function Resolve(h: Hold, r: Resolution, now: int, jobId: int): Hold {
    if Answer(h, r, now) != Won then h
    else
      match r
      case ApproveAndAccept(target, recipients) =>
        h.(status := target, jobs := h.jobs + [Job(jobId, recipients)], sendJobId := Some(jobId))
      case ApproveAndDeliverLocal(_) => h.(status := Sent, localCopies := h.localCopies + 1)
      case ExpireAndDeliverLocal => h.(status := ReviewExpiredApproved, localCopies := h.localCopies + 1)
      case _ => h.(status := Target(r))
  }

  /** The lists of addresses the send job was given when a hold was resolved this way. */
  function JobsOf(r: Resolution): seq<seq<string>> {
    if r.ApproveAndAccept? then [r.recipients] else []
  }

  function CopiesOf(r: Resolution): nat {
    if r.ApproveAndDeliverLocal? || r.ExpireAndDeliverLocal? then 1 else 0
  }

  // ---- Rebuilding the send request ----

  datatype SendRequest = SendRequest(
    fields: Fields, subject: string, body: string, htmlBody: string, replyTo: string, replyToMessageId: string,
    conversationId: string, attachments: string, unsubscribe: bool)

  /** Foreign functions: address parsing, attachment decoding, the size of a composed message, and
      MIME composition (the HTTP status its error maps to, if any). */
  datatype Env = Env(
    parse: Parser, decode: string -> Option<string>, tooLarge: SendRequest -> bool,
    mimeError: SendRequest -> Option<int>,
    agentAddress: string, domainAlias: string)

  function Rebuild(env: Env, d: Draft, replyToMessageId: string): Result<SendRequest> {
    var attachments := if d.attachments == "" then Some("") else env.decode(d.attachments);
    if attachments.None? then Err("invalid attachments")
    else Ok(SendRequest(d.fields, d.subject, d.bodyText, d.bodyHtml, if |d.replyTo| > 0 then d.replyTo[0] else "",
      replyToMessageId, d.conversationId, attachments.value, d.managedUnsubscribe))
  }

  /** Human approval threads only replies. */
  function BuildSendRequestFromMessage(env: Env, d: Draft): Result<SendRequest> {
    Rebuild(env, d, if d.kind == "reply" then d.emailMessageId else "")
  }

  /** The sweep threads whatever names a message. */
  function SendRequestFromStoredMessage(env: Env, d: Draft): Result<SendRequest> {
    Rebuild(env, d, d.emailMessageId)
  }

  /** The sweep and a human approval rebuild the same request exactly when the draft is a reply, names
      no other message, or cannot be rebuilt at all; for a forward they differ. */
  lemma RebuildsAgree(env: Env, d: Draft)
    ensures BuildSendRequestFromMessage(env, d) == SendRequestFromStoredMessage(env, d) <==>
      (d.kind == "reply" || d.emailMessageId == "" || (d.attachments != "" && env.decode(d.attachments).None?))
  {
    if BuildSendRequestFromMessage(env, d).Ok? {
      assert BuildSendRequestFromMessage(env, d).value.replyToMessageId ==
        (if d.kind == "reply" then d.emailMessageId else "");
      assert SendRequestFromStoredMessage(env, d).value.replyToMessageId == d.emailMessageId;
    }
  }

  datatype Edits = Edits(
    subject: Option<string>, bodyText: Option<string>, bodyHtml: Option<string>, to: Option<seq<string>>,
    cc: Option<seq<string>>, bcc: Option<seq<string>>, attachments: Option<string>)

  function Edited<T>(edit: Option<T>, old_: T): T { if edit.Some? then edit.value else old_ }

  function Apply(e: Edits, d: Draft): Draft {
    d.(subject := Edited(e.subject, d.subject), bodyText := Edited(e.bodyText, d.bodyText),
       bodyHtml := Edited(e.bodyHtml, d.bodyHtml), attachments := Edited(e.attachments, d.attachments),
       fields := Fields(Edited(e.to, d.fields.to), Edited(e.cc, d.fields.cc), Edited(e.bcc, d.fields.bcc)))
  }

  // ---- Decisions ----

  datatype AgentLookup = Found(verified: bool, email: string) | AgentMissing | AgentFailed

  datatype DraftLoad = Loaded(status: HoldStatus) | DraftGone | DraftFailed

  /** What an approving actor sees besides the draft and the suppression lists. Nothing ties it to
      the row at the moment of the later compare-and-set. */
  datatype Observed = Observed(
    agent: AgentLookup, draft: DraftLoad, lookupFails: bool, queueWired: bool, issuerWired: bool, issues: bool)

  datatype Verdict = Leave | Refuse(httpStatus: int) | Expire | Queue(recipients: seq<string>) | Loopback

  function Hits(env: Env, suppressed: set<string>, f: Fields): set<string> { LookupKeys(env.parse, f) * suppressed }

  predicate SelfSend(env: Env, f: Fields) {
    f.cc == [] && f.bcc == [] && |f.to| == 1 && ToLower(TrimSpace(f.to[0])) == ToLower(env.agentAddress)
  }

  function Aliases(env: Env): set<string> { {ToLower(env.agentAddress), ToLower(env.domainAlias)} }

  /** The recipients of the composed message; a platform test keeps the agent's own address. */
  function Compose(env: Env, kind: string, req: SendRequest): Result<seq<string>> {
    match Recipients(env.parse, if kind == "test" then {} else Aliases(env), req.fields)
    case Err(e) => Err(e)
    case Ok(f) => if env.mimeError(req).None? then Ok(Envelope(f)) else Err("compose")
  }

  /** Recipient errors are validation errors. */
  function ComposeStatus(env: Env, kind: string, req: SendRequest): int {
    match Compose(env, kind, req)
    case Err(e) => if e == "compose" && env.mimeError(req).Some? then env.mimeError(req).value else 400
    case Ok(_) => 200
  }

  predicate OneRecipient(env: Env, req: SendRequest) {
    var r := Recipients(env.parse, Aliases(env), req.fields);
    r.Ok? && |Envelope(r.value)| == 1
  }

  /** The sweep's automatic approval of an expired outbound hold. */
  function SweepVerdict(env: Env, d: Draft, suppressed: set<string>, o: Observed): Verdict {
    if o.agent.AgentMissing? then Leave
    else if o.agent.AgentFailed? || !o.agent.verified then Expire
    else if !o.queueWired || !o.draft.Loaded? || o.draft.status != PendingReview then Leave
    else
      match SendRequestFromStoredMessage(env, d)
      case Err(_) => Expire
      case Ok(req) => SweepTail(env, d, req, suppressed, o)
  }

  function SweepTail(env: Env, d: Draft, req: SendRequest, suppressed: set<string>, o: Observed): Verdict {
    if LookupKeys(env.parse, req.fields) != {} && o.lookupFails then Leave
    else if Hits(env, suppressed, req.fields) != {} then Expire
    else if d.kind != "test" && SelfSend(env, req.fields) then Loopback
    else if req.unsubscribe && !OneRecipient(env, req) then Expire
    else if req.unsubscribe && (!o.issuerWired || !o.issues) then Leave
    else if Compose(env, d.kind, req).Err? then Expire
    else Queue(Compose(env, d.kind, req).value)
  }

  /** The part the two human approvals share: from the merged draft to the compare-and-set. */
  function HumanTail(env: Env, d: Draft, req: SendRequest, suppressed: set<string>, o: Observed): Verdict {
    if LookupKeys(env.parse, req.fields) != {} && o.lookupFails then Refuse(500)
    else if Hits(env, suppressed, req.fields) != {} then Refuse(422)
    else if req.unsubscribe && !OneRecipient(env, req) then Refuse(400)
    else if req.unsubscribe && (!o.issuerWired || !o.issues) then Refuse(500)
    else if !o.queueWired then Refuse(500)
    else if d.kind != "test" && SelfSend(env, req.fields) then Loopback
    else if Compose(env, d.kind, req).Err? then Refuse(ComposeStatus(env, d.kind, req))
    else Queue(Compose(env, d.kind, req).value)
  }

  function DashboardVerdict(
    env: Env, d: Draft, e: Edits, expectedEmail: string, suppressed: set<string>, o: Observed): Verdict
  {
    if !o.draft.Loaded? then Refuse(404)
    else if o.draft.status != PendingReview then Refuse(409)
    else if !o.agent.Found? then Refuse(500)
    else if expectedEmail != "" && o.agent.email != expectedEmail then Refuse(404)
    else if !o.agent.verified then Refuse(403)
    else
      match BuildSendRequestFromMessage(env, Apply(e, d))
      case Err(_) => Refuse(400)
      case Ok(req) => if env.tooLarge(req) then Refuse(413) else HumanTail(env, Apply(e, d), req, suppressed, o)
  }

  /** A magic link has no edits, and leaves the check that the hold is pending to the compare-and-set. */
  function MagicVerdict(env: Env, d: Draft, suppressed: set<string>, o: Observed): Verdict {
    if !o.agent.Found? then Refuse(500)
    else if !o.agent.verified then Refuse(403)
    else if !o.queueWired then Refuse(500)
    else if !o.draft.Loaded? then Refuse(404)
    else
      match BuildSendRequestFromMessage(env, d)
      case Err(_) => Refuse(400)
      case Ok(req) => HumanTail(env, d, req, suppressed, o)
  }

  /** Once the agent's own addresses are stripped, nobody is left of a self-send, or it cannot be read. */
  predicate Stripped(env: Env, f: Fields)
    requires SelfSend(env, f)
  {
    var a := env.parse(TrimSpace(f.to[0]));
    TrimSpace(f.to[0]) == "" || a.None? || ToLower(a.value) in Aliases(env)
  }

  lemma SelfSendReaches(env: Env, req: SendRequest)
    requires SelfSend(env, req.fields)
    ensures OneRecipient(env, req) <==> !Stripped(env, req.fields)
  {
    var f := req.fields;
    EnvelopeRefused(env.parse, Aliases(env), f);
    if !Stripped(env, f) {
      var a := ToLower(env.parse(TrimSpace(f.to[0])).value);
      assert Names(env.parse, f.to[0], a);
      assert Mentions(env.parse, f.to, a);
      OneIsExact(env, f, a);
    }
  }

  lemma OnlyElement(e: seq<string>, a: string)
    requires Distinct(e) && a in e && forall b :: b in e ==> b == a
    ensures |e| == 1
  {
    assert e[0] in e && e[|e| - 1] in e;
  }

  lemma OneIsExact(env: Env, f: Fields, a: string)
    requires SelfSend(env, f) && Recipients(env.parse, Aliases(env), f).Ok?
    requires a !in Aliases(env) && Names(env.parse, f.to[0], a)
    ensures |Envelope(Recipients(env.parse, Aliases(env), f).value)| == 1
  {
    EnvelopeIsExact(env.parse, Aliases(env), f);
    assert Mentions(env.parse, f.to, a);
    OnlyElement(Envelope(Recipients(env.parse, Aliases(env), f).value), a);
  }

  /** Exactly when the two paths part on the same draft: the sweep delivers it locally and a human is
      refused. It is a cleared self-send, and either it carries a managed unsubscribe link that is
      counted as having no recipient or has no issuer, or the queue it does not need is missing. */
  lemma ManagedSelfSendParts(env: Env, d: Draft, req: SendRequest, suppressed: set<string>, o: Observed)
    ensures var human := HumanTail(env, d, req, suppressed, o);
      var cleared := Hits(env, suppressed, req.fields) == {}
        && !(LookupKeys(env.parse, req.fields) != {} && o.lookupFails);
      var link := req.unsubscribe && SelfSend(env, req.fields) && Stripped(env, req.fields);
      SweepTail(env, d, req, suppressed, o) == Loopback && human.Refuse? <==>
        cleared && d.kind != "test" && SelfSend(env, req.fields)
        && (link || (req.unsubscribe && !(o.issuerWired && o.issues)) || !o.queueWired)
  {
    if SelfSend(env, req.fields) {
      SelfSendReaches(env, req);
    }
  }

  /** A send to `recipients` was cleared: all its addresses were looked up and none was suppressed. */
  predicate Cleared(env: Env, f: Fields, suppressed: set<string>, recipients: seq<string>) {
    && Hits(env, suppressed, f) == {}
    && forall i :: 0 <= i < |recipients| ==> recipients[i] in LookupKeys(env.parse, f) && recipients[i] !in suppressed
  }

  // ---- Everybody is reached ----

  /** The entry names the address. */
  predicate Says(env: Env, raw: string, a: string) {
    TrimSpace(raw) != "" && env.parse(TrimSpace(raw)).Some? && ToLower(env.parse(TrimSpace(raw)).value) == a
  }

  predicate SaidIn(env: Env, field: seq<string>, a: string) { exists raw :: raw in field && Says(env, raw, a) }

  /** A draft of this kind with these fields is to reach the address: some field names it, and it is not
      one of the agent's own, unless the draft is a platform test. */
  predicate ToBeReached(env: Env, kind: string, to: seq<string>, cc: seq<string>, bcc: seq<string>, a: string) {
    && (SaidIn(env, to, a) || SaidIn(env, cc, a) || SaidIn(env, bcc, a))
    && (kind == "test" || (a != ToLower(env.agentAddress) && a != ToLower(env.domainAlias)))
  }

  /** The recipients are everybody to be reached, nobody else, and nobody twice. */
  ghost predicate ReachesAll(
    env: Env, kind: string, to: seq<string>, cc: seq<string>, bcc: seq<string>, recipients: seq<string>)
  {
    && (forall i, j :: 0 <= i < j < |recipients| ==> recipients[i] != recipients[j])
    && forall a :: a in recipients <==> ToBeReached(env, kind, to, cc, bcc, a)
  }

  lemma MentionsIsSaid(env: Env, field: seq<string>, a: string)
    ensures Mentions(env.parse, field, a) <==> SaidIn(env, field, a)
  {
    if SaidIn(env, field, a) {
      var raw :| raw in field && Says(env, raw, a);
      var i :| 0 <= i < |field| && field[i] == raw;
      assert Names(env.parse, field[i], a);
    }
    if Mentions(env.parse, field, a) {
      var i :| 0 <= i < |field| && Names(env.parse, field[i], a);
      assert Says(env, field[i], a);
    }
  }

  lemma EnvelopeReachesAll(env: Env, kind: string, f: Fields)
    requires Recipients(env.parse, if kind == "test" then {} else Aliases(env), f).Ok?
    ensures var r := Recipients(env.parse, if kind == "test" then {} else Aliases(env), f);
      ReachesAll(env, kind, f.to, f.cc, f.bcc, Envelope(r.value))
  {
    var aliases := if kind == "test" then {} else Aliases(env);
    EnvelopeIsExact(env.parse, aliases, f);
    forall a ensures Wanted(env.parse, aliases, f, a) <==> ToBeReached(env, kind, f.to, f.cc, f.bcc, a) {
      MentionsIsSaid(env, f.to, a);
      MentionsIsSaid(env, f.cc, a);
      MentionsIsSaid(env, f.bcc, a);
    }
  }

  lemma ComposedReachesAll(env: Env, kind: string, req: SendRequest)
    requires Compose(env, kind, req).Ok?
    ensures ReachesAll(env, kind, req.fields.to, req.fields.cc, req.fields.bcc, Compose(env, kind, req).value)
  {
    EnvelopeReachesAll(env, kind, req.fields);
  }

  /** Whoever queues a send queues it for everybody the final draft names: the sweep and a magic link
      for the stored fields. */
  lemma QueuesForAll(env: Env, d: Draft, suppressed: set<string>, o: Observed)
    ensures var v := SweepVerdict(env, d, suppressed, o);
      v.Queue? ==> ReachesAll(env, d.kind, d.fields.to, d.fields.cc, d.fields.bcc, v.recipients)
    ensures var v := MagicVerdict(env, d, suppressed, o);
      v.Queue? ==> ReachesAll(env, d.kind, d.fields.to, d.fields.cc, d.fields.bcc, v.recipients)
  {
    if SweepVerdict(env, d, suppressed, o).Queue? {
      ComposedReachesAll(env, d.kind, SendRequestFromStoredMessage(env, d).value);
    }
    if MagicVerdict(env, d, suppressed, o).Queue? {
      ComposedReachesAll(env, d.kind, BuildSendRequestFromMessage(env, d).value);
    }
  }

  /** And the dashboard, field by field, for what the reviewer put in its place if anything. */
  lemma EditedQueuesForAll(env: Env, d: Draft, e: Edits, email: string, suppressed: set<string>, o: Observed)
    ensures var v := DashboardVerdict(env, d, e, email, suppressed, o);
      var to := if e.to.Some? then e.to.value else d.fields.to;
      var cc := if e.cc.Some? then e.cc.value else d.fields.cc;
      var bcc := if e.bcc.Some? then e.bcc.value else d.fields.bcc;
      v.Queue? ==> ReachesAll(env, d.kind, to, cc, bcc, v.recipients)
  {
    if DashboardVerdict(env, d, e, email, suppressed, o).Queue? {
      ComposedReachesAll(env, d.kind, BuildSendRequestFromMessage(env, Apply(e, d)).value);
    }
  }

  lemma ComposedIsCleared(env: Env, kind: string, req: SendRequest, suppressed: set<string>)
    requires CleanParser(env.parse) && Compose(env, kind, req).Ok? && Hits(env, suppressed, req.fields) == {}
    ensures Cleared(env, req.fields, suppressed, Compose(env, kind, req).value)
    ensures LookupKeys(env.parse, req.fields) != {}
  {
    var aliases := if kind == "test" then {} else Aliases(env);
    var f := Recipients(env.parse, aliases, req.fields).value;
    EnvelopeIsLookedUp(env.parse, aliases, req.fields);
    assert Envelope(f)[0] in Envelope(f);
    var out := Compose(env, kind, req).value;
    var hits := Hits(env, suppressed, req.fields);
    forall i | 0 <= i < |out| ensures out[i] in LookupKeys(env.parse, req.fields) && out[i] !in suppressed {
      var a := out[i];
      assert a in Envelope(f);
      assert a !in hits;
    }
  }

  lemma TailIsCleared(env: Env, d: Draft, req: SendRequest, suppressed: set<string>, o: Observed)
    requires CleanParser(env.parse)
    ensures var v := HumanTail(env, d, req, suppressed, o);
      !v.Expire? && (v.Queue? ==> !o.lookupFails && Cleared(env, req.fields, suppressed, v.recipients))
  {
    if HumanTail(env, d, req, suppressed, o).Queue? {
      ComposedIsCleared(env, d.kind, req, suppressed);
    }
  }

  /** Whoever queues a send looked its addresses up with success and found none of them suppressed;
      and a human approval never gives a hold up. */
  lemma SweepQueuesCleared(env: Env, d: Draft, suppressed: set<string>, o: Observed)
    requires CleanParser(env.parse)
    ensures var v := SweepVerdict(env, d, suppressed, o);
      v.Queue? ==> !o.lookupFails && Cleared(env, d.fields, suppressed, v.recipients)
  {
    if SweepVerdict(env, d, suppressed, o).Queue? {
      ComposedIsCleared(env, d.kind, SendRequestFromStoredMessage(env, d).value, suppressed);
    }
  }

  lemma MagicQueuesCleared(env: Env, d: Draft, suppressed: set<string>, o: Observed)
    requires CleanParser(env.parse)
    ensures var v := MagicVerdict(env, d, suppressed, o);
      !v.Expire? && (v.Queue? ==> !o.lookupFails && Cleared(env, d.fields, suppressed, v.recipients))
  {
    var m := BuildSendRequestFromMessage(env, d);
    if m.Ok? {
      TailIsCleared(env, d, m.value, suppressed, o);
    }
  }

  lemma DashboardQueuesCleared(env: Env, d: Draft, e: Edits, email: string, suppressed: set<string>, o: Observed)
    requires CleanParser(env.parse)
    ensures var v := DashboardVerdict(env, d, e, email, suppressed, o);
      !v.Expire? && (v.Queue? ==> !o.lookupFails && Cleared(env, Apply(e, d).fields, suppressed, v.recipients))
  {
    var m := BuildSendRequestFromMessage(env, Apply(e, d));
    if m.Ok? {
      TailIsCleared(env, Apply(e, d), m.value, suppressed, o);
    }
  }
}
