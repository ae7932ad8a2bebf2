/** One outbound message's row and everything its transactions touch, with each
    transaction as a function from the state before it to the state after it. */
module Settlement {
  import opened GoStrings
  import opened DeliveryStatus
  import opened SesNotification

  /** The reason column of a terminal submission failure. */
  datatype Reason = NoReason | ProviderRejected | RetriesExhausted | Cancelled

  datatype FeedbackReason =
    | ServerAccepted | TemporaryDelay | BounceReason(bounceType: BounceType)
    | ComplaintReported | NoFeedbackReason

  /** The identity of an outbox row; inserting one twice is a no-op. */
  datatype EventId =
    | EmailSent
    | EmailFailed
    | RecipientEvent(providerEventId: string, address: string, reason: FeedbackReason)
    | SuppressionAdded(address: string)

  /** `envelope` holds the normalised, non-empty to/cc/bcc addresses; `id`, `job`
      and `envelope` never change. `stamped` says that the time and the attempt of
      a preserved failure are both recorded. `meters` counts usage records. */
  datatype Ledger = Ledger(
    id: string, job: int, envelope: set<string>,
    status: Status, source: FailureSource, reason: Reason, stamped: bool,
    evidence: bool, providerId: string, trashed: bool,
    recipients: map<string, Status>,
    meters: nat, outbox: set<EventId>, suppressed: set<string>)
  {
    predicate PreTerminal() { status == Accepted || status == Sending }

    /** Open to being settled as sent once the provider is known to have the message. */
    predicate Settleable() {
      PreTerminal() || (status == Failed && source != Provider)
    }

    predicate Pending() { evidence && Settleable() }

    predicate CompleteFallback() {
      && stamped
      && (|| (reason == ProviderRejected && source == Provider)
          || ((reason == RetriesExhausted || reason == Cancelled) && source == Local))
    }

    function Rollup(): Status { Worst(recipients.Values) }
  }

  function Accepted0(id: string, job: int, envelope: set<string>): Ledger {
    Ledger(id, job, envelope, Accepted, Unset, NoReason, false, false, "", false, map[], 0, {}, {})
  }

  // ---- Worker transactions ----

  function Claim(l: Ledger, job: int): Ledger {
    if job != l.job || !l.PreTerminal() || l.CompleteFallback() then l
    else if l.trashed then l.(status := Failed, source := Local, reason := Cancelled)
    else l.(status := Sending)
  }

  function ReleaseClaim(l: Ledger, job: int): Ledger {
    if job == l.job && l.status == Sending then l.(status := Accepted) else l
  }

  function PreserveFailure(l: Ledger, job: int, source: FailureSource, reason: Reason): Ledger {
    if reason != NoReason && job == l.job && l.PreTerminal()
    then l.(status := Accepted, source := source, reason := reason, stamped := true)
    else l
  }

  /** The canonical sent side effects: one usage record and the email.sent row. */
  function FinalizeSent(l: Ledger): Ledger {
    l.(meters := l.meters + 1, outbox := l.outbox + {EmailSent})
  }

  function WithSentRows(envelope: set<string>, rows: map<string, Status>): map<string, Status> {
    map a | a in envelope + rows.Keys :: if a in rows then rows[a] else Sent
  }

  function SettleSent(l: Ledger): Ledger {
    l.(status := Sent, source := Unset, reason := NoReason, stamped := false,
       recipients := WithSentRows(l.envelope, l.recipients))
  }

  function FinalizeAccepted(l: Ledger): Ledger {
    if l.Pending() then FinalizeSent(SettleSent(l)) else l
  }

  function MarkSent(l: Ledger, providerId: string): Ledger {
    if l.status == Sending then FinalizeSent(SettleSent(l).(providerId := providerId)) else l
  }

  /** The guarded terminal write, with what it actually did. */
  datatype Settled = SettledSent | SettledFailed | SettledNothing

  function MarkFailed(l: Ledger, source: FailureSource, reason: Reason): (Ledger, Settled) {
    if l.Pending() then (FinalizeSent(SettleSent(l)), SettledSent)
    else if l.PreTerminal() && !l.evidence then
      (l.(status := Failed, source := source, reason := reason, outbox := l.outbox + {EmailFailed}), SettledFailed)
    else (l, SettledNothing)
  }

  // ---- Feedback transactions ----

  function RecordEvidence(l: Ledger, sesMessageId: string): Ledger {
    l.(evidence := true, providerId := if l.providerId == "" then sesMessageId else l.providerId)
  }

  function MergedRows(rows: map<string, Status>, address: string, status: Status): map<string, Status> {
    rows[address := if address in rows then Merge(rows[address], status) else status]
  }

  /** Writing the recomputed rollup to the message row. */
  function ApplyRollup(l: Ledger): Ledger {
    var rollup := l.Rollup();
    var next := ResolveMessageRollup(l.status, l.source, rollup);
    if rollup == NoStatus || next == l.status then l
    else if next == Failed then l.(status := Failed, source := if l.source == Unset then Provider else l.source)
    else if l.status == Failed then l.(status := next, source := Unset, reason := NoReason, stamped := false)
    else l.(status := next)
  }

  /** Every envelope recipient counts as applied, whether or not its status moves. */
  function RecordOutcome(l: Ledger, address: string, status: Status): Ledger
  {
    if address in l.envelope
    then ApplyRollup(l.(recipients := MergedRows(l.recipients, address, status)))
    else l
  }

  function ReasonFor(ev: Event, status: Status): FeedbackReason {
    match status
    case Delivered => ServerAccepted
    case Deferred => TemporaryDelay
    case Bounced => BounceReason(if ev.bounceType == NoBounceType then Undetermined else ev.bounceType)
    case Complained => ComplaintReported
    case _ => NoFeedbackReason
  }

  predicate Pushes(status: Status) { status == Delivered || status == Bounced || status == Complained }

  predicate AppliesTo(envelope: set<string>, r: RecipientOutcome) {
    Norm(r.address) != "" && r.status.Valid() && Norm(r.address) in envelope
  }

  predicate Applies(l: Ledger, r: RecipientOutcome) { AppliesTo(l.envelope, r) }

  function Suppress(l: Ledger, address: string): Ledger {
    if address in l.suppressed then l
    else l.(suppressed := l.suppressed + {address}, outbox := l.outbox + {SuppressionAdded(address)})
  }

  function Push(l: Ledger, ev: Event, address: string, status: Status): Ledger {
    if Pushes(status)
    then l.(outbox := l.outbox + {RecipientEvent(ev.providerEventId, address, ReasonFor(ev, status))})
    else l
  }

  function Outcome(l: Ledger, ev: Event, r: RecipientOutcome): Ledger {
    if !Applies(l, r) then l
    else
      var a := Norm(r.address);
      var recorded := RecordOutcome(l, a, r.status);
      var suppressed := if r.suppress then Suppress(recorded, a) else recorded;
      Push(suppressed, ev, a, r.status)
  }

  function Outcomes(l: Ledger, ev: Event, rs: seq<RecipientOutcome>): Ledger {
    if rs == [] then l
    else Outcome(Outcomes(l, ev, rs[..|rs| - 1]), ev, rs[|rs| - 1])
  }

  predicate SomeApplies(l: Ledger, rs: seq<RecipientOutcome>) {
    exists r :: r in rs && Applies(l, r)
  }

  lemma SomeAppliesNext(l: Ledger, rs: seq<RecipientOutcome>, i: nat)
    requires i < |rs|
    ensures SomeApplies(l, rs[..i + 1]) <==> SomeApplies(l, rs[..i]) || Applies(l, rs[i])
  {
    assert rs[..i + 1] == rs[..i] + [rs[i]];
    assert rs[i] in rs[..i + 1];
    forall r | r in rs[..i] ensures r in rs[..i + 1] {}
  }

  /** A bounce or a complaint outlives a reject; anything else becomes the provider's failure, without
      the stamp of an earlier one. */
  function RecordReject(l: Ledger): Ledger {
    if l.status == Bounced || l.status == Complained then l
    else l.(status := Failed, source := Provider, reason := ProviderRejected, stamped := false)
  }

  /** The address check in front of the transaction looks at addresses alone. */
  predicate Applicable(envelope: set<string>, ev: Event) {
    exists r :: r in ev.recipients && Norm(r.address) != "" && Norm(r.address) in envelope
  }

  /** A notification with nothing to say about this message. */
  predicate Irrelevant(envelope: set<string>, ev: Event) {
    ev.kind.RequiresApplicableRecipient() && !Applicable(envelope, ev)
  }

  /** The row after the acceptance a notification implies has been settled. */
  function Taken(l: Ledger, ev: Event): Ledger {
    if ev.kind.ImpliesProviderAcceptance() then FinalizeAccepted(RecordEvidence(l, ev.sesMessageId)) else l
  }

  function Process(l: Ledger, ev: Event): Ledger {
    if Irrelevant(l.envelope, ev) then l
    else
      var l2 := Outcomes(Taken(l, ev), ev, ev.recipients);
      if ev.kind.KindReject? && SomeApplies(l, ev.recipients)
      then RecordReject(l2).(outbox := l2.outbox + {EmailFailed})
      else l2
  }

  // ---- Correlation and the guards in front of the transaction ----

  /** The stored provider id is bare, in angle brackets, or in angle brackets with a region. */
  predicate ProviderIdMatches(stored: string, ses: string) {
    ses != "" && (stored == ses || stored == "<" + ses + ">" || "<" + ses + "@" <= stored)
  }

  predicate Correlates(l: Ledger, ev: Event) {
    ProviderIdMatches(l.providerId, ev.sesMessageId)
    || (ValidE2AMessageId(ev.e2aMessageId) && ev.e2aMessageId == l.id)
  }

  predicate WellStamped(ev: Event) {
    TrimSpace(ev.providerEventId) != "" && ev.occurredAt != 0
  }

  predicate Hears(l: Ledger, ev: Event) { WellStamped(ev) && Correlates(l, ev) }

  /** A notification that reaches the message and has something to say about it. */
  predicate Processes(l: Ledger, ev: Event) { Hears(l, ev) && !Irrelevant(l.envelope, ev) }

  function Notify(l: Ledger, ev: Event): Ledger {
    if Hears(l, ev) then Process(l, ev) else l
  }

  // ---- Frames ----

  /** Everything an outcome leaves alone, and what it only adds to. */
  ghost predicate SameBooks(l: Ledger, m: Ledger) {
    && m.id == l.id && m.job == l.job && m.envelope == l.envelope && m.evidence == l.evidence
    && m.providerId == l.providerId && m.trashed == l.trashed && m.meters == l.meters
    && l.outbox <= m.outbox && l.suppressed <= m.suppressed
    && (EmailSent in m.outbox ==> EmailSent in l.outbox)
    && (EmailFailed in m.outbox ==> EmailFailed in l.outbox)
  }

  lemma ApplyRollupFrame(l: Ledger)
    ensures var m := ApplyRollup(l);
      m == l.(status := m.status, source := m.source, reason := m.reason, stamped := m.stamped)
  {
  }

  lemma RecordOutcomeFrame(l: Ledger, a: string, s: Status)
    ensures var m := RecordOutcome(l, a, s);
      SameBooks(l, m) && m.outbox == l.outbox && m.suppressed == l.suppressed
      && m.recipients == if a in l.envelope then MergedRows(l.recipients, a, s) else l.recipients
  {
    ApplyRollupFrame(l.(recipients := MergedRows(l.recipients, a, s)));
  }

  lemma OutcomeFrame(l: Ledger, ev: Event, r: RecipientOutcome)
    ensures SameBooks(l, Outcome(l, ev, r))
    ensures Outcome(l, ev, r).recipients ==
      if Applies(l, r) then MergedRows(l.recipients, Norm(r.address), r.status) else l.recipients
  {
    RecordOutcomeFrame(l, Norm(r.address), r.status);
  }

  lemma {:induction false} OutcomesFrame(l: Ledger, ev: Event, rs: seq<RecipientOutcome>)
    ensures SameBooks(l, Outcomes(l, ev, rs))
  {
    if rs != [] {
      var init := rs[..|rs| - 1];
      OutcomesFrame(l, ev, init);
      OutcomeFrame(Outcomes(l, ev, init), ev, rs[|rs| - 1]);
    }
  }

  lemma TakenFrame(l: Ledger, ev: Event)
    ensures var m := Taken(l, ev);
      && m.id == l.id && m.job == l.job && m.envelope == l.envelope && m.trashed == l.trashed
      && m.suppressed == l.suppressed
      && (m.outbox == l.outbox || m.outbox == l.outbox + {EmailSent})
      && m.evidence == (l.evidence || ev.kind.ImpliesProviderAcceptance())
  {
  }
}
