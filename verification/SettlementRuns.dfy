/** Every interleaving of worker, reconciler, feedback and trash transactions, with
    crashes between them, and what all reachable states keep. */
module SettlementRuns {
  import opened GoStrings
  import opened DeliveryStatus
  import opened SesNotification
  import opened Settlement

  /** A transaction either commits whole or, as `Aborted`, leaves no trace: a crash,
      a failed usage record or a lost connection. */
  datatype Step =
    | Claiming(job: int)
    | Releasing(job: int)
    | Preserving(job: int, source: FailureSource, reason: Reason)
    | MarkingSent(providerId: string)
    | MarkingFailed(source: FailureSource, reason: Reason)
    | Notifying(ev: Event)
    | Trashing(trashed: bool)
    | Unsuppressing(address: string)
    | Aborted

  function Next(l: Ledger, s: Step): Ledger {
    match s
    case Claiming(job) => Claim(l, job)
    case Releasing(job) => ReleaseClaim(l, job)
    case Preserving(job, source, reason) => PreserveFailure(l, job, source, reason)
    case MarkingSent(providerId) => MarkSent(l, providerId)
    case MarkingFailed(source, reason) => MarkFailed(l, source, reason).0
    case Notifying(ev) => Notify(l, ev)
    case Trashing(trashed) => l.(trashed := trashed)
    case Unsuppressing(a) => l.(suppressed := l.suppressed - {a})
    case Aborted => l
  }

  /** Notifications come from the parser. */
  predicate Parsed(s: Step) { s.Notifying? ==> KindConsistent(s.ev) }

  predicate AllParsed(steps: seq<Step>) { forall s :: s in steps ==> Parsed(s) }

  function Exec(l: Ledger, steps: seq<Step>): Ledger {
    if steps == [] then l else Next(Exec(l, steps[..|steps| - 1]), steps[|steps| - 1])
  }

  // ---- The invariant ----

  predicate TopRank(rows: map<string, Status>, bound: nat) {
    forall a :: a in rows ==> Rank(rows[a]) <= bound
  }

  ghost predicate RowsOk(l: Ledger) {
    forall a :: a in l.recipients ==>
      && a in l.envelope
      && Reportable(l.recipients[a])
      && (l.recipients[a].ProvesProviderAcceptance() && l.recipients[a] != Sent ==> l.evidence)
  }

  ghost predicate Untouched(l: Ledger) {
    l.recipients == map[] && l.meters == 0 && !l.evidence
  }

  /** The invariant except for the provenance of a failure, which a reject fixes
      only at its end. */
  ghost predicate Loose(l: Ledger) {
    && RowsOk(l)
    && l.status.Valid() && l.status != Queued
    && l.meters == (if EmailSent in l.outbox then 1 else 0)
    && (l.PreTerminal() ==> Untouched(l))
    && (l.status == Failed ==> TopRank(l.recipients, Rank(Failed)))
    && (l.status.ProvesProviderAcceptance() ==>
         && l.source == Unset && l.reason == NoReason && !l.stamped
         && TopRank(l.recipients, Rank(l.status))
         && (l.status != Sent ==> l.status in l.recipients.Values))
    && (l.status == Sent || l.status == Deferred || l.status == Delivered ==>
         l.meters == 1 && l.recipients.Keys == l.envelope)
  }

  ghost predicate Inv(l: Ledger) {
    Loose(l) && (l.Settleable() ==> Untouched(l))
  }

  lemma RollupFacts(rows: map<string, Status>)
    requires rows != map[]
    requires forall a :: a in rows ==> Reportable(rows[a])
    ensures Worst(rows.Values) in rows.Values && Reportable(Worst(rows.Values))
    ensures TopRank(rows, Rank(Worst(rows.Values)))
  {
    var a :| a in rows;
    assert rows[a] in rows.Values;
    WorstIsUpperBound(rows.Values, rows[a]);
    forall b | b in rows ensures Rank(rows[b]) <= Rank(Worst(rows.Values)) {
      assert rows[b] in rows.Values;
      WorstIsUpperBound(rows.Values, rows[b]);
    }
  }

  /** Merging an outcome in: the address is raised, nobody falls, nobody else moves. */
  lemma MergedRowsFacts(rows: map<string, Status>, a: string, s: Status)
    requires Reportable(s) && forall b :: b in rows ==> Reportable(rows[b])
    ensures var m := MergedRows(rows, a, s);
      && m.Keys == rows.Keys + {a}
      && (forall b :: b in m ==> Reportable(m[b]))
      && (forall b :: b in rows ==> Rank(rows[b]) <= Rank(m[b]) && (b != a ==> m[b] == rows[b]))
      && Rank(s) <= Rank(m[a])
      && (m[a] == s || (a in rows && m[a] == rows[a]))
      && Rank(Worst(m.Values)) >= Rank(s)
      && (forall b :: b in rows ==> Rank(rows[b]) <= Rank(Worst(m.Values)))
  {
    var m := MergedRows(rows, a, s);
    RollupFacts(m);
  }

  lemma MergedRowsOk(l: Ledger, a: string, s: Status)
    requires RowsOk(l) && a in l.envelope && Reportable(s) && (s == Failed || l.evidence)
    ensures RowsOk(l.(recipients := MergedRows(l.recipients, a, s)))
  {
    MergedRowsFacts(l.recipients, a, s);
  }

  /** What a settled row shows next is the worst of its rows, and never less than before. */
  lemma RollupRises(l: Ledger, a: string, s: Status)
    requires Loose(l) && l.status.ProvesProviderAcceptance() && Reportable(s)
    ensures var rows := MergedRows(l.recipients, a, s); var top := Worst(rows.Values);
      && TopRank(rows, Rank(top)) && top in rows.Values && Reportable(top)
      && Rank(l.status) <= Rank(top) && Rank(s) <= Rank(top)
  {
    var rows := MergedRows(l.recipients, a, s);
    MergedRowsFacts(l.recipients, a, s);
    RollupFacts(rows);
    if l.status != Sent {
      var b :| b in l.recipients && l.recipients[b] == l.status;
      assert b in rows && Rank(rows[b]) >= Rank(l.status);
    }
  }

  /** Rows and their worst status, put on a settled row, make a consistent row. */
  lemma ShownIsLoose(l: Ledger, rows: map<string, Status>, top: Status)
    requires Loose(l) && l.status.ProvesProviderAcceptance() && RowsOk(l.(recipients := rows))
    requires l.recipients.Keys <= rows.Keys && (l.recipients.Keys == l.envelope ==> rows.Keys == l.envelope)
    requires TopRank(rows, Rank(top)) && top in rows.Values && Reportable(top) && Rank(l.status) <= Rank(top)
    ensures Loose(l.(recipients := rows, status := top, source := if top == Failed then Provider else Unset))
  {
    var n := l.(recipients := rows, status := top, source := if top == Failed then Provider else Unset);
    assert RowsOk(n) by {
      assert RowsOk(l.(recipients := rows));
    }
  }

  lemma RecordOnSentIs(l: Ledger, a: string, s: Status)
    requires a in l.envelope && l.status.ProvesProviderAcceptance() && l.source == Unset
    requires Reportable(Worst(MergedRows(l.recipients, a, s).Values))
    ensures var rows := MergedRows(l.recipients, a, s); var top := Worst(rows.Values);
      RecordOutcome(l, a, s) ==
        l.(recipients := rows, status := top, source := if top == Failed then Provider else Unset)
  {
  }

  /** A message already shown by its rows follows the worst of them. */
  lemma RecordOnSent(l: Ledger, a: string, s: Status)
    requires Loose(l) && a in l.envelope && Reportable(s) && (s == Failed || l.evidence)
    requires l.status.ProvesProviderAcceptance()
    ensures var n := RecordOutcome(l, a, s);
      Loose(n) && !n.Settleable() && Rank(l.status) <= Rank(n.status) && Rank(s) <= Rank(n.status)
  {
    var rows := MergedRows(l.recipients, a, s);
    RollupRises(l, a, s);
    MergedRowsOk(l, a, s);
    RecordOnSentIs(l, a, s);
    assert rows.Keys == l.recipients.Keys + {a};
    ShownIsLoose(l, rows, Worst(rows.Values));
  }

  lemma RecordOnFailed(l: Ledger, a: string, s: Status)
    requires Loose(l) && a in l.envelope && Reportable(s) && (s == Failed || (l.evidence && l.source == Provider))
    requires l.status == Failed
    ensures var n := RecordOutcome(l, a, s);
      Loose(n) && Rank(n.status) >= Rank(Failed) && (l.source == Provider ==> !n.Settleable())
  {
    var rows := MergedRows(l.recipients, a, s);
    MergedRowsFacts(l.recipients, a, s);
    RollupFacts(rows);
    var top := Worst(rows.Values);
    var n := RecordOutcome(l, a, s);
    if Rank(top) > Rank(Failed) {
      assert n.status == top && n.source == Unset && n.recipients == rows;
    } else {
      if s == Failed {
        assert top == Failed;
      }
      assert n == l.(recipients := rows);
    }
  }

  lemma RecordOnPreTerminal(l: Ledger, a: string)
    requires Loose(l) && a in l.envelope && l.PreTerminal()
    ensures var n := RecordOutcome(l, a, Failed);
      Loose(n) && n.status == Failed
  {
    var rows := MergedRows(l.recipients, a, Failed);
    assert rows == map[a := Failed];
    assert rows[a] == Failed && Failed in rows.Values;
    RollupFacts(rows);
    var n := RecordOutcome(l, a, Failed);
    assert n == l.(recipients := rows, status := Failed, source := if l.source == Unset then Provider else l.source);
  }

  lemma RecordOutcomeKeeps(l: Ledger, a: string, s: Status)
    requires Loose(l) && a in l.envelope && Reportable(s)
    requires s == Failed || (l.evidence && !l.Settleable())
    ensures Loose(RecordOutcome(l, a, s))
    ensures !l.Settleable() ==> !RecordOutcome(l, a, s).Settleable()
    ensures s == Failed ==> Rank(RecordOutcome(l, a, s).status) >= Rank(Failed)
    ensures Rank(l.status) <= Rank(RecordOutcome(l, a, s).status)
  {
    if l.status.ProvesProviderAcceptance() {
      RecordOnSent(l, a, s);
    } else if l.status == Failed {
      RecordOnFailed(l, a, s);
    } else {
      RecordOnPreTerminal(l, a);
    }
  }

  lemma OutcomeKeeps(l: Ledger, ev: Event, r: RecipientOutcome)
    requires Loose(l) && KindConsistent(ev) && r in ev.recipients
    requires ev.kind.KindReject? || (l.evidence && !l.Settleable())
    ensures Loose(Outcome(l, ev, r))
    ensures !l.Settleable() ==> !Outcome(l, ev, r).Settleable()
    ensures ev.kind.KindReject? && Applies(l, r) ==> Rank(Outcome(l, ev, r).status) >= Rank(Failed)
    ensures Rank(l.status) <= Rank(Outcome(l, ev, r).status)
  {
    ConsistentOutcomes(ev, r);
    OutcomeFrame(l, ev, r);
    if Applies(l, r) {
      RecordOutcomeKeeps(l, Norm(r.address), r.status);
      var n := RecordOutcome(l, Norm(r.address), r.status);
      var m := Outcome(l, ev, r);
      assert m == n.(outbox := m.outbox, suppressed := m.suppressed);
    }
  }

  lemma {:induction false} OutcomesKeep(l: Ledger, ev: Event, rs: seq<RecipientOutcome>)
    requires Loose(l) && KindConsistent(ev) && (forall r :: r in rs ==> r in ev.recipients)
    requires ev.kind.KindReject? || (l.evidence && !l.Settleable())
    ensures Loose(Outcomes(l, ev, rs))
    ensures !l.Settleable() ==> !Outcomes(l, ev, rs).Settleable()
    ensures ev.kind.KindReject? && SomeApplies(l, rs) ==> Rank(Outcomes(l, ev, rs).status) >= Rank(Failed)
    ensures Rank(l.status) <= Rank(Outcomes(l, ev, rs).status)
  {
    if rs != [] {
      var init, last := rs[..|rs| - 1], rs[|rs| - 1];
      OutcomesKeep(l, ev, init);
      OutcomesFrame(l, ev, init);
      OutcomeKeeps(Outcomes(l, ev, init), ev, last);
      SomeAppliesNext(l, rs, |init|);
      assert rs[..|rs|] == rs;
    }
  }

  lemma FinalizeKeeps(l: Ledger, sesMessageId: string)
    requires Inv(l)
    ensures var m := FinalizeAccepted(RecordEvidence(l, sesMessageId));
      Inv(m) && m.evidence && !m.Settleable() && m.envelope == l.envelope
      && (l.status != Failed ==> Rank(l.status) <= Rank(m.status))
      && (l.status == Failed ==>
            if l.source == Provider then m.status == Failed && m.source == Provider else m.status == Sent)
  {
    var e := RecordEvidence(l, sesMessageId);
    assert e.Settleable() <==> l.Settleable();
    if e.Pending() {
      var s := SettleSent(e);
      assert s.recipients.Keys == l.envelope;
    }
  }

  lemma AcceptingKeeps(l: Ledger, ev: Event)
    requires Inv(l) && KindConsistent(ev) && ev.kind.ImpliesProviderAcceptance()
    requires !Irrelevant(l.envelope, ev)
    ensures var m := Process(l, ev);
      && Inv(m) && !m.Settleable() && m.evidence
      && (l.status != Failed ==> Rank(l.status) <= Rank(m.status))
      && (l.status == Failed && l.source == Provider ==> Rank(m.status) >= Rank(Failed))
  {
    var m := Taken(l, ev);
    FinalizeKeeps(l, ev.sesMessageId);
    OutcomesKeep(m, ev, ev.recipients);
    OutcomesFrame(m, ev, ev.recipients);
    assert Process(l, ev) == Outcomes(m, ev, ev.recipients);
  }

  /** A failure the provider confirmed, or anything it can still become. */
  predicate ProviderFate(l: Ledger) {
    (l.status == Failed && l.source == Provider) || l.status == Bounced || l.status == Complained
  }

  lemma RejectedIsFinal(l: Ledger)
    requires Loose(l) && Rank(l.status) >= Rank(Failed)
    ensures Inv(RecordReject(l)) && ProviderFate(RecordReject(l)) && Rank(l.status) <= Rank(RecordReject(l).status)
  {
  }

  lemma RejectingKeeps(l: Ledger, ev: Event)
    requires Inv(l) && KindConsistent(ev) && ev.kind.KindReject? && Applicable(l.envelope, ev)
    ensures var m := Process(l, ev); Inv(m) && ProviderFate(m) && Rank(l.status) <= Rank(m.status)
  {
    OutcomesKeep(l, ev, ev.recipients);
    RejectApplies(l, ev);
    var m := Outcomes(l, ev, ev.recipients);
    RejectedIsFinal(m);
    var n := RecordReject(m);
    assert Process(l, ev) == n.(outbox := m.outbox + {EmailFailed});
    assert n.outbox == m.outbox;
  }

  lemma OtherChangesNothing(l: Ledger, ev: Event)
    requires KindConsistent(ev) && (ev.kind.KindOther? || Irrelevant(l.envelope, ev))
    ensures Process(l, ev) == l
  {
  }

  lemma ProcessKeeps(l: Ledger, ev: Event)
    requires Inv(l) && KindConsistent(ev)
    ensures var m := Process(l, ev);
      && Inv(m)
      && (ev.kind.ImpliesProviderAcceptance() && m != l ==> m.evidence && !m.Settleable())
      && (l.status != Failed ==> Rank(l.status) <= Rank(m.status))
      && (l.status == Failed && l.source == Provider ==> Rank(m.status) >= Rank(Failed))
      && (!ev.kind.ImpliesProviderAcceptance() && m != l ==> ProviderFate(m) && Rank(l.status) <= Rank(m.status))
  {
    if ev.kind.KindOther? || Irrelevant(l.envelope, ev) {
      OtherChangesNothing(l, ev);
    } else if ev.kind.ImpliesProviderAcceptance() {
      AcceptingKeeps(l, ev);
    } else {
      RejectingKeeps(l, ev);
    }
  }

  /** A parsed reject that names an envelope address is recorded. */
  lemma RejectApplies(l: Ledger, ev: Event)
    requires KindConsistent(ev) && ev.kind.KindReject? && Applicable(l.envelope, ev)
    ensures SomeApplies(l, ev.recipients)
  {
    var r :| r in ev.recipients && Norm(r.address) != "" && Norm(r.address) in l.envelope;
    assert Applies(l, r);
  }

  lemma NotifyKeeps(l: Ledger, ev: Event)
    requires Inv(l) && KindConsistent(ev)
    ensures Inv(Notify(l, ev))
  {
    ProcessKeeps(l, ev);
  }

  lemma WorkerStepKeeps(l: Ledger, s: Step)
    requires Inv(l) && !s.Notifying?
    ensures Inv(Next(l, s))
  {
    match s
    case MarkingSent(providerId) =>
      if l.status == Sending {
        assert Next(l, s).recipients.Keys == l.envelope;
      }
    case _ =>
  }

  lemma {:induction false} ReachableKeeps(l: Ledger, steps: seq<Step>)
    requires Inv(l) && AllParsed(steps)
    ensures Inv(Exec(l, steps))
  {
    if steps != [] {
      var init, last := steps[..|steps| - 1], steps[|steps| - 1];
      ReachableKeeps(l, init);
      assert Parsed(last);
      if last.Notifying? {
        NotifyKeeps(Exec(l, init), last.ev);
      } else {
        WorkerStepKeeps(Exec(l, init), last);
      }
    }
  }

  lemma InitKeeps(id: string, job: int, envelope: set<string>)
    ensures Inv(Accepted0(id, job, envelope))
  {
  }

  // ---- Main results over every run ----

  /** A message is metered exactly as often as an email.sent row exists for it, and
      at most once, whatever the interleaving of worker, reconciler and feedback. */
  lemma MeteredOnce(id: string, job: int, envelope: set<string>, steps: seq<Step>)
    requires AllParsed(steps)
    ensures var l := Exec(Accepted0(id, job, envelope), steps);
      && l.meters <= 1
      && (l.meters == 1 <==> EmailSent in l.outbox)
      && (l.status == Sent || l.status == Deferred || l.status == Delivered ==> l.meters == 1)
  {
    InitKeeps(id, job, envelope);
    ReachableKeeps(Accepted0(id, job, envelope), steps);
  }

  /** Evidence of acceptance always means a settled row, and a recipient status that
      only the provider can report means evidence. */
  lemma EvidenceMeansSettled(id: string, job: int, envelope: set<string>, steps: seq<Step>, a: string)
    requires AllParsed(steps)
    ensures var l := Exec(Accepted0(id, job, envelope), steps);
      && (l.evidence ==> !l.Settleable())
      && (a in l.recipients && l.recipients[a].ProvesProviderAcceptance() ==>
           !l.Settleable() && a in envelope && (l.recipients[a] != Sent ==> l.evidence))
  {
    InitKeeps(id, job, envelope);
    ReachableKeeps(Accepted0(id, job, envelope), steps);
    ReachableConstants(Accepted0(id, job, envelope), steps);
  }

  lemma NotifyConstants(l: Ledger, ev: Event)
    ensures var m := Notify(l, ev); m.id == l.id && m.job == l.job && m.envelope == l.envelope
  {
    TakenFrame(l, ev);
    OutcomesFrame(Taken(l, ev), ev, ev.recipients);
  }

  lemma NextConstants(l: Ledger, s: Step)
    ensures var m := Next(l, s); m.id == l.id && m.job == l.job && m.envelope == l.envelope
  {
    if s.Notifying? {
      NotifyConstants(l, s.ev);
    }
  }

  lemma {:induction false} ReachableConstants(l: Ledger, steps: seq<Step>)
    ensures var m := Exec(l, steps); m.id == l.id && m.job == l.job && m.envelope == l.envelope
  {
    if steps != [] {
      var init, last := steps[..|steps| - 1], steps[|steps| - 1];
      ReachableConstants(l, init);
      NextConstants(Exec(l, init), last);
    }
  }

  lemma ProviderFateStep(l: Ledger, s: Step)
    requires Inv(l) && Parsed(s) && ProviderFate(l)
    ensures ProviderFate(Next(l, s))
  {
    if s.Notifying? && Next(l, s) != l {
      ProcessKeeps(l, s.ev);
    }
  }

  /** After a provider-confirmed failure a message is failed, bounced or complained forever. */
  lemma {:induction false} ProviderFailureIsFinal(id: string, job: int, envelope: set<string>,
    before: seq<Step>, after: seq<Step>)
    requires AllParsed(before) && AllParsed(after)
    requires ProviderFate(Exec(Accepted0(id, job, envelope), before))
    ensures ProviderFate(Exec(Exec(Accepted0(id, job, envelope), before), after))
  {
    var l := Exec(Accepted0(id, job, envelope), before);
    InitKeeps(id, job, envelope);
    ReachableKeeps(Accepted0(id, job, envelope), before);
    if after != [] {
      var init, last := after[..|after| - 1], after[|after| - 1];
      ProviderFailureIsFinal(id, job, envelope, before, init);
      ReachableKeeps(l, init);
      ProviderFateStep(Exec(l, init), last);
    }
  }
}
