/** Notifications arrive at least once. What one of them writes, and why its second
    arrival, at any later time, writes nothing new. */
module FeedbackRedelivery {
  import opened GoStrings
  import opened DeliveryStatus
  import opened SesNotification
  import opened Settlement
  import opened SettlementRuns

  /** The addresses a notification condemns: hard bounces and complaints in the envelope. */
  function Condemned(envelope: set<string>, rs: seq<RecipientOutcome>): set<string> {
    set r | r in rs && r.suppress && AppliesTo(envelope, r) :: Norm(r.address)
  }

  predicate Reports(envelope: set<string>, e: Event, a: string, s: Status) {
    exists r :: r in e.recipients && AppliesTo(envelope, r) && Norm(r.address) == a && r.status == s
  }

  /** The provider's confirmation of a submission, with the marker of the message. */
  function SendNotice(id: string): Event { Event(KindSend, "S", "p1", 1, id, [], NoBounceType, "") }

  // ---- What one notification writes ----

  function CondemnedOne(envelope: set<string>, r: RecipientOutcome): set<string> {
    if r.suppress && AppliesTo(envelope, r) then {Norm(r.address)} else {}
  }

  lemma CondemnedSplit(envelope: set<string>, init: seq<RecipientOutcome>, last: RecipientOutcome)
    ensures Condemned(envelope, init + [last]) == Condemned(envelope, init) + CondemnedOne(envelope, last)
  {
    var rs := init + [last];
    forall a | a in Condemned(envelope, rs) ensures a in Condemned(envelope, init) + CondemnedOne(envelope, last) {
      var r :| r in rs && r.suppress && AppliesTo(envelope, r) && a == Norm(r.address);
    }
    forall r | r in init ensures r in rs {}
    assert last in rs;
  }

  lemma OutcomeSuppresses(l: Ledger, ev: Event, r: RecipientOutcome)
    ensures Outcome(l, ev, r).suppressed == l.suppressed + CondemnedOne(l.envelope, r)
  {
    RecordOutcomeFrame(l, Norm(r.address), r.status);
  }

  lemma {:induction false} OutcomesSuppress(l: Ledger, ev: Event, rs: seq<RecipientOutcome>)
    ensures Outcomes(l, ev, rs).suppressed == l.suppressed + Condemned(l.envelope, rs)
  {
    if rs != [] {
      var init, last := rs[..|rs| - 1], rs[|rs| - 1];
      OutcomesSuppress(l, ev, init);
      OutcomesFrame(l, ev, init);
      OutcomeSuppresses(Outcomes(l, ev, init), ev, last);
      assert rs == init + [last];
      CondemnedSplit(l.envelope, init, last);
    }
  }

  /** Every hard bounce and every complaint about an envelope recipient leaves that
      address suppressed, whatever was reported about it before. */
  lemma CondemnedAreSuppressed(l: Ledger, ev: Event)
    ensures Process(l, ev).suppressed ==
      if Irrelevant(l.envelope, ev) then l.suppressed else l.suppressed + Condemned(l.envelope, ev.recipients)
  {
    TakenFrame(l, ev);
    OutcomesSuppress(Taken(l, ev), ev, ev.recipients);
  }

  predicate EmitsOne(envelope: set<string>, ev: Event, r: RecipientOutcome, x: EventId) {
    AppliesTo(envelope, r) && Pushes(r.status)
    && x == RecipientEvent(ev.providerEventId, Norm(r.address), ReasonFor(ev, r.status))
  }

  predicate Emits(envelope: set<string>, ev: Event, rs: seq<RecipientOutcome>, x: EventId) {
    exists r :: r in rs && EmitsOne(envelope, ev, r, x)
  }

  lemma OutcomeOutbox(l: Ledger, ev: Event, r: RecipientOutcome, x: EventId)
    ensures x in Outcome(l, ev, r).outbox <==>
      || x in l.outbox
      || EmitsOne(l.envelope, ev, r, x)
      || (x.SuppressionAdded? && x.address in CondemnedOne(l.envelope, r) && x.address !in l.suppressed)
  {
    RecordOutcomeFrame(l, Norm(r.address), r.status);
  }

  /** The rows a notification's outcomes add to the outbox: a push for every outcome that
      has one, and one announcement for each address they newly suppress. */
  lemma {:induction false} OutcomesOutbox(l: Ledger, ev: Event, rs: seq<RecipientOutcome>, x: EventId)
    ensures x in Outcomes(l, ev, rs).outbox <==>
      || x in l.outbox
      || Emits(l.envelope, ev, rs, x)
      || (x.SuppressionAdded? && x.address in Condemned(l.envelope, rs) && x.address !in l.suppressed)
  {
    if rs != [] {
      var init, last := rs[..|rs| - 1], rs[|rs| - 1];
      OutcomesOutbox(l, ev, init, x);
      OutcomesFrame(l, ev, init);
      OutcomesSuppress(l, ev, init);
      OutcomeOutbox(Outcomes(l, ev, init), ev, last, x);
      assert rs == init + [last];
      EmitsSplit(l.envelope, ev, init, last, x);
      CondemnedSplit(l.envelope, init, last);
    }
  }

  lemma EmitsSplit(envelope: set<string>, ev: Event, init: seq<RecipientOutcome>, last: RecipientOutcome, x: EventId)
    ensures Emits(envelope, ev, init + [last], x) <==>
      Emits(envelope, ev, init, x) || EmitsOne(envelope, ev, last, x)
  {
    var rs := init + [last];
    if Emits(envelope, ev, init, x) {
      var r :| r in init && EmitsOne(envelope, ev, r, x);
      assert r in rs;
    }
    assert last in rs;
  }

  // ---- Redelivery ----

  /** No later transaction takes these back. */
  ghost predicate Grows(l: Ledger, m: Ledger) {
    && m.id == l.id && m.envelope == l.envelope && l.outbox <= m.outbox && (l.evidence ==> m.evidence)
    && forall a :: a in l.recipients ==> a in m.recipients && Rank(l.recipients[a]) <= Rank(m.recipients[a])
  }

  lemma OutcomeGrows(l: Ledger, ev: Event, r: RecipientOutcome)
    ensures Grows(l, Outcome(l, ev, r))
  {
    OutcomeFrame(l, ev, r);
  }

  lemma {:induction false} OutcomesGrow(l: Ledger, ev: Event, rs: seq<RecipientOutcome>)
    ensures Grows(l, Outcomes(l, ev, rs))
  {
    if rs != [] {
      OutcomesGrow(l, ev, rs[..|rs| - 1]);
      OutcomeGrows(Outcomes(l, ev, rs[..|rs| - 1]), ev, rs[|rs| - 1]);
    }
  }

  lemma GrowsTransitive(l: Ledger, m: Ledger, n: Ledger)
    requires Grows(l, m) && Grows(m, n)
    ensures Grows(l, n)
  {
  }

  lemma TakenGrows(l: Ledger, ev: Event)
    ensures Grows(l, Taken(l, ev))
  {
  }

  function Rejected(m: Ledger): Ledger { RecordReject(m).(outbox := m.outbox + {EmailFailed}) }

  lemma RejectGrows(l: Ledger)
    ensures Grows(l, Rejected(l))
  {
  }

  lemma ProcessGrows(l: Ledger, ev: Event)
    ensures Grows(l, Process(l, ev))
  {
    var m := Taken(l, ev);
    var n := Outcomes(m, ev, ev.recipients);
    TakenGrows(l, ev);
    OutcomesGrow(m, ev, ev.recipients);
    GrowsTransitive(l, m, n);
    RejectGrows(n);
    GrowsTransitive(l, n, Rejected(n));
  }

  lemma NextGrows(l: Ledger, s: Step)
    ensures Grows(l, Next(l, s))
  {
    if s.Notifying? {
      ProcessGrows(l, s.ev);
    }
  }

  ghost predicate OutcomeAbsorbed(l: Ledger, ev: Event, r: RecipientOutcome) {
    Applies(l, r) ==>
      && var a := Norm(r.address);
      && a in l.recipients && Rank(l.recipients[a]) >= Rank(r.status)
      && (Pushes(r.status) ==> RecipientEvent(ev.providerEventId, a, ReasonFor(ev, r.status)) in l.outbox)
  }

  ghost predicate OutcomesAbsorbed(l: Ledger, ev: Event, rs: seq<RecipientOutcome>) {
    forall r :: r in rs ==> OutcomeAbsorbed(l, ev, r)
  }

  /** A reject has had its full effect on the row. */
  ghost predicate Sealed(l: Ledger) { RecordReject(l) == l }

  /** The marks a processed notification leaves for good. */
  ghost predicate Absorbed(l: Ledger, ev: Event) {
    !Irrelevant(l.envelope, ev) ==>
      && OutcomesAbsorbed(l, ev, ev.recipients)
      && (ev.kind.ImpliesProviderAcceptance() ==> l.evidence && (l.providerId != "" || ev.sesMessageId == ""))
      && (ev.kind.KindReject? ==> EmailFailed in l.outbox && Sealed(l))
  }

  lemma OutcomeLeavesMark(l: Ledger, ev: Event, r: RecipientOutcome)
    requires RowsOk(l) && (Applies(l, r) ==> Reportable(r.status))
    ensures OutcomeAbsorbed(Outcome(l, ev, r), ev, r)
  {
    OutcomeFrame(l, ev, r);
    if Applies(l, r) {
      MergedRowsFacts(l.recipients, Norm(r.address), r.status);
    }
  }

  lemma AbsorbedStays(l: Ledger, m: Ledger, ev: Event, r: RecipientOutcome)
    requires OutcomeAbsorbed(l, ev, r) && Grows(l, m)
    ensures OutcomeAbsorbed(m, ev, r)
  {
  }

  lemma AllStayAbsorbed(l: Ledger, m: Ledger, ev: Event, rs: seq<RecipientOutcome>)
    requires OutcomesAbsorbed(l, ev, rs) && Grows(l, m)
    ensures OutcomesAbsorbed(m, ev, rs)
  {
    forall r | r in rs ensures OutcomeAbsorbed(m, ev, r) {
      AbsorbedStays(l, m, ev, r);
    }
  }

  lemma RowsStayOk(l: Ledger, ev: Event, rs: seq<RecipientOutcome>)
    requires Loose(l) && KindConsistent(ev) && (forall r :: r in rs ==> r in ev.recipients)
    requires ev.kind.KindReject? || (l.evidence && !l.Settleable())
    ensures RowsOk(Outcomes(l, ev, rs))
  {
    OutcomesKeep(l, ev, rs);
  }

  lemma {:induction false} OutcomesLeaveMarks(l: Ledger, ev: Event, rs: seq<RecipientOutcome>)
    requires Loose(l) && KindConsistent(ev) && (forall r :: r in rs ==> r in ev.recipients)
    requires ev.kind.KindReject? || (l.evidence && !l.Settleable())
    ensures OutcomesAbsorbed(Outcomes(l, ev, rs), ev, rs)
  {
    if rs != [] {
      var init, last := rs[..|rs| - 1], rs[|rs| - 1];
      var m := Outcomes(l, ev, init);
      OutcomesLeaveMarks(l, ev, init);
      RowsStayOk(l, ev, init);
      ConsistentOutcomes(ev, last);
      OutcomeLeavesMark(m, ev, last);
      OutcomeGrows(m, ev, last);
      AllStayAbsorbed(m, Outcome(m, ev, last), ev, init);
      assert rs == init + [last];
    }
  }

  lemma AcceptingLeavesMarks(l: Ledger, ev: Event)
    requires Inv(l) && KindConsistent(ev) && ev.kind.ImpliesProviderAcceptance() && !Irrelevant(l.envelope, ev)
    ensures Absorbed(Process(l, ev), ev)
  {
    FinalizeKeeps(l, ev.sesMessageId);
    var m := Taken(l, ev);
    OutcomesLeaveMarks(m, ev, ev.recipients);
    OutcomesFrame(m, ev, ev.recipients);
    assert Process(l, ev) == Outcomes(m, ev, ev.recipients);
  }

  lemma RejectedIsSealed(m: Ledger)
    ensures Sealed(Rejected(m)) && EmailFailed in Rejected(m).outbox && Rejected(m).envelope == m.envelope
  {
  }

  lemma RejectLeavesMarks(m: Ledger, ev: Event)
    requires ev.kind.KindReject? && OutcomesAbsorbed(m, ev, ev.recipients)
    ensures Absorbed(Rejected(m), ev)
  {
    RejectedIsSealed(m);
    RejectGrows(m);
    AllStayAbsorbed(m, Rejected(m), ev, ev.recipients);
  }

  lemma ProcessIsRejected(l: Ledger, ev: Event)
    requires KindConsistent(ev) && ev.kind.KindReject? && Applicable(l.envelope, ev)
    ensures Process(l, ev) == Rejected(Outcomes(l, ev, ev.recipients))
  {
    RejectApplies(l, ev);
  }

  lemma RejectingLeavesMarks(l: Ledger, ev: Event)
    requires Inv(l) && KindConsistent(ev) && ev.kind.KindReject? && Applicable(l.envelope, ev)
    ensures Absorbed(Process(l, ev), ev)
  {
    OutcomesLeaveMarks(l, ev, ev.recipients);
    ProcessIsRejected(l, ev);
    RejectLeavesMarks(Outcomes(l, ev, ev.recipients), ev);
  }

  lemma ProcessLeavesMarks(l: Ledger, ev: Event)
    requires Inv(l) && KindConsistent(ev)
    ensures Absorbed(Process(l, ev), ev)
  {
    if Irrelevant(l.envelope, ev) || ev.kind.KindOther? {
    } else if ev.kind.ImpliesProviderAcceptance() {
      AcceptingLeavesMarks(l, ev);
    } else {
      RejectingLeavesMarks(l, ev);
    }
  }

  // ---- The marks stay ----

  lemma SealedOutcomeStays(l: Ledger, ev: Event, r: RecipientOutcome)
    requires Loose(l) && Sealed(l) && ProviderFate(l) && KindConsistent(ev) && r in ev.recipients
    requires ev.kind.KindReject? || l.evidence
    ensures Sealed(Outcome(l, ev, r)) && ProviderFate(Outcome(l, ev, r))
  {
    OutcomeKeeps(l, ev, r);
    ConsistentOutcomes(ev, r);
    if Applies(l, r) {
      var rows := l.(recipients := MergedRows(l.recipients, Norm(r.address), r.status));
      var m := RecordOutcome(l, Norm(r.address), r.status);
      assert m == ApplyRollup(rows);
      assert m.status == Failed ==> m == rows;
    }
  }

  lemma {:induction false} SealedOutcomesStay(l: Ledger, ev: Event, rs: seq<RecipientOutcome>)
    requires Loose(l) && Sealed(l) && ProviderFate(l) && KindConsistent(ev)
      && (forall r :: r in rs ==> r in ev.recipients)
    requires ev.kind.KindReject? || l.evidence
    ensures Sealed(Outcomes(l, ev, rs)) && ProviderFate(Outcomes(l, ev, rs))
  {
    if rs != [] {
      var init := rs[..|rs| - 1];
      SealedOutcomesStay(l, ev, init);
      OutcomesKeep(l, ev, init);
      OutcomesFrame(l, ev, init);
      SealedOutcomeStays(Outcomes(l, ev, init), ev, rs[|rs| - 1]);
    }
  }

  lemma SealedStays(l: Ledger, s: Step)
    requires Inv(l) && Parsed(s) && Sealed(l) && ProviderFate(l)
    ensures Sealed(Next(l, s))
  {
    if s.Notifying? && !s.ev.kind.KindOther? {
      assert Taken(l, s.ev) ==
        if s.ev.kind.ImpliesProviderAcceptance() then RecordEvidence(l, s.ev.sesMessageId) else l;
      SealedOutcomesStay(Taken(l, s.ev), s.ev, s.ev.recipients);
    }
  }

  lemma ProviderIdStays(l: Ledger, s: Step)
    requires Inv(l) && l.evidence && l.providerId != ""
    ensures Next(l, s).providerId == l.providerId
  {
    if s.Notifying? {
      OutcomesFrame(Taken(l, s.ev), s.ev, s.ev.recipients);
    }
  }

  lemma MarksStay(l: Ledger, ev: Event, s: Step)
    requires Inv(l) && Parsed(s) && Absorbed(l, ev)
    ensures Absorbed(Next(l, s), ev)
  {
    NextGrows(l, s);
    if !Irrelevant(l.envelope, ev) {
      if l.evidence && l.providerId != "" {
        ProviderIdStays(l, s);
      }
      if ev.kind.KindReject? {
        SealedStays(l, s);
      }
    }
  }

  lemma {:induction false} MarksStayForever(l: Ledger, ev: Event, steps: seq<Step>)
    requires Inv(l) && AllParsed(steps) && Absorbed(l, ev)
    ensures Absorbed(Exec(l, steps), ev)
  {
    if steps != [] {
      var init, last := steps[..|steps| - 1], steps[|steps| - 1];
      MarksStayForever(l, ev, init);
      ReachableKeeps(l, init);
      assert Parsed(last);
      MarksStay(Exec(l, init), ev, last);
    }
  }

  // ---- A marked notification writes nothing new ----

  lemma RollupStable(l: Ledger)
    requires Inv(l) && !l.Settleable()
    ensures ApplyRollup(l) == l
  {
    if l.recipients != map[] {
      RollupFacts(l.recipients);
      if l.status.ProvesProviderAcceptance() && l.status != Sent {
        WorstIsUpperBound(l.recipients.Values, l.status);
      }
    } else {
      assert l.recipients.Values == {};
    }
  }

  /** Suppressing again what the account owner released in the meantime. */
  function Resuppress(l: Ledger, addresses: set<string>): Ledger {
    l.(suppressed := l.suppressed + addresses,
       outbox := l.outbox + set a | a in addresses - l.suppressed :: SuppressionAdded(a))
  }

  lemma RecordAgain(l: Ledger, a: string, s: Status)
    requires Inv(l) && !l.Settleable() && a in l.recipients && Rank(l.recipients[a]) >= Rank(s)
    ensures RecordOutcome(l, a, s) == l
  {
    assert MergedRows(l.recipients, a, s) == l.recipients;
    RollupStable(l);
  }

  lemma SuppressIs(l: Ledger, a: string)
    ensures Suppress(l, a) == Resuppress(l, {a})
  {
    var m := Resuppress(l, {a});
    if a in l.suppressed {
      assert m.suppressed == l.suppressed && m.outbox == l.outbox;
    } else {
      assert m.outbox == l.outbox + {SuppressionAdded(a)};
    }
  }

  lemma ResuppressNone(l: Ledger)
    ensures Resuppress(l, {}) == l
  {
    assert Resuppress(l, {}).outbox == l.outbox;
  }

  lemma OutcomeAgain(l: Ledger, ev: Event, r: RecipientOutcome)
    requires Inv(l) && !l.Settleable() && OutcomeAbsorbed(l, ev, r)
    ensures Outcome(l, ev, r) == Resuppress(l, CondemnedOne(l.envelope, r))
  {
    ResuppressNone(l);
    if Applies(l, r) {
      var a := Norm(r.address);
      RecordAgain(l, a, r.status);
      SuppressIs(l, a);
      var m := if r.suppress then Suppress(l, a) else l;
      var x := RecipientEvent(ev.providerEventId, a, ReasonFor(ev, r.status));
      assert Pushes(r.status) ==> m.outbox + {x} == m.outbox;
    }
  }

  lemma ResuppressTwice(l: Ledger, a: set<string>, b: set<string>)
    ensures Resuppress(Resuppress(l, a), b) == Resuppress(l, a + b)
  {
    var x, y := Resuppress(Resuppress(l, a), b), Resuppress(l, a + b);
    assert x.suppressed == y.suppressed;
    assert x.outbox == y.outbox;
  }

  lemma {:induction false} OutcomesAgain(l: Ledger, ev: Event, rs: seq<RecipientOutcome>)
    requires Inv(l) && !l.Settleable() && OutcomesAbsorbed(l, ev, rs)
    ensures Outcomes(l, ev, rs) == Resuppress(l, Condemned(l.envelope, rs))
  {
    if rs == [] {
      ResuppressNone(l);
    } else {
      var init, last := rs[..|rs| - 1], rs[|rs| - 1];
      assert rs == init + [last];
      OutcomesAgain(l, ev, init);
      var m := Outcomes(l, ev, init);
      assert Inv(m) && m.recipients == l.recipients && m.envelope == l.envelope;
      assert last in rs && OutcomeAbsorbed(l, ev, last);
      OutcomeAgain(m, ev, last);
      CondemnedSplit(l.envelope, init, last);
      ResuppressTwice(l, Condemned(l.envelope, init), CondemnedOne(l.envelope, last));
    }
  }

  lemma ProcessAgain(l: Ledger, ev: Event)
    requires Inv(l) && KindConsistent(ev) && Absorbed(l, ev)
    ensures Process(l, ev) ==
      if Irrelevant(l.envelope, ev) then l else Resuppress(l, Condemned(l.envelope, ev.recipients))
  {
    if !Irrelevant(l.envelope, ev) && !ev.kind.KindOther? {
      assert !l.Settleable();
      assert Taken(l, ev) == l;
      OutcomesAgain(l, ev, ev.recipients);
      if ev.kind.KindReject? {
        var m := Resuppress(l, Condemned(l.envelope, ev.recipients));
        assert RecordReject(m) == m;
        assert m.outbox + {EmailFailed} == m.outbox;
      }
    } else if ev.kind.KindOther? {
      ResuppressNone(l);
    }
  }

  lemma AgainAfter(l: Ledger, ev: Event, between: seq<Step>)
    requires Inv(l) && AllParsed(between) && KindConsistent(ev)
    ensures var m := Exec(Process(l, ev), between);
      && m.envelope == l.envelope
      && (Process(m, ev) == m || Process(m, ev) == Resuppress(m, Condemned(l.envelope, ev.recipients)))
  {
    var n := Process(l, ev);
    ProcessKeeps(l, ev);
    ProcessLeavesMarks(l, ev);
    MarksStayForever(n, ev, between);
    ReachableKeeps(n, between);
    ReachableConstants(n, between);
    TakenFrame(l, ev);
    OutcomesFrame(Taken(l, ev), ev, ev.recipients);
    ProcessAgain(Exec(n, between), ev);
  }

  /** A notification that was processed once changes nothing when it arrives again, after
      any further transactions; at most it suppresses again an address released since. */
  lemma RedeliveryChangesNothing(id: string, job: int, envelope: set<string>, before: seq<Step>,
    ev: Event, between: seq<Step>)
    requires AllParsed(before) && AllParsed(between) && KindConsistent(ev)
    requires WellStamped(ev) && Correlates(Exec(Accepted0(id, job, envelope), before), ev)
    ensures var m := Exec(Notify(Exec(Accepted0(id, job, envelope), before), ev), between);
      && (Notify(m, ev) == m || Notify(m, ev) == Resuppress(m, Condemned(envelope, ev.recipients)))
      && (Condemned(envelope, ev.recipients) <= m.suppressed ==> Notify(m, ev) == m)
  {
    var l := Exec(Accepted0(id, job, envelope), before);
    InitKeeps(id, job, envelope);
    ReachableKeeps(Accepted0(id, job, envelope), before);
    ReachableConstants(Accepted0(id, job, envelope), before);
    AgainAfter(l, ev, between);
    var m := Exec(Process(l, ev), between);
    if Condemned(envelope, ev.recipients) <= m.suppressed {
      ResuppressNothingNew(m, Condemned(envelope, ev.recipients));
    }
  }

  lemma ResuppressNothingNew(l: Ledger, addresses: set<string>)
    requires addresses <= l.suppressed
    ensures Resuppress(l, addresses) == l
  {
    assert Resuppress(l, addresses).outbox == l.outbox;
    assert Resuppress(l, addresses).suppressed == l.suppressed;
  }
}
