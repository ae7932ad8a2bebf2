/** What a list of processed notifications makes of a message, from the set of notifications and
    their first verdict alone: order and repetition are lost, with one exact exception. */
module FeedbackConvergence {
  import opened GoStrings
  import opened DeliveryStatus
  import opened SesNotification
  import opened Settlement
  import opened SettlementRuns
  import opened FeedbackRedelivery

  /** Notifications processed one after the other. */
  function Played(l: Ledger, evs: seq<Event>): Ledger {
    if evs == [] then l else Process(Played(l, evs[..|evs| - 1]), evs[|evs| - 1])
  }

  predicate SameEvents(a: seq<Event>, b: seq<Event>) {
    (forall e :: e in a ==> e in b) && (forall e :: e in b ==> e in a)
  }

  /** Notifications as the parser makes them. */
  predicate Consistent(evs: seq<Event>) { forall e :: e in evs ==> KindConsistent(e) }

  // ---- Order-free measures of a list of notifications ----

  predicate ReportedBy(envelope: set<string>, evs: seq<Event>, a: string, s: Status) {
    exists e :: e in evs && !Irrelevant(envelope, e) && Reports(envelope, e, a, s)
  }

  /** A notification that settles what a pending message becomes. */
  predicate Decides(envelope: set<string>, e: Event) {
    !e.kind.KindOther? && !Irrelevant(envelope, e)
  }

  datatype Verdict = Undecided | TakenFirst | RefusedFirst

  /** Whether acceptance or rejection was heard of first. */
  function FirstVerdict(envelope: set<string>, evs: seq<Event>): Verdict {
    if evs == [] then Undecided
    else
      var v := FirstVerdict(envelope, evs[..|evs| - 1]);
      var e := evs[|evs| - 1];
      if v != Undecided || !Decides(envelope, e) then v
      else if e.kind.ImpliesProviderAcceptance() then TakenFirst else RefusedFirst
  }

  predicate SomeAcceptance(envelope: set<string>, evs: seq<Event>) {
    exists e :: e in evs && !Irrelevant(envelope, e) && e.kind.ImpliesProviderAcceptance()
  }

  predicate SomeReject(envelope: set<string>, evs: seq<Event>) {
    exists e :: e in evs && Decides(envelope, e) && e.kind.KindReject?
  }

  lemma {:induction false} VerdictMeaning(envelope: set<string>, evs: seq<Event>)
    ensures FirstVerdict(envelope, evs) == Undecided <==> forall e :: e in evs ==> !Decides(envelope, e)
    ensures FirstVerdict(envelope, evs) == TakenFirst ==> SomeAcceptance(envelope, evs)
    ensures FirstVerdict(envelope, evs) == RefusedFirst ==> SomeReject(envelope, evs)
    ensures FirstVerdict(envelope, evs) == Undecided ==> !SomeReject(envelope, evs)
  {
    if evs != [] {
      var init, last := evs[..|evs| - 1], evs[|evs| - 1];
      VerdictMeaning(envelope, init);
      assert evs == init + [last];
    }
  }

  // ---- What a prefix of notifications has done to the row ----

  /** The message was open and acceptance was heard of first. */
  predicate SettledByFeed(l: Ledger, evs: seq<Event>) {
    l.Settleable() && FirstVerdict(l.envelope, evs) == TakenFirst
  }

  /** A recipient's status is the highest of the stored one and the reported ones, or the
      `sent` that settling writes. */
  ghost predicate RowExplained(l: Ledger, evs: seq<Event>, m: Ledger, a: string) {
    && (a in l.recipients ==> a in m.recipients && Rank(l.recipients[a]) <= Rank(m.recipients[a]))
    && (forall s :: ReportedBy(l.envelope, evs, a, s) ==> a in m.recipients && Rank(s) <= Rank(m.recipients[a]))
    && (SettledByFeed(l, evs) && a in l.envelope ==> a in m.recipients)
    && (a in m.recipients ==>
         || (a in l.recipients && m.recipients[a] == l.recipients[a])
         || ReportedBy(l.envelope, evs, a, m.recipients[a])
         || (SettledByFeed(l, evs) && m.recipients[a] == Sent))
  }

  ghost predicate RowsExplained(l: Ledger, evs: seq<Event>, m: Ledger) {
    forall a: string :: RowExplained(l, evs, m, a)
  }

  /** A failure no notification can lift. */
  predicate Floored(l: Ledger) { l.status == Failed && l.source == Provider }

  ghost predicate StatusExplained(l: Ledger, evs: seq<Event>, m: Ledger) {
    if FirstVerdict(l.envelope, evs) == Undecided then m == l
    else
      && !m.Settleable()
      && (Floored(l) ==> ProviderFate(m))
      && (m.status == Failed ==> Floored(l) || Failed in m.recipients.Values)
  }

  /** The columns a failure carries. */
  ghost predicate ReasonExplained(l: Ledger, evs: seq<Event>, m: Ledger) {
    FirstVerdict(l.envelope, evs) != Undecided && m.status == Failed ==>
      if SomeReject(l.envelope, evs) then m.reason == ProviderRejected && !m.stamped
      else m.reason == l.reason && m.stamped == l.stamped
  }

  ghost predicate BooksExplained(l: Ledger, evs: seq<Event>, m: Ledger) {
    && (m.evidence <==> l.evidence || SomeAcceptance(l.envelope, evs))
    && (EmailSent in m.outbox <==> EmailSent in l.outbox || SettledByFeed(l, evs))
    && (forall a :: a in m.suppressed <==> a in l.suppressed || exists e :: e in evs && Condemns(l.envelope, e, a))
    && (forall x :: x in m.outbox && x != EmailSent <==>
         x != EmailSent && (x in l.outbox || exists e :: e in evs && Writes(l, e, x)))
  }

  predicate Condemns(envelope: set<string>, e: Event, a: string) {
    !Irrelevant(envelope, e) && a in Condemned(envelope, e.recipients)
  }

  /** The outbox rows a notification stands for, as seen from the row at the start. */
  predicate Writes(l: Ledger, e: Event, x: EventId) {
    && !Irrelevant(l.envelope, e)
    && (|| Emits(l.envelope, e, e.recipients, x)
        || (x.SuppressionAdded? && Condemns(l.envelope, e, x.address) && x.address !in l.suppressed)
        || (x == EmailFailed && e.kind.KindReject?))
  }

  ghost predicate Explained(l: Ledger, evs: seq<Event>, m: Ledger) {
    && Inv(m) && m.id == l.id && m.job == l.job && m.envelope == l.envelope && m.trashed == l.trashed
    && RowsExplained(l, evs, m)
    && StatusExplained(l, evs, m)
    && ReasonExplained(l, evs, m)
    && BooksExplained(l, evs, m)
  }

  // ---- One more notification ----

  lemma ReportedSplit(envelope: set<string>, evs: seq<Event>, e: Event, a: string, s: Status)
    ensures ReportedBy(envelope, evs + [e], a, s) <==>
      ReportedBy(envelope, evs, a, s) || (!Irrelevant(envelope, e) && Reports(envelope, e, a, s))
  {
    assert e in evs + [e];
    if ReportedBy(envelope, evs + [e], a, s) {
      var f :| f in evs + [e] && !Irrelevant(envelope, f) && Reports(envelope, f, a, s);
      assert f in evs || f == e;
    }
    if ReportedBy(envelope, evs, a, s) {
      var f :| f in evs && !Irrelevant(envelope, f) && Reports(envelope, f, a, s);
      assert f in evs + [e];
    }
  }

  /** What one notification's outcomes do to one recipient. */
  ghost predicate RowMoved(l: Ledger, rs: seq<RecipientOutcome>, m: Ledger, a: string) {
    && (a in l.recipients ==> a in m.recipients && Rank(l.recipients[a]) <= Rank(m.recipients[a]))
    && (forall r :: r in rs && AppliesTo(l.envelope, r) && Norm(r.address) == a ==>
         a in m.recipients && Rank(r.status) <= Rank(m.recipients[a]))
    && (a in m.recipients ==>
         || (a in l.recipients && m.recipients[a] == l.recipients[a])
         || exists r :: r in rs && AppliesTo(l.envelope, r) && Norm(r.address) == a && r.status == m.recipients[a])
  }

  lemma {:induction false} OutcomesMoveRow(l: Ledger, ev: Event, rs: seq<RecipientOutcome>, a: string)
    ensures RowMoved(l, rs, Outcomes(l, ev, rs), a)
  {
    if rs != [] {
      var init, last := rs[..|rs| - 1], rs[|rs| - 1];
      var m := Outcomes(l, ev, init);
      OutcomesMoveRow(l, ev, init, a);
      OutcomesFrame(l, ev, init);
      OutcomeFrame(m, ev, last);
      assert rs == init + [last];
      assert last in rs;
      forall r | r in init ensures r in rs {}
    }
  }

  lemma TakenRow(m: Ledger, e: Event, a: string)
    ensures var t := Taken(m, e); var opens := e.kind.ImpliesProviderAcceptance() && m.Settleable();
      && (a in m.recipients ==> a in t.recipients && t.recipients[a] == m.recipients[a])
      && (a in t.recipients && a !in m.recipients ==> opens && a in m.envelope && t.recipients[a] == Sent)
      && (opens && a in m.envelope ==> a in t.recipients)
  {
  }

  lemma VerdictStep(envelope: set<string>, evs: seq<Event>, e: Event)
    ensures FirstVerdict(envelope, evs + [e]) ==
      if FirstVerdict(envelope, evs) != Undecided || !Decides(envelope, e) then FirstVerdict(envelope, evs)
      else if e.kind.ImpliesProviderAcceptance() then TakenFirst else RefusedFirst
  {
    var all := evs + [e];
    assert all[..|all| - 1] == evs;
  }

  /** The next notification settles the message exactly when the feed had not decided yet. */
  lemma OpensExactly(l: Ledger, evs: seq<Event>, m: Ledger, e: Event)
    requires Explained(l, evs, m) && Decides(l.envelope, e)
    ensures e.kind.ImpliesProviderAcceptance() && m.Settleable() <==>
      SettledByFeed(l, evs + [e]) && !SettledByFeed(l, evs)
  {
    VerdictStep(l.envelope, evs, e);
  }

  lemma ProcessRows(m: Ledger, e: Event)
    requires !Irrelevant(m.envelope, e)
    ensures Process(m, e).recipients == Outcomes(Taken(m, e), e, e.recipients).recipients
  {
  }

  lemma StepRowDecided(l: Ledger, evs: seq<Event>, m: Ledger, e: Event, a: string)
    requires m.envelope == l.envelope && RowExplained(l, evs, m, a) && Decides(l.envelope, e)
    requires e.kind.ImpliesProviderAcceptance() && m.Settleable() <==>
      SettledByFeed(l, evs + [e]) && !SettledByFeed(l, evs)
    requires SettledByFeed(l, evs) ==> SettledByFeed(l, evs + [e])
    ensures RowExplained(l, evs + [e], Process(m, e), a)
  {
    forall s ensures ReportedBy(l.envelope, evs + [e], a, s) <==>
      ReportedBy(l.envelope, evs, a, s) || Reports(l.envelope, e, a, s)
    {
      ReportedSplit(l.envelope, evs, e, a, s);
    }
    var t, n := Taken(m, e), Process(m, e);
    TakenRow(m, e, a);
    TakenFrame(m, e);
    ProcessRows(m, e);
    OutcomesMoveRow(t, e, e.recipients, a);
    MovedIsExplained(l, evs, m, t, n, e, a);
  }

  lemma StepRowIdle(l: Ledger, evs: seq<Event>, m: Ledger, e: Event, a: string)
    requires m.envelope == l.envelope && RowExplained(l, evs, m, a) && !Decides(l.envelope, e) && KindConsistent(e)
    ensures RowExplained(l, evs + [e], Process(m, e), a)
  {
    forall s ensures ReportedBy(l.envelope, evs + [e], a, s) <==> ReportedBy(l.envelope, evs, a, s) {
      ReportedSplit(l.envelope, evs, e, a, s);
    }
    VerdictStep(l.envelope, evs, e);
    OtherChangesNothing(m, e);
  }

  lemma StepRow(l: Ledger, evs: seq<Event>, m: Ledger, e: Event, a: string)
    requires Explained(l, evs, m) && KindConsistent(e)
    ensures RowExplained(l, evs + [e], Process(m, e), a)
  {
    assert RowExplained(l, evs, m, a);
    if Decides(l.envelope, e) {
      OpensExactly(l, evs, m, e);
      VerdictStep(l.envelope, evs, e);
      StepRowDecided(l, evs, m, e, a);
    } else {
      StepRowIdle(l, evs, m, e, a);
    }
  }

  lemma MovedIsExplained(l: Ledger, evs: seq<Event>, m: Ledger, t: Ledger, n: Ledger, e: Event, a: string)
    requires RowExplained(l, evs, m, a) && !Irrelevant(l.envelope, e)
    requires t.envelope == l.envelope && RowMoved(t, e.recipients, n, a)
    requires a in m.recipients ==> a in t.recipients && t.recipients[a] == m.recipients[a]
    requires a in t.recipients && a !in m.recipients ==> t.recipients[a] == Sent && SettledByFeed(l, evs + [e])
    requires SettledByFeed(l, evs + [e]) && a in l.envelope ==> a in t.recipients || SettledByFeed(l, evs)
    requires SettledByFeed(l, evs) ==> SettledByFeed(l, evs + [e])
    requires forall s :: ReportedBy(l.envelope, evs + [e], a, s) <==>
      ReportedBy(l.envelope, evs, a, s) || Reports(l.envelope, e, a, s)
    ensures RowExplained(l, evs + [e], n, a)
  {
    forall s | Reports(l.envelope, e, a, s) ensures a in n.recipients && Rank(s) <= Rank(n.recipients[a]) {
    }
    if a in n.recipients && !(a in t.recipients && n.recipients[a] == t.recipients[a]) {
      assert Reports(l.envelope, e, a, n.recipients[a]);
    }
  }

  ghost predicate FailureShown(m: Ledger) {
    m.status == Failed ==> Failed in m.recipients.Values
  }

  lemma TopFailed(m: Ledger, a: string)
    requires Loose(m) && a in m.recipients && Rank(m.recipients[a]) >= Rank(Failed)
    ensures FailureShown(m)
  {
    if m.status == Failed {
      RankInjective(m.recipients[a], Failed);
    }
  }

  lemma OutcomeKeepsShown(m: Ledger, e: Event, r: RecipientOutcome)
    requires Loose(m) && FailureShown(m) && KindConsistent(e) && r in e.recipients && m.evidence && !m.Settleable()
    requires e.kind.ImpliesProviderAcceptance()
    ensures FailureShown(Outcome(m, e, r))
  {
    OutcomeKeeps(m, e, r);
    OutcomeFrame(m, e, r);
    ConsistentOutcomes(e, r);
    var n := Outcome(m, e, r);
    if m.status == Failed {
      var a :| a in m.recipients && m.recipients[a] == Failed;
      OutcomeGrows(m, e, r);
      TopFailed(n, a);
    } else if Applies(m, r) {
      var rows := MergedRows(m.recipients, Norm(r.address), r.status);
      MergedRowsFacts(m.recipients, Norm(r.address), r.status);
      RollupFacts(rows);
      RecordOnSentIs(m, Norm(r.address), r.status);
    }
  }

  lemma {:induction false} OutcomesKeepShown(m: Ledger, e: Event, rs: seq<RecipientOutcome>)
    requires Loose(m) && FailureShown(m) && KindConsistent(e) && (forall r :: r in rs ==> r in e.recipients)
    requires m.evidence && !m.Settleable() && e.kind.ImpliesProviderAcceptance()
    ensures FailureShown(Outcomes(m, e, rs))
  {
    if rs != [] {
      var init := rs[..|rs| - 1];
      OutcomesKeepShown(m, e, init);
      OutcomesKeep(m, e, init);
      OutcomesFrame(m, e, init);
      OutcomeKeepsShown(Outcomes(m, e, init), e, rs[|rs| - 1]);
    }
  }

  lemma AcceptingKeepsShown(m: Ledger, e: Event)
    requires Inv(m) && KindConsistent(e) && e.kind.ImpliesProviderAcceptance() && !Irrelevant(m.envelope, e)
    requires m.Settleable() || FailureShown(m)
    ensures FailureShown(Process(m, e))
  {
    FinalizeKeeps(m, e.sesMessageId);
    OutcomesKeepShown(Taken(m, e), e, e.recipients);
  }

  lemma AppliedReject(m: Ledger, e: Event) returns (r: RecipientOutcome)
    requires KindConsistent(e) && e.kind.KindReject? && Applicable(m.envelope, e)
    ensures r in e.recipients && Applies(m, r) && r.status == Failed
  {
    RejectApplies(m, e);
    r :| r in e.recipients && Applies(m, r);
    ConsistentOutcomes(e, r);
  }

  lemma AbsorbedReject(n: Ledger, e: Event, r: RecipientOutcome)
    requires Absorbed(n, e) && r in e.recipients && Applies(n, r) && r.status == Failed && !Irrelevant(n.envelope, e)
    ensures Norm(r.address) in n.recipients && Rank(n.recipients[Norm(r.address)]) >= Rank(Failed)
  {
    assert OutcomeAbsorbed(n, e, r);
  }

  lemma RejectingShows(m: Ledger, e: Event)
    requires Inv(m) && KindConsistent(e) && e.kind.KindReject? && Applicable(m.envelope, e)
    ensures FailureShown(Process(m, e))
  {
    var r := AppliedReject(m, e);
    RejectingKeeps(m, e);
    ProcessLeavesMarks(m, e);
    ProcessGrows(m, e);
    AbsorbedReject(Process(m, e), e, r);
    TopFailed(Process(m, e), Norm(r.address));
  }

  lemma StepStatusAccepting(l: Ledger, evs: seq<Event>, m: Ledger, e: Event)
    requires Inv(l) && Inv(m) && m.envelope == l.envelope && StatusExplained(l, evs, m) && KindConsistent(e)
    requires Decides(l.envelope, e) && e.kind.ImpliesProviderAcceptance()
    ensures StatusExplained(l, evs + [e], Process(m, e))
  {
    VerdictStep(l.envelope, evs, e);
    AcceptingKeeps(m, e);
    if !Floored(l) {
      AcceptingKeepsShown(m, e);
    }
  }

  lemma StepStatusRejecting(l: Ledger, evs: seq<Event>, m: Ledger, e: Event)
    requires Inv(l) && Inv(m) && m.envelope == l.envelope && StatusExplained(l, evs, m) && KindConsistent(e)
    requires Decides(l.envelope, e) && e.kind.KindReject?
    ensures StatusExplained(l, evs + [e], Process(m, e))
  {
    VerdictStep(l.envelope, evs, e);
    RejectingKeeps(m, e);
    RejectingShows(m, e);
  }

  lemma StepStatus(l: Ledger, evs: seq<Event>, m: Ledger, e: Event)
    requires Inv(l) && Inv(m) && m.envelope == l.envelope && StatusExplained(l, evs, m) && KindConsistent(e)
    ensures StatusExplained(l, evs + [e], Process(m, e))
  {
    if !Decides(l.envelope, e) {
      VerdictStep(l.envelope, evs, e);
      OtherChangesNothing(m, e);
    } else if e.kind.ImpliesProviderAcceptance() {
      StepStatusAccepting(l, evs, m, e);
    } else {
      StepStatusRejecting(l, evs, m, e);
    }
  }

  // ---- The reason of a failure ----

  /** A failure that is still there is the failure from before, with its reason. */
  ghost predicate SameFailure(m: Ledger, n: Ledger) {
    n.status == Failed ==> m.status == Failed && n.reason == m.reason && n.stamped == m.stamped
  }

  lemma OutcomeKeepsReason(m: Ledger, e: Event, r: RecipientOutcome)
    requires Loose(m) && KindConsistent(e) && r in e.recipients && m.evidence && !m.Settleable()
    requires e.kind.ImpliesProviderAcceptance()
    ensures SameFailure(m, Outcome(m, e, r))
  {
    ConsistentOutcomes(e, r);
    var a := Norm(r.address);
    if Applies(m, r) {
      var n := RecordOutcome(m, a, r.status);
      assert Outcome(m, e, r).status == n.status && Outcome(m, e, r).reason == n.reason;
      assert Outcome(m, e, r).stamped == n.stamped;
      if m.status.ProvesProviderAcceptance() {
        NeverFailsBySuccess(m, a, r.status);
      }
    }
  }

  lemma NeverFailsBySuccess(m: Ledger, a: string, s: Status)
    requires Loose(m) && m.status.ProvesProviderAcceptance() && a in m.envelope
    requires Reportable(s) && s != Failed
    ensures RecordOutcome(m, a, s).status != Failed
  {
    var rows := MergedRows(m.recipients, a, s);
    RollupRises(m, a, s);
    RecordOnSentIs(m, a, s);
    MergedRowsFacts(m.recipients, a, s);
    var b :| b in rows && rows[b] == Worst(rows.Values);
    assert b == a || m.recipients[b] == rows[b];
  }

  lemma {:induction false} OutcomesKeepReason(m: Ledger, e: Event, rs: seq<RecipientOutcome>)
    requires Loose(m) && KindConsistent(e) && (forall r :: r in rs ==> r in e.recipients)
    requires m.evidence && !m.Settleable() && e.kind.ImpliesProviderAcceptance()
    ensures SameFailure(m, Outcomes(m, e, rs))
  {
    if rs != [] {
      var init := rs[..|rs| - 1];
      OutcomesKeepReason(m, e, init);
      OutcomesKeep(m, e, init);
      OutcomesFrame(m, e, init);
      OutcomeKeepsReason(Outcomes(m, e, init), e, rs[|rs| - 1]);
    }
  }

  lemma AcceptingKeepsReason(m: Ledger, e: Event)
    requires Inv(m) && KindConsistent(e) && e.kind.ImpliesProviderAcceptance() && !Irrelevant(m.envelope, e)
    ensures SameFailure(m, Process(m, e))
  {
    FinalizeKeeps(m, e.sesMessageId);
    OutcomesKeepReason(Taken(m, e), e, e.recipients);
  }

  /** What a failed status still tells once acceptance was processed. */
  lemma StepReasonAccepting(l: Ledger, evs: seq<Event>, m: Ledger, e: Event)
    requires Inv(m) && m.envelope == l.envelope && KindConsistent(e)
    requires Decides(l.envelope, e) && e.kind.ImpliesProviderAcceptance()
    requires FirstVerdict(l.envelope, evs) == Undecided ==> m == l && !SomeReject(l.envelope, evs)
    requires ReasonExplained(l, evs, m)
    ensures ReasonExplained(l, evs + [e], Process(m, e))
  {
    RejectSplit(l.envelope, evs, e);
    AcceptingKeepsReason(m, e);
  }

  lemma StepReasonRejecting(l: Ledger, evs: seq<Event>, m: Ledger, e: Event)
    requires Inv(m) && m.envelope == l.envelope && KindConsistent(e)
    requires Decides(l.envelope, e) && e.kind.KindReject?
    ensures ReasonExplained(l, evs + [e], Process(m, e))
  {
    RejectSplit(l.envelope, evs, e);
    ProcessIsRejected(m, e);
  }

  lemma StepReason(l: Ledger, evs: seq<Event>, m: Ledger, e: Event)
    requires Inv(m) && m.envelope == l.envelope && KindConsistent(e)
    requires FirstVerdict(l.envelope, evs) == Undecided ==> m == l
    requires ReasonExplained(l, evs, m)
    ensures ReasonExplained(l, evs + [e], Process(m, e))
  {
    VerdictMeaning(l.envelope, evs);
    if !Decides(l.envelope, e) {
      VerdictStep(l.envelope, evs, e);
      RejectSplit(l.envelope, evs, e);
      OtherChangesNothing(m, e);
    } else if e.kind.ImpliesProviderAcceptance() {
      StepReasonAccepting(l, evs, m, e);
    } else {
      StepReasonRejecting(l, evs, m, e);
    }
  }

  lemma RejectSplit(envelope: set<string>, evs: seq<Event>, e: Event)
    ensures SomeReject(envelope, evs + [e]) <==>
      SomeReject(envelope, evs) || (Decides(envelope, e) && e.kind.KindReject?)
  {
    assert e in evs + [e];
    forall f | f in evs ensures f in evs + [e] {}
  }

  lemma StepSuppressed(l: Ledger, evs: seq<Event>, m: Ledger, e: Event, a: string)
    requires m.envelope == l.envelope
    requires a in m.suppressed <==> a in l.suppressed || exists f :: f in evs && Condemns(l.envelope, f, a)
    ensures a in Process(m, e).suppressed <==>
      a in l.suppressed || exists f :: f in evs + [e] && Condemns(l.envelope, f, a)
  {
    CondemnedAreSuppressed(m, e);
    assert e in evs + [e];
    forall f | f in evs ensures f in evs + [e] {}
  }

  lemma ProcessOutbox(m: Ledger, e: Event, x: EventId)
    requires KindConsistent(e) && x != EmailSent
    ensures x in Process(m, e).outbox <==> x in m.outbox || Writes(m, e, x)
  {
    if Irrelevant(m.envelope, e) {
    } else {
      TakenFrame(m, e);
      OutcomesOutbox(Taken(m, e), e, e.recipients, x);
      if e.kind.KindReject? {
        RejectApplies(m, e);
      }
    }
  }

  lemma StepOutbox(l: Ledger, evs: seq<Event>, m: Ledger, e: Event, x: EventId)
    requires m.envelope == l.envelope && KindConsistent(e) && x != EmailSent
    requires x in m.outbox <==> x in l.outbox || exists f :: f in evs && Writes(l, f, x)
    requires x.SuppressionAdded? ==>
      (x.address in m.suppressed <==>
        x.address in l.suppressed || exists f :: f in evs && Condemns(l.envelope, f, x.address))
    ensures x in Process(m, e).outbox <==> x in l.outbox || exists f :: f in evs + [e] && Writes(l, f, x)
  {
    ProcessOutbox(m, e, x);
    assert e in evs + [e];
    forall f | f in evs ensures f in evs + [e] {}
    if x.SuppressionAdded? && Writes(l, e, x) && x.address in m.suppressed {
      var f :| f in evs && Condemns(l.envelope, f, x.address);
      assert Writes(l, f, x);
    }
  }

  lemma ProcessSent(m: Ledger, e: Event)
    ensures EmailSent in Process(m, e).outbox <==>
      EmailSent in m.outbox || (!Irrelevant(m.envelope, e) && e.kind.ImpliesProviderAcceptance() && m.Settleable())
    ensures Process(m, e).evidence <==>
      m.evidence || (!Irrelevant(m.envelope, e) && e.kind.ImpliesProviderAcceptance())
  {
    TakenFrame(m, e);
    OutcomesFrame(Taken(m, e), e, e.recipients);
  }

  lemma StepEvidence(l: Ledger, evs: seq<Event>, m: Ledger, e: Event)
    requires Explained(l, evs, m)
    ensures Process(m, e).evidence <==> l.evidence || SomeAcceptance(l.envelope, evs + [e])
    ensures EmailSent in Process(m, e).outbox <==> EmailSent in l.outbox || SettledByFeed(l, evs + [e])
  {
    ProcessSent(m, e);
    VerdictStep(l.envelope, evs, e);
    if Decides(l.envelope, e) {
      OpensExactly(l, evs, m, e);
    }
    assert e in evs + [e];
    forall f | f in evs ensures f in evs + [e] {}
  }

  lemma StepBooks(l: Ledger, evs: seq<Event>, m: Ledger, e: Event)
    requires Inv(l) && Explained(l, evs, m) && KindConsistent(e)
    ensures BooksExplained(l, evs + [e], Process(m, e))
  {
    var n := Process(m, e);
    StepEvidence(l, evs, m, e);
    forall a ensures
      a in n.suppressed <==> a in l.suppressed || exists f :: f in evs + [e] && Condemns(l.envelope, f, a)
    {
      StepSuppressed(l, evs, m, e, a);
    }
    forall x ensures x in n.outbox && x != EmailSent <==>
      x != EmailSent && (x in l.outbox || exists f :: f in evs + [e] && Writes(l, f, x))
    {
      if x != EmailSent {
        StepOutbox(l, evs, m, e, x);
      }
    }
  }

  lemma StepRows(l: Ledger, evs: seq<Event>, m: Ledger, e: Event)
    requires Explained(l, evs, m) && KindConsistent(e)
    ensures RowsExplained(l, evs + [e], Process(m, e))
  {
    forall a: string ensures RowExplained(l, evs + [e], Process(m, e), a) {
      StepRow(l, evs, m, e, a);
    }
  }

  lemma ProcessConstants(m: Ledger, e: Event)
    ensures var n := Process(m, e);
      n.id == m.id && n.job == m.job && n.envelope == m.envelope && n.trashed == m.trashed
  {
    TakenFrame(m, e);
    OutcomesFrame(Taken(m, e), e, e.recipients);
  }

  lemma StepExplained(l: Ledger, evs: seq<Event>, m: Ledger, e: Event)
    requires Inv(l) && Explained(l, evs, m) && KindConsistent(e)
    ensures Explained(l, evs + [e], Process(m, e))
  {
    ProcessKeeps(m, e);
    ProcessConstants(m, e);
    StepRows(l, evs, m, e);
    StepStatus(l, evs, m, e);
    StepReason(l, evs, m, e);
    StepBooks(l, evs, m, e);
  }

  /** The state after any list of processed notifications, read off the set of them and the first verdict. */
  lemma {:induction false} PlayedExplained(l: Ledger, evs: seq<Event>)
    requires Inv(l) && Consistent(evs)
    ensures Explained(l, evs, Played(l, evs))
  {
    if evs == [] {
      assert RowsExplained(l, evs, l);
    } else {
      var init, last := evs[..|evs| - 1], evs[|evs| - 1];
      assert evs == init + [last];
      PlayedExplained(l, init);
      assert last in evs;
      StepExplained(l, init, Played(l, init), last);
    }
  }

  // ---- How high the rows and the status stand ----

  /** A recipient's row ranks at least `rank`. */
  ghost predicate RowReaches(l: Ledger, evs: seq<Event>, a: string, rank: nat) {
    || (a in l.recipients && Rank(l.recipients[a]) >= rank)
    || (exists s :: ReportedBy(l.envelope, evs, a, s) && Rank(s) >= rank)
    || (SettledByFeed(l, evs) && a in l.envelope && rank <= Rank(Sent))
  }

  /** The exact row of every recipient, for every list of notifications. */
  lemma RowIs(l: Ledger, evs: seq<Event>, a: string, rank: nat)
    requires Inv(l) && Consistent(evs) && rank > 0
    ensures var rows := Played(l, evs).recipients;
      a in rows && Rank(rows[a]) >= rank <==> RowReaches(l, evs, a, rank)
  {
    var m := Played(l, evs);
    PlayedExplained(l, evs);
    assert RowExplained(l, evs, m, a);
    if SettledByFeed(l, evs) && a in l.envelope {
      assert Reportable(m.recipients[a]);
    }
  }

  /** The message status ranks at least `rank`, which is above sent. */
  ghost predicate StatusReaches(l: Ledger, evs: seq<Event>, rank: nat) {
    || (exists a :: a in l.recipients && Rank(l.recipients[a]) >= rank)
    || (exists a, s :: ReportedBy(l.envelope, evs, a, s) && Rank(s) >= rank)
    || (Floored(l) && rank <= Rank(Failed))
  }

  lemma RowBelowStatus(m: Ledger, a: string)
    requires Inv(m) && !m.Settleable() && a in m.recipients
    ensures Reportable(m.status) && Rank(m.recipients[a]) <= Rank(m.status)
  {
  }

  lemma StatusInRows(l: Ledger, evs: seq<Event>, m: Ledger) returns (a: string)
    requires Inv(m) && StatusExplained(l, evs, m) && FirstVerdict(l.envelope, evs) != Undecided
    requires Rank(m.status) > Rank(Sent) && !(Floored(l) && m.status == Failed)
    ensures a in m.recipients && m.recipients[a] == m.status
  {
    assert m.status in m.recipients.Values;
    a :| a in m.recipients && m.recipients[a] == m.status;
  }

  lemma StatusIsReached(l: Ledger, evs: seq<Event>, m: Ledger, rank: nat)
    requires Explained(l, evs, m) && FirstVerdict(l.envelope, evs) != Undecided
    requires rank > Rank(Sent) && Rank(m.status) >= rank
    ensures StatusReaches(l, evs, rank)
  {
    if !(Floored(l) && m.status == Failed) {
      var a := StatusInRows(l, evs, m);
      assert RowExplained(l, evs, m, a);
    }
  }

  lemma RowRaisesStatus(l: Ledger, evs: seq<Event>, m: Ledger, a: string, s: Status)
    requires Inv(m) && !m.Settleable() && RowExplained(l, evs, m, a)
    requires (a in l.recipients && s == l.recipients[a]) || ReportedBy(l.envelope, evs, a, s)
    ensures Rank(s) <= Rank(m.status)
  {
    RowBelowStatus(m, a);
  }

  lemma ReachedIsStatus(l: Ledger, evs: seq<Event>, m: Ledger, rank: nat)
    requires Explained(l, evs, m) && FirstVerdict(l.envelope, evs) != Undecided && StatusReaches(l, evs, rank)
    ensures Rank(m.status) >= rank
  {
    if a :| a in l.recipients && Rank(l.recipients[a]) >= rank {
      RowRaisesStatus(l, evs, m, a, l.recipients[a]);
    } else if a, s :| ReportedBy(l.envelope, evs, a, s) && Rank(s) >= rank {
      RowRaisesStatus(l, evs, m, a, s);
    }
  }

  /** The exact status once some notification decided: the worst of the stored and the reported ones. */
  lemma StatusIs(l: Ledger, evs: seq<Event>, rank: nat)
    requires Inv(l) && Consistent(evs) && FirstVerdict(l.envelope, evs) != Undecided && rank > Rank(Sent)
    ensures Rank(Played(l, evs).status) >= Rank(Sent)
    ensures Rank(Played(l, evs).status) >= rank <==> StatusReaches(l, evs, rank)
  {
    var m := Played(l, evs);
    PlayedExplained(l, evs);
    if Rank(m.status) >= rank {
      StatusIsReached(l, evs, m, rank);
    }
    if StatusReaches(l, evs, rank) {
      ReachedIsStatus(l, evs, m, rank);
    }
  }

  lemma DecidedBy(envelope: set<string>, evs: seq<Event>, e: Event)
    requires e in evs && Decides(envelope, e)
    ensures FirstVerdict(envelope, evs) != Undecided
  {
    VerdictMeaning(envelope, evs);
  }

  lemma StatusExactly(l: Ledger, evs: seq<Event>, s: Status)
    requires Inv(l) && Consistent(evs) && FirstVerdict(l.envelope, evs) != Undecided && Rank(s) > Rank(Sent)
    requires StatusReaches(l, evs, Rank(s)) && !StatusReaches(l, evs, Rank(s) + 1)
    ensures Played(l, evs).status == s
  {
    StatusIs(l, evs, Rank(s));
    StatusIs(l, evs, Rank(s) + 1);
    RankInjective(s, Played(l, evs).status);
  }

  // ---- Convergence ----

  lemma SameReports(envelope: set<string>, x: seq<Event>, y: seq<Event>, a: string, s: Status)
    requires SameEvents(x, y)
    ensures ReportedBy(envelope, x, a, s) <==> ReportedBy(envelope, y, a, s)
    ensures SomeAcceptance(envelope, x) <==> SomeAcceptance(envelope, y)
    ensures SomeReject(envelope, x) <==> SomeReject(envelope, y)
    ensures FirstVerdict(envelope, x) == Undecided <==> FirstVerdict(envelope, y) == Undecided
  {
    VerdictMeaning(envelope, x);
    VerdictMeaning(envelope, y);
  }

  /** The message itself, its suppressions and its outbox but for the email.sent row. */
  ghost predicate SameMessage(m: Ledger, n: Ledger) {
    && m.id == n.id && m.job == n.job && m.envelope == n.envelope && m.trashed == n.trashed
    && m.status == n.status && m.source == n.source && m.reason == n.reason && m.stamped == n.stamped
    && m.evidence == n.evidence && m.suppressed == n.suppressed
    && m.outbox - {EmailSent} == n.outbox - {EmailSent}
  }

  /** Equal status and equal news of a reject settle the failure columns. */
  lemma SameColumns(l: Ledger, x: seq<Event>, y: seq<Event>, m: Ledger, n: Ledger)
    requires Explained(l, x, m) && Explained(l, y, n) && m.status == n.status
    requires FirstVerdict(l.envelope, x) != Undecided && FirstVerdict(l.envelope, y) != Undecided
    requires SomeReject(l.envelope, x) == SomeReject(l.envelope, y)
    ensures m.source == n.source && m.reason == n.reason && m.stamped == n.stamped
  {
  }

  /** Any two orders of the same processed notifications, with any repetitions, leave the same message. */
  lemma PlayedConverges(l: Ledger, x: seq<Event>, y: seq<Event>)
    requires Inv(l) && Consistent(x) && Consistent(y) && SameEvents(x, y)
    ensures SameMessage(Played(l, x), Played(l, y))
  {
    var m, n := Played(l, x), Played(l, y);
    PlayedExplained(l, x);
    PlayedExplained(l, y);
    SameReports(l.envelope, x, y, "", NoStatus);
    if FirstVerdict(l.envelope, x) != Undecided {
      AlikeReaches(l, x, y);
      SameStatus(l, x, y);
      SameColumns(l, x, y, m, n);
    }
    AlikeBooks(l, x, y, m, n);
  }

  lemma AlikeReaches(l: Ledger, x: seq<Event>, y: seq<Event>)
    requires SameEvents(x, y)
    ensures forall rank: nat :: rank > Rank(Sent) ==> (StatusReaches(l, x, rank) <==> StatusReaches(l, y, rank))
  {
    forall a, s ensures ReportedBy(l.envelope, x, a, s) <==> ReportedBy(l.envelope, y, a, s) {
      SameReports(l.envelope, x, y, a, s);
    }
  }

  lemma AlikeBooks(l: Ledger, x: seq<Event>, y: seq<Event>, m: Ledger, n: Ledger)
    requires SameEvents(x, y) && BooksExplained(l, x, m) && BooksExplained(l, y, n)
    ensures m.suppressed == n.suppressed && m.outbox - {EmailSent} == n.outbox - {EmailSent}
  {
    forall a ensures a in m.suppressed <==> a in n.suppressed {}
    forall i ensures i in m.outbox - {EmailSent} <==> i in n.outbox - {EmailSent} {}
  }

  lemma SameStatus(l: Ledger, x: seq<Event>, y: seq<Event>)
    requires Inv(l) && Consistent(x) && Consistent(y)
    requires FirstVerdict(l.envelope, x) != Undecided && FirstVerdict(l.envelope, y) != Undecided
    requires forall rank: nat :: rank > Rank(Sent) ==> (StatusReaches(l, x, rank) <==> StatusReaches(l, y, rank))
    ensures Played(l, x).status == Played(l, y).status
  {
    var m, n := Played(l, x), Played(l, y);
    StatusIs(l, x, 3);
    StatusIs(l, y, 3);
    if Rank(m.status) > 2 {
      StatusIs(l, x, Rank(m.status));
      StatusIs(l, y, Rank(m.status));
    }
    if Rank(n.status) > 2 {
      StatusIs(l, x, Rank(n.status));
      StatusIs(l, y, Rank(n.status));
    }
    RankInjective(m.status, n.status);
  }

  /** The one case in which the order shows in a row: one order settles the message, the other refuses
      it, and nobody reported on this recipient; then only settling gives it a row. */
  predicate OrderShows(l: Ledger, x: seq<Event>, y: seq<Event>, a: string) {
    && SettledByFeed(l, x) != SettledByFeed(l, y)
    && a in l.envelope
    && (forall e :: e in x && !Irrelevant(l.envelope, e) ==>
         forall r :: r in e.recipients && AppliesTo(l.envelope, r) ==> Norm(r.address) != a)
  }

  predicate SameAt(x: map<string, Status>, y: map<string, Status>, a: string) {
    (a in x <==> a in y) && (a in x ==> x[a] == y[a])
  }

  lemma SameRow(l: Ledger, x: seq<Event>, y: seq<Event>, a: string)
    requires Inv(l) && Consistent(x) && Consistent(y)
    requires forall rank: nat :: rank > 0 ==> (RowReaches(l, x, a, rank) <==> RowReaches(l, y, a, rank))
    ensures SameAt(Played(l, x).recipients, Played(l, y).recipients, a)
  {
    var m, n := Played(l, x), Played(l, y);
    PlayedExplained(l, x);
    PlayedExplained(l, y);
    if a in m.recipients {
      RowIs(l, x, a, Rank(m.recipients[a]));
      RowIs(l, y, a, Rank(m.recipients[a]));
    }
    if a in n.recipients {
      RowIs(l, x, a, Rank(n.recipients[a]));
      RowIs(l, y, a, Rank(n.recipients[a]));
    }
    if a in m.recipients && a in n.recipients {
      RankInjective(m.recipients[a], n.recipients[a]);
    }
  }

  lemma ReportsRank(envelope: set<string>, e: Event, a: string, s: Status)
    requires KindConsistent(e) && Reports(envelope, e, a, s)
    ensures s == StatusOfKind(e.kind) && Reportable(s) && s.Valid() && Rank(s) > Rank(Sent)
  {
    var r :| r in e.recipients && AppliesTo(envelope, r) && Norm(r.address) == a && r.status == s;
    ConsistentOutcomes(e, r);
  }

  lemma ReportedRank(l: Ledger, evs: seq<Event>, a: string, s: Status)
    requires Consistent(evs) && ReportedBy(l.envelope, evs, a, s)
    ensures Rank(s) > Rank(Sent)
  {
    var e :| e in evs && !Irrelevant(l.envelope, e) && Reports(l.envelope, e, a, s);
    ReportsRank(l.envelope, e, a, s);
  }

  lemma SomeReport(l: Ledger, x: seq<Event>, y: seq<Event>, a: string)
    requires !OrderShows(l, x, y, a) && a in l.envelope && SettledByFeed(l, x) != SettledByFeed(l, y)
    ensures exists s :: ReportedBy(l.envelope, x, a, s)
  {
    var e, r :| e in x && !Irrelevant(l.envelope, e) && r in e.recipients && AppliesTo(l.envelope, r)
      && Norm(r.address) == a;
    assert Reports(l.envelope, e, a, r.status);
    assert ReportedBy(l.envelope, x, a, r.status);
  }

  lemma RowsReachAlike(l: Ledger, x: seq<Event>, y: seq<Event>, a: string, rank: nat)
    requires Consistent(x) && SameEvents(x, y) && rank > 0 && !OrderShows(l, x, y, a)
    ensures RowReaches(l, x, a, rank) <==> RowReaches(l, y, a, rank)
  {
    forall s ensures ReportedBy(l.envelope, x, a, s) <==> ReportedBy(l.envelope, y, a, s) {
      SameReports(l.envelope, x, y, a, s);
    }
    if SettledByFeed(l, x) != SettledByFeed(l, y) && a in l.envelope {
      SomeReport(l, x, y, a);
      var s :| ReportedBy(l.envelope, x, a, s);
      ReportedRank(l, x, a, s);
    }
  }

  lemma OrderShowsInRow(l: Ledger, x: seq<Event>, y: seq<Event>, a: string)
    requires Inv(l) && Consistent(x) && Consistent(y) && SameEvents(x, y) && OrderShows(l, x, y, a)
    ensures !SameAt(Played(l, x).recipients, Played(l, y).recipients, a)
  {
    assert l.recipients == map[];
    forall s ensures !ReportedBy(l.envelope, x, a, s) && !ReportedBy(l.envelope, y, a, s) {
      SameReports(l.envelope, x, y, a, s);
      assert forall e :: e in x && !Irrelevant(l.envelope, e) ==> !Reports(l.envelope, e, a, s);
    }
    RowIs(l, x, a, 1);
    RowIs(l, y, a, 1);
    PlayedExplained(l, x);
    PlayedExplained(l, y);
  }

  /** And the same status for a recipient except exactly when `OrderShows`; email.sent and the usage
      record differ exactly when one order settles the message and the other does not. */
  lemma PlayedRowsConverge(l: Ledger, x: seq<Event>, y: seq<Event>, a: string)
    requires Inv(l) && Consistent(x) && Consistent(y) && SameEvents(x, y)
    ensures var m, n := Played(l, x), Played(l, y);
      && (SameAt(m.recipients, n.recipients, a) <==> !OrderShows(l, x, y, a))
      && (m.meters == n.meters <==> SettledByFeed(l, x) == SettledByFeed(l, y))
      && ((EmailSent in m.outbox <==> EmailSent in n.outbox) <==> SettledByFeed(l, x) == SettledByFeed(l, y))
  {
    PlayedExplained(l, x);
    PlayedExplained(l, y);
    if OrderShows(l, x, y, a) {
      OrderShowsInRow(l, x, y, a);
    } else {
      forall rank: nat | rank > 0 ensures RowReaches(l, x, a, rank) <==> RowReaches(l, y, a, rank) {
        RowsReachAlike(l, x, y, a, rank);
      }
      SameRow(l, x, y, a);
    }
    if l.Settleable() {
      assert EmailSent !in l.outbox;
    }
  }
}
