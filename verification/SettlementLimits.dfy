/** Two things that do not hold of every step, each with the exact steps that break it and a run that
    does: the status rank never falls, and a sent recipient proves the provider's acceptance. */
module SettlementLimits {
  import opened GoStrings
  import opened DeliveryStatus
  import opened SesNotification
  import opened Settlement
  import opened SettlementRuns
  import opened FeedbackRedelivery
  import opened FeedbackConvergence

  // ---- When the rank falls ----

  /** The owner of a claim hands the row back. */
  predicate HandsBack(l: Ledger, s: Step) {
    && l.status == Sending
    && (|| (s.Releasing? && s.job == l.job)
        || (s.Preserving? && s.job == l.job && s.reason != NoReason))
  }

  /** The kinds of acceptance that report nothing worse than a delay. */
  predicate GoodNews(kind: EventKind) { kind.KindSend? || kind.KindDelivery? || kind.KindDeliveryDelay? }

  /** Acceptance with nothing worse than a delay, for a failure the provider never confirmed. */
  predicate Corrects(l: Ledger, s: Step) {
    && s.Notifying? && Processes(l, s.ev)
    && GoodNews(s.ev.kind) && l.status == Failed && l.source != Provider
  }

  lemma OnePlayed(l: Ledger, e: Event)
    ensures Played(l, [e]) == Process(l, e)
  {
    assert [e][..0] == [];
    assert Played(l, []) == l;
  }

  /** What one notification reports reaches a rank exactly when its kind does and somebody is reported on. */
  lemma OneReaches(l: Ledger, e: Event, rank: nat)
    requires KindConsistent(e) && !Irrelevant(l.envelope, e) && e.kind.RequiresApplicableRecipient()
    requires l.recipients == map[] && !Floored(l)
    ensures StatusReaches(l, [e], rank) <==> Rank(StatusOfKind(e.kind)) >= rank
  {
    forall a, s | ReportedBy(l.envelope, [e], a, s) ensures s == StatusOfKind(e.kind) {
      ReportsRank(l.envelope, e, a, s);
    }
    var r :| r in e.recipients && Norm(r.address) != "" && Norm(r.address) in l.envelope;
    ConsistentOutcomes(e, r);
    assert Reports(l.envelope, e, Norm(r.address), r.status);
    assert e in [e];
    assert ReportedBy(l.envelope, [e], Norm(r.address), r.status);
  }

  lemma SendReaches(l: Ledger, e: Event, rank: nat)
    requires KindConsistent(e) && e.kind.KindSend? && l.recipients == map[] && !Floored(l)
    ensures !StatusReaches(l, [e], rank)
  {
    forall a, s ensures !ReportedBy(l.envelope, [e], a, s) {
    }
  }

  lemma OneStatus(l: Ledger, e: Event)
    requires Inv(l) && KindConsistent(e) && Decides(l.envelope, e)
    ensures Rank(Process(l, e).status) >= 5 <==> StatusReaches(l, [e], 5)
  {
    assert e in [e];
    DecidedBy(l.envelope, [e], e);
    OnePlayed(l, e);
    StatusIs(l, [e], 5);
  }

  /** Acceptance of an inferred failure ends below failed unless it reports a bounce or a complaint. */
  lemma CorrectionRank(l: Ledger, e: Event)
    requires Inv(l) && KindConsistent(e) && !Irrelevant(l.envelope, e) && e.kind.ImpliesProviderAcceptance()
    requires l.status == Failed && l.source != Provider
    ensures Rank(Process(l, e).status) < Rank(Failed) <==> !(e.kind.KindBounce? || e.kind.KindComplaint?)
  {
    OneStatus(l, e);
    if e.kind.KindSend? {
      SendReaches(l, e, 5);
    } else {
      OneReaches(l, e, 5);
    }
  }

  lemma ProcessedRank(l: Ledger, e: Event)
    requires Inv(l) && KindConsistent(e) && !Irrelevant(l.envelope, e)
    ensures Rank(Process(l, e).status) < Rank(l.status) <==>
      GoodNews(e.kind) && l.status == Failed && l.source != Provider
  {
    if e.kind.ImpliesProviderAcceptance() && l.status == Failed && l.source != Provider {
      CorrectionRank(l, e);
    } else {
      ProcessKeeps(l, e);
    }
  }

  lemma NotifyRank(l: Ledger, s: Step)
    requires Inv(l) && Parsed(s) && s.Notifying?
    ensures Rank(Next(l, s).status) < Rank(l.status) <==> Corrects(l, s)
  {
    if Processes(l, s.ev) {
      ProcessedRank(l, s.ev);
    }
  }

  /** The status rank falls exactly when the owner of a claim hands it back, or feedback proves the
      acceptance of a message that had failed without the provider's word. */
  lemma RankFallsIff(l: Ledger, s: Step)
    requires Inv(l) && Parsed(s)
    ensures Rank(Next(l, s).status) < Rank(l.status) <==> HandsBack(l, s) || Corrects(l, s)
  {
    if s.Notifying? {
      NotifyRank(l, s);
    }
  }

  /** In every run, therefore. */
  lemma RankFallsInRuns(id: string, job: int, envelope: set<string>, steps: seq<Step>, s: Step)
    requires AllParsed(steps) && Parsed(s)
    ensures var l := Exec(Accepted0(id, job, envelope), steps);
      Rank(Next(l, s).status) < Rank(l.status) <==> HandsBack(l, s) || Corrects(l, s)
  {
    InitKeeps(id, job, envelope);
    ReachableKeeps(Accepted0(id, job, envelope), steps);
    RankFallsIff(Exec(Accepted0(id, job, envelope), steps), s);
  }

  lemma ExecOne(l: Ledger, s: Step)
    ensures Exec(l, [s]) == Next(l, s)
  {
    assert [s][..0] == [];
  }

  /** A run in which a claim is handed back. */
  lemma HandBackFalls(id: string, job: int, envelope: set<string>)
    ensures var l := Exec(Accepted0(id, job, envelope), [Claiming(job)]);
      l.status == Sending && Next(l, Releasing(job)).status == Accepted && HandsBack(l, Releasing(job))
  {
    ExecOne(Accepted0(id, job, envelope), Claiming(job));
  }

  /** A run in which the worker gives up and the provider's confirmation comes afterwards. */
  lemma CorrectionFalls(id: string, job: int, envelope: set<string>)
    requires ValidE2AMessageId(id)
    ensures var l := Exec(Accepted0(id, job, envelope), [MarkingFailed(Local, RetriesExhausted)]);
      l.status == Failed && Next(l, Notifying(SendNotice(id))).status == Sent && Corrects(l, Notifying(SendNotice(id)))
  {
    ExecOne(Accepted0(id, job, envelope), MarkingFailed(Local, RetriesExhausted));
    var l := Exec(Accepted0(id, job, envelope), [MarkingFailed(Local, RetriesExhausted)]);
    var e := SendNotice(id);
    assert Outcomes(Taken(l, e), e, e.recipients) == Taken(l, e);
  }

  // ---- When a sent recipient proves nothing ----

  /** A recipient's status claims the provider's acceptance, and nothing from the provider backs it. */
  predicate Unproven(l: Ledger, a: string) {
    a in l.recipients && l.recipients[a].ProvesProviderAcceptance() && !l.evidence
  }

  /** The worker records its own success, for a message of this recipient. */
  predicate WorkerMarks(l: Ledger, s: Step, a: string) {
    s.MarkingSent? && l.status == Sending && a in l.envelope
  }

  /** The provider confirms the message, or rejects it for this recipient. */
  predicate ProviderSettles(l: Ledger, s: Step, a: string) {
    s.Notifying? && Processes(l, s.ev)
    && (s.ev.kind.ImpliesProviderAcceptance() || Reports(l.envelope, s.ev, a, Failed))
  }

  lemma RejectedRows(l: Ledger, e: Event, a: string)
    requires KindConsistent(e) && e.kind.KindReject? && !Irrelevant(l.envelope, e)
    ensures var rows := Process(l, e).recipients;
      && (Reports(l.envelope, e, a, Failed) ==> a in rows && Rank(rows[a]) >= Rank(Failed))
      && (!Reports(l.envelope, e, a, Failed) ==> SameAt(l.recipients, rows, a))
  {
    ProcessIsRejected(l, e);
    OutcomesMoveRow(l, e, e.recipients, a);
    forall r | r in e.recipients ensures r.status == Failed {
      ConsistentOutcomes(e, r);
    }
  }

  lemma RejectedEvidence(l: Ledger, e: Event)
    requires KindConsistent(e) && e.kind.KindReject? && !Irrelevant(l.envelope, e)
    ensures Process(l, e).evidence == l.evidence
  {
    ProcessIsRejected(l, e);
    OutcomesFrame(l, e, e.recipients);
  }

  lemma RejectedRow(l: Ledger, e: Event, a: string)
    requires Inv(l) && KindConsistent(e) && e.kind.KindReject? && !Irrelevant(l.envelope, e)
    ensures Unproven(Process(l, e), a) <==> Unproven(l, a) && !Reports(l.envelope, e, a, Failed)
  {
    RejectedRows(l, e, a);
    RejectedEvidence(l, e);
    RejectingKeeps(l, e);
    assert RowsOk(Process(l, e));
  }

  lemma NotifyProof(l: Ledger, e: Event, a: string)
    requires Inv(l) && KindConsistent(e) && !Irrelevant(l.envelope, e)
    ensures Unproven(Process(l, e), a) <==>
      Unproven(l, a) && !e.kind.ImpliesProviderAcceptance() && !Reports(l.envelope, e, a, Failed)
  {
    if e.kind.ImpliesProviderAcceptance() {
      AcceptingKeeps(l, e);
    } else if e.kind.KindReject? {
      RejectedRow(l, e, a);
    } else {
      OtherChangesNothing(l, e);
    }
  }

  lemma WorkerProof(l: Ledger, s: Step, a: string)
    requires Inv(l) && !s.Notifying?
    ensures Unproven(Next(l, s), a) <==> WorkerMarks(l, s, a) || Unproven(l, a)
  {
  }

  /** A step leaves a recipient unproven exactly when the worker records its own success with it, or it
      was unproven and the provider does not settle it. */
  lemma UnprovenIff(l: Ledger, s: Step, a: string)
    requires Inv(l) && Parsed(s)
    ensures Unproven(Next(l, s), a) <==> WorkerMarks(l, s, a) || (Unproven(l, a) && !ProviderSettles(l, s, a))
  {
    if !s.Notifying? {
      WorkerProof(l, s, a);
    } else if Processes(l, s.ev) {
      NotifyProof(l, s.ev, a);
    }
  }

  predicate MarksAt(l: Ledger, steps: seq<Step>, a: string, k: nat) {
    k < |steps| && WorkerMarks(Exec(l, steps[..k]), steps[k], a)
  }

  predicate SettlesAt(l: Ledger, steps: seq<Step>, a: string, k: nat) {
    k < |steps| && ProviderSettles(Exec(l, steps[..k]), steps[k], a)
  }

  /** The first happened at some moment before `n`, and the second has not happened since. */
  ghost predicate Since(n: nat, first: nat -> bool, second: nat -> bool) {
    exists k: nat :: k < n && first(k) && forall j: nat :: k < j < n ==> !second(j)
  }

  lemma SinceNext(n: nat, first: nat -> bool, second: nat -> bool)
    ensures Since(n + 1, first, second) <==> first(n) || (Since(n, first, second) && !second(n))
  {
    if Since(n + 1, first, second) && !first(n) {
      var k: nat :| k < n + 1 && first(k) && forall j: nat :: k < j < n + 1 ==> !second(j);
      assert k < n;
    }
    if Since(n, first, second) && !second(n) {
      var k: nat :| k < n && first(k) && forall j: nat :: k < j < n ==> !second(j);
      assert forall j: nat :: k < j < n + 1 ==> !second(j);
    }
  }

  lemma SinceSame(n: nat, p: nat -> bool, q: nat -> bool, r: nat -> bool, s: nat -> bool)
    requires forall k: nat :: k < n ==> p(k) == r(k) && q(k) == s(k)
    ensures Since(n, p, q) <==> Since(n, r, s)
  {
  }

  /** At some step the worker recorded its success, and no later step brought word from the provider. */
  ghost predicate OnlyTheWorker(l: Ledger, steps: seq<Step>, a: string) {
    Since(|steps|, (k: nat) => MarksAt(l, steps, a, k), (k: nat) => SettlesAt(l, steps, a, k))
  }

  lemma OnlyTheWorkerSplit(l: Ledger, steps: seq<Step>, a: string)
    requires steps != []
    ensures var init, last := steps[..|steps| - 1], steps[|steps| - 1];
      OnlyTheWorker(l, steps, a) <==>
        MarksAt(l, steps, a, |init|) || (OnlyTheWorker(l, init, a) && !SettlesAt(l, steps, a, |init|))
  {
    var init := steps[..|steps| - 1];
    var p, q := (k: nat) => MarksAt(l, steps, a, k), (k: nat) => SettlesAt(l, steps, a, k);
    var r, s := (k: nat) => MarksAt(l, init, a, k), (k: nat) => SettlesAt(l, init, a, k);
    forall k: nat | k < |init| ensures p(k) == r(k) && q(k) == s(k) {
      assert init[..k] == steps[..k] && init[k] == steps[k];
    }
    SinceSame(|init|, p, q, r, s);
    SinceNext(|init|, p, q);
  }

  /** In every run a recipient status claims acceptance without evidence exactly when the worker wrote
      it and the provider has said nothing since: the statuses only feedback can bring always have it. */
  lemma {:induction false} UnprovenInRuns(l: Ledger, steps: seq<Step>, a: string)
    requires Inv(l) && AllParsed(steps) && !Unproven(l, a)
    ensures Unproven(Exec(l, steps), a) <==> OnlyTheWorker(l, steps, a)
  {
    if steps != [] {
      var init, last := steps[..|steps| - 1], steps[|steps| - 1];
      assert last in steps;
      UnprovenInRuns(l, init, a);
      ReachableKeeps(l, init);
      UnprovenIff(Exec(l, init), last, a);
      OnlyTheWorkerSplit(l, steps, a);
    }
  }

  /** A run in which the worker claims the message and records its own success. */
  lemma SentWithoutEvidence(id: string, job: int, a: string)
    ensures var l := Exec(Accepted0(id, job, {a}), [Claiming(job), MarkingSent("p")]);
      a in l.recipients && l.recipients[a] == Sent && Unproven(l, a)
  {
    var l := Accepted0(id, job, {a});
    ExecOne(l, Claiming(job));
    assert [Claiming(job), MarkingSent("p")][..1] == [Claiming(job)];
    assert Exec(l, [Claiming(job), MarkingSent("p")]) == Next(Next(l, Claiming(job)), MarkingSent("p"));
  }
}
