/** All orders of the same arrivals, once more: when they settle a message alike, leave each recipient
    alike, and leave the whole row alike. */
module FeedbackAllRows {
  import opened GoStrings
  import opened DeliveryStatus
  import opened SesNotification
  import opened Settlement
  import opened SettlementRuns
  import opened FeedbackRedelivery
  import opened FeedbackConvergence
  import opened FeedbackOrders
  import opened FeedbackAllOrders

  // ---- The first verdict belongs to the sure notifications ----

  lemma SameVerdictMore(envelope: set<string>, heard: seq<Event>, sure: seq<Event>, e: Event, hears: bool, isSure: bool)
    requires FirstVerdict(envelope, heard) == FirstVerdict(envelope, sure)
    requires (isSure ==> hears) && (hears && !isSure ==> FirstVerdict(envelope, sure) != Undecided)
    ensures FirstVerdict(envelope, heard + if hears then [e] else []) ==
      FirstVerdict(envelope, sure + if isSure then [e] else [])
  {
    assert heard + [] == heard && sure + [] == sure;
    VerdictStep(envelope, heard, e);
    VerdictStep(envelope, sure, e);
  }

  /** A stray is processed only after an acceptance that let it in, so it never comes first. */
  lemma {:induction false} VerdictIsSure(l: Ledger, evs: seq<Event>)
    ensures FirstVerdict(l.envelope, Heard(l, evs)) == FirstVerdict(l.envelope, Sure(l, evs))
  {
    if evs != [] {
      var init, last := evs[..|evs| - 1], evs[|evs| - 1];
      VerdictIsSure(l, init);
      HeardStep(l, init, last);
      IdComesFrom(l, init);
      var isSure := WellStamped(last) && (Marked(l, last) || ProviderIdMatches(l.providerId, last.sesMessageId));
      if Hears(Feed(l, init), last) && !isSure {
        LetInIsLate(l, init, last);
      }
      if isSure {
        SureIsHeard(l, init, last);
      }
      SameVerdictMore(l.envelope, Heard(l, init), Sure(l, init), last, Hears(Feed(l, init), last), isSure);
    }
  }

  lemma SureIsHeard(l: Ledger, init: seq<Event>, last: Event)
    requires WellStamped(last) && (Marked(l, last) || ProviderIdMatches(l.providerId, last.sesMessageId))
    ensures Hears(Feed(l, init), last)
  {
    HeardStep(l, init, last);
    IdComesFrom(l, init);
    EmptyIdMatchesNothing(last.sesMessageId);
  }

  lemma LetInIsLate(l: Ledger, init: seq<Event>, last: Event)
    requires WellStamped(last) && !Marked(l, last) && !ProviderIdMatches(l.providerId, last.sesMessageId)
    requires ProviderIdMatches(IdAfter(l, init), last.sesMessageId)
    ensures FirstVerdict(l.envelope, Sure(l, init)) != Undecided
  {
    IdComesFrom(l, init);
    EmptyIdMatchesNothing(last.sesMessageId);
    var f :| f in init && Repairs(l, f) && f.sesMessageId == IdAfter(l, init);
    SureMembers(l, init);
    DecidedBy(l.envelope, Sure(l, init), f);
  }

  lemma {:induction false} FrontDecides(envelope: set<string>, e: Event, evs: seq<Event>)
    requires Decides(envelope, e)
    ensures FirstVerdict(envelope, [e] + evs) ==
      if e.kind.ImpliesProviderAcceptance() then TakenFirst else RefusedFirst
  {
    var all := [e] + evs;
    if evs == [] {
      assert all[..|all| - 1] == [];
    } else {
      FrontDecides(envelope, e, evs[..|evs| - 1]);
      assert all[..|all| - 1] == [e] + evs[..|evs| - 1];
    }
  }

  lemma {:induction false} SureFront(l: Ledger, e: Event, evs: seq<Event>)
    requires WellStamped(e) && (Marked(l, e) || ProviderIdMatches(l.providerId, e.sesMessageId))
    ensures Sure(l, [e] + evs) == [e] + Sure(l, evs)
  {
    var all := [e] + evs;
    if evs == [] {
      assert all[..|all| - 1] == [];
    } else {
      SureFront(l, e, evs[..|evs| - 1]);
      assert all[..|all| - 1] == [e] + evs[..|evs| - 1];
    }
  }

  /** An order in which one of the sure notifications comes first. */
  lemma FrontOrder(l: Ledger, evs: seq<Event>, e: Event)
    requires e in Sure(l, evs) && Decides(l.envelope, e)
    ensures SameEvents([e] + evs, evs)
    ensures FirstVerdict(l.envelope, Heard(l, [e] + evs)) ==
      if e.kind.ImpliesProviderAcceptance() then TakenFirst else RefusedFirst
  {
    SureMembers(l, evs);
    SureFront(l, e, evs);
    VerdictIsSure(l, [e] + evs);
    FrontDecides(l.envelope, e, Sure(l, evs));
  }

  // ---- Settling ----

  /** An open message about which both verdicts are sure to be heard. */
  predicate Contested(l: Ledger, evs: seq<Event>) {
    l.Settleable() && SomeAcceptance(l.envelope, Sure(l, evs)) && SomeReject(l.envelope, Sure(l, evs))
  }

  lemma ContestedOrders(l: Ledger, evs: seq<Event>) returns (x: seq<Event>, y: seq<Event>)
    requires Contested(l, evs)
    ensures SameEvents(x, evs) && SameEvents(y, evs)
    ensures SettledByFeed(l, Heard(l, x)) && !SettledByFeed(l, Heard(l, y))
  {
    var e :| e in Sure(l, evs) && !Irrelevant(l.envelope, e) && e.kind.ImpliesProviderAcceptance();
    var r :| r in Sure(l, evs) && Decides(l.envelope, r) && r.kind.KindReject?;
    FrontOrder(l, evs, e);
    FrontOrder(l, evs, r);
    x, y := [e] + evs, [r] + evs;
  }

  lemma UncontestedSettle(l: Ledger, evs: seq<Event>, x: seq<Event>)
    requires SameEvents(x, evs) && !Contested(l, evs)
    ensures SettledByFeed(l, Heard(l, x)) <==> l.Settleable() && SomeAcceptance(l.envelope, Sure(l, evs))
  {
    VerdictIsSure(l, x);
    SureOfOrder(l, evs, x);
    VerdictMeaning(l.envelope, Sure(l, x));
    SameReports(l.envelope, Sure(l, x), Sure(l, evs), "", NoStatus);
  }

  /** The usage record and the email.sent row. */
  predicate SameSending(m: Ledger, n: Ledger) {
    m.meters == n.meters && (EmailSent in m.outbox <==> EmailSent in n.outbox)
  }

  lemma SendingShows(l: Ledger, x: seq<Event>, y: seq<Event>)
    requires Inv(l) && Consistent(x) && Consistent(y)
    ensures SameSending(Feed(l, x), Feed(l, y)) <==> SettledByFeed(l, Heard(l, x)) == SettledByFeed(l, Heard(l, y))
  {
    FeedExplained(l, x);
    FeedExplained(l, y);
    if l.Settleable() {
      assert EmailSent !in l.outbox;
    }
  }

  /** All orders of the same arrivals meter the message and announce it as sent alike exactly when it is
      not contested. */
  lemma SendingConvergesIff(l: Ledger, evs: seq<Event>)
    requires Inv(l) && Consistent(evs)
    ensures !Contested(l, evs) <==>
      forall x, y :: SameEvents(x, evs) && SameEvents(y, evs) ==> SameSending(Feed(l, x), Feed(l, y))
  {
    if Contested(l, evs) {
      var x, y := ContestedOrders(l, evs);
      SendingShows(l, x, y);
    } else {
      forall x, y | SameEvents(x, evs) && SameEvents(y, evs) ensures SameSending(Feed(l, x), Feed(l, y)) {
        UncontestedSettle(l, evs, x);
        UncontestedSettle(l, evs, y);
        SendingShows(l, x, y);
      }
    }
  }

  // ---- One recipient ----

  /** A stray reports a status for the recipient that the row and the sure notifications do not reach. */
  ghost predicate StrayRaises(l: Ledger, evs: seq<Event>, a: string) {
    exists u, s :: Stray(l, evs, u) && !Irrelevant(l.envelope, u) && Reports(l.envelope, u, a, s)
      && !RowReaches(l, Sure(l, evs), a, Rank(s))
  }

  /** Only settling gives the recipient a row, and whether the message is settled is contested. */
  ghost predicate OnlySettling(l: Ledger, evs: seq<Event>, a: string) {
    Contested(l, evs) && a in l.envelope && forall s :: !ReportedBy(l.envelope, Sure(l, evs), a, s)
  }

  /** The guard for one recipient, on the row and the arrivals alone. */
  ghost predicate RowFree(l: Ledger, evs: seq<Event>, a: string) {
    (l.providerId != "" || !StrayRaises(l, evs, a)) && !OnlySettling(l, evs, a)
  }

  lemma ReportedByMember(l: Ledger, x: seq<Event>, y: seq<Event>, a: string, s: Status)
    requires ReportedBy(l.envelope, x, a, s) && forall e :: e in x ==> e in y
    ensures ReportedBy(l.envelope, y, a, s)
  {
    var e :| e in x && !Irrelevant(l.envelope, e) && Reports(l.envelope, e, a, s);
    assert e in y;
  }

  lemma HeardInOrder(l: Ledger, evs: seq<Event>, x: seq<Event>, e: Event)
    requires SameEvents(x, evs) && e in Heard(l, x)
    ensures e in evs && (e in Sure(l, evs) || (l.providerId == "" && Stray(l, evs, e)))
  {
    HeardMembers(l, x);
    SureOfOrder(l, evs, x);
  }

  /** A sure report, or a stray's that the row or the sure notifications match. */
  ghost predicate Matched(l: Ledger, evs: seq<Event>, a: string, s: Status) {
    || (a in l.recipients && Rank(l.recipients[a]) >= Rank(s))
    || (exists t :: ReportedBy(l.envelope, Sure(l, evs), a, t) && Rank(t) >= Rank(s))
  }

  lemma ReportMatched(l: Ledger, evs: seq<Event>, e: Event, a: string, s: Status)
    requires l.providerId != "" || !StrayRaises(l, evs, a)
    requires KindConsistent(e) && !Irrelevant(l.envelope, e) && Reports(l.envelope, e, a, s)
    requires e in Sure(l, evs) || (l.providerId == "" && Stray(l, evs, e))
    ensures Matched(l, evs, a, s)
  {
    ReportsRank(l.envelope, e, a, s);
    if e in Sure(l, evs) {
      ReportedIn(l, Sure(l, evs), e, a, s);
    } else {
      assert RowReaches(l, Sure(l, evs), a, Rank(s));
    }
  }

  lemma HeardReport(l: Ledger, evs: seq<Event>, x: seq<Event>, a: string, s: Status)
    requires Consistent(evs) && SameEvents(x, evs) && (l.providerId != "" || !StrayRaises(l, evs, a))
    requires ReportedBy(l.envelope, Heard(l, x), a, s)
    ensures Matched(l, evs, a, s)
  {
    var e :| e in Heard(l, x) && !Irrelevant(l.envelope, e) && Reports(l.envelope, e, a, s);
    HeardInOrder(l, evs, x, e);
    ReportMatched(l, evs, e, a, s);
  }

  /** Under the guard every order takes the row as far as the sure notifications do by themselves. */
  ghost predicate SureReaches(l: Ledger, evs: seq<Event>, a: string, rank: nat) {
    || (a in l.recipients && Rank(l.recipients[a]) >= rank)
    || (exists s :: ReportedBy(l.envelope, Sure(l, evs), a, s) && Rank(s) >= rank)
    || (l.Settleable() && SomeAcceptance(l.envelope, Sure(l, evs)) && a in l.envelope && rank <= Rank(Sent))
  }

  lemma SureReportIsHeard(l: Ledger, evs: seq<Event>, x: seq<Event>, a: string, s: Status)
    requires Consistent(evs) && SameEvents(x, evs) && ReportedBy(l.envelope, Sure(l, evs), a, s)
    ensures ReportedBy(l.envelope, Heard(l, x), a, s) && Rank(s) > Rank(Sent)
  {
    SureOfOrder(l, evs, x);
    HeardMembers(l, x);
    SureMembers(l, evs);
    ReportedByMember(l, Sure(l, evs), Heard(l, x), a, s);
    ReportedRank(l, Sure(l, evs), a, s);
  }

  lemma SettlingReaches(l: Ledger, evs: seq<Event>, x: seq<Event>, a: string, rank: nat)
    requires Consistent(evs) && SameEvents(x, evs) && !OnlySettling(l, evs, a) && rank <= Rank(Sent) && a in l.envelope
    requires forall s :: !ReportedBy(l.envelope, Sure(l, evs), a, s)
    ensures SettledByFeed(l, Heard(l, x)) <==> l.Settleable() && SomeAcceptance(l.envelope, Sure(l, evs))
  {
    UncontestedSettle(l, evs, x);
  }

  lemma FreeReaches(l: Ledger, evs: seq<Event>, x: seq<Event>, a: string, rank: nat)
    requires Consistent(evs) && SameEvents(x, evs) && RowFree(l, evs, a)
    ensures RowReaches(l, Heard(l, x), a, rank) <==> SureReaches(l, evs, a, rank)
  {
    if s :| ReportedBy(l.envelope, Sure(l, evs), a, s) {
      SureReportIsHeard(l, evs, x, a, s);
      forall t | ReportedBy(l.envelope, Sure(l, evs), a, t) ensures ReportedBy(l.envelope, Heard(l, x), a, t) {
        SureReportIsHeard(l, evs, x, a, t);
      }
    } else if a in l.envelope && rank <= Rank(Sent) {
      SettlingReaches(l, evs, x, a, rank);
    }
    forall s | ReportedBy(l.envelope, Heard(l, x), a, s) && Rank(s) >= rank ensures SureReaches(l, evs, a, rank) {
      HeardReport(l, evs, x, a, s);
    }
  }

  lemma FreeRowsAgree(l: Ledger, evs: seq<Event>, x: seq<Event>, y: seq<Event>, a: string)
    requires Inv(l) && Consistent(evs) && SameEvents(x, evs) && SameEvents(y, evs) && RowFree(l, evs, a)
    ensures SameAt(Feed(l, x).recipients, Feed(l, y).recipients, a)
  {
    forall rank: nat ensures RowReaches(l, Heard(l, x), a, rank) <==> RowReaches(l, Heard(l, y), a, rank) {
      FreeReaches(l, evs, x, a, rank);
      FreeReaches(l, evs, y, a, rank);
    }
    RecipientsConverge(l, x, y, a);
  }

  /** Orders in which a stray is processed last, and lost. */
  lemma StrayOrders(l: Ledger, evs: seq<Event>, u: Event) returns (x: seq<Event>, y: seq<Event>)
    requires l.providerId == "" && Stray(l, evs, u)
    ensures SameEvents(x, evs) && SameEvents(y, evs)
    ensures Heard(l, x) == Sure(l, evs) && u in Heard(l, y)
  {
    var f :| f in evs && Repairs(l, f) && ProviderIdMatches(f.sesMessageId, u.sesMessageId);
    x, y := UnsureFirst(l, evs), StrayLast(l, evs, f, u);
    UnsureFirstHeard(l, evs);
    UnsureFirstArrives(l, evs);
    StrayLastHeard(l, evs, f, u);
    StrayLastArrives(l, evs, f, u);
  }

  lemma ReachedApart(l: Ledger, x: seq<Event>, y: seq<Event>, a: string, rank: nat)
    requires Inv(l) && Consistent(x) && Consistent(y) && rank > 0
    requires RowReaches(l, Heard(l, x), a, rank) != RowReaches(l, Heard(l, y), a, rank)
    ensures !SameAt(Feed(l, x).recipients, Feed(l, y).recipients, a)
  {
    RecipientsConverge(l, x, y, a);
  }

  /** A stray that raises the row: processed last, or lost in front. */
  lemma RaisingShows(l: Ledger, evs: seq<Event>, a: string) returns (x: seq<Event>, y: seq<Event>)
    requires Inv(l) && Consistent(evs) && l.providerId == "" && StrayRaises(l, evs, a)
    ensures SameEvents(x, evs) && SameEvents(y, evs)
    ensures !SameAt(Feed(l, x).recipients, Feed(l, y).recipients, a)
  {
    var u, s :| Stray(l, evs, u) && !Irrelevant(l.envelope, u) && Reports(l.envelope, u, a, s)
      && !RowReaches(l, Sure(l, evs), a, Rank(s));
    x, y := StrayOrders(l, evs, u);
    ReportsRank(l.envelope, u, a, s);
    ReportedIn(l, Heard(l, y), u, a, s);
    ReachedApart(l, x, y, a, Rank(s));
  }

  /** A contested message nobody reports on for the recipient: sent in one order, no row in the other. */
  lemma ContestShows(l: Ledger, evs: seq<Event>, a: string) returns (x: seq<Event>, y: seq<Event>)
    requires Inv(l) && Consistent(evs) && OnlySettling(l, evs, a) && (l.providerId != "" || !StrayRaises(l, evs, a))
    ensures SameEvents(x, evs) && SameEvents(y, evs)
    ensures !SameAt(Feed(l, x).recipients, Feed(l, y).recipients, a)
  {
    x, y := ContestedOrders(l, evs);
    forall s ensures !ReportedBy(l.envelope, Heard(l, y), a, s) {
      if ReportedBy(l.envelope, Heard(l, y), a, s) {
        HeardReport(l, evs, y, a, s);
        assert false;
      }
    }
    ReachedApart(l, x, y, a, 1);
  }

  /** All orders of the same arrivals, with any repetitions, leave the same row for a recipient exactly
      when no stray the provider id lets in raises it, and the message is not contested with settling
      the only thing that gives the recipient a row. */
  lemma RowConvergesIff(l: Ledger, evs: seq<Event>, a: string)
    requires Inv(l) && Consistent(evs)
    ensures RowFree(l, evs, a) <==>
      forall x, y :: SameEvents(x, evs) && SameEvents(y, evs) ==>
        SameAt(Feed(l, x).recipients, Feed(l, y).recipients, a)
  {
    if RowFree(l, evs, a) {
      forall x, y | SameEvents(x, evs) && SameEvents(y, evs)
        ensures SameAt(Feed(l, x).recipients, Feed(l, y).recipients, a)
      {
        FreeRowsAgree(l, evs, x, y, a);
      }
    } else if l.providerId == "" && StrayRaises(l, evs, a) {
      var x, y := RaisingShows(l, evs, a);
    } else {
      var x, y := ContestShows(l, evs, a);
    }
  }

  // ---- The whole row ----

  /** All guards at once. */
  ghost predicate WhollyFree(l: Ledger, evs: seq<Event>) {
    && OrderFree(l, evs) && !Contested(l, evs)
    && (l.providerId != "" || forall f, g :: !RepairApart(l, evs, f, g))
    && forall a :: RowFree(l, evs, a)
  }

  lemma WhollyFreeAgree(l: Ledger, evs: seq<Event>, x: seq<Event>, y: seq<Event>)
    requires Inv(l) && Consistent(evs) && WhollyFree(l, evs) && SameEvents(x, evs) && SameEvents(y, evs)
    ensures Feed(l, x) == Feed(l, y)
  {
    MessageConvergesIff(l, evs);
    SendingConvergesIff(l, evs);
    ProviderIdIff(l, evs);
    forall a ensures SameAt(Feed(l, x).recipients, Feed(l, y).recipients, a) {
      FreeRowsAgree(l, evs, x, y, a);
    }
    assert SameId(l, x, y) && SameMessage(Feed(l, x), Feed(l, y)) && SameSending(Feed(l, x), Feed(l, y));
    SamePieces(Feed(l, x), Feed(l, y));
  }

  ghost predicate AllAlike(l: Ledger, evs: seq<Event>) {
    forall x, y :: SameEvents(x, evs) && SameEvents(y, evs) ==> Feed(l, x) == Feed(l, y)
  }

  lemma AlikePieces(l: Ledger, evs: seq<Event>, x: seq<Event>, y: seq<Event>)
    requires AllAlike(l, evs) && SameEvents(x, evs) && SameEvents(y, evs)
    ensures SameMessage(Feed(l, x), Feed(l, y)) && SameSending(Feed(l, x), Feed(l, y)) && SameId(l, x, y)
    ensures forall a :: SameAt(Feed(l, x).recipients, Feed(l, y).recipients, a)
  {
  }

  lemma AlikeIsFree(l: Ledger, evs: seq<Event>)
    requires Inv(l) && Consistent(evs) && AllAlike(l, evs)
    ensures WhollyFree(l, evs)
  {
    forall x, y | SameEvents(x, evs) && SameEvents(y, evs)
      ensures SameMessage(Feed(l, x), Feed(l, y)) && SameSending(Feed(l, x), Feed(l, y)) && SameId(l, x, y)
    {
      AlikePieces(l, evs, x, y);
    }
    MessageConvergesIff(l, evs);
    SendingConvergesIff(l, evs);
    ProviderIdIff(l, evs);
    AlikeRows(l, evs);
  }

  lemma AlikeRows(l: Ledger, evs: seq<Event>)
    requires Inv(l) && Consistent(evs) && AllAlike(l, evs)
    ensures forall a :: RowFree(l, evs, a)
  {
    forall a ensures RowFree(l, evs, a) {
      forall x, y | SameEvents(x, evs) && SameEvents(y, evs)
        ensures SameAt(Feed(l, x).recipients, Feed(l, y).recipients, a)
      {
        AlikePieces(l, evs, x, y);
      }
      RowConvergesIff(l, evs, a);
    }
  }

  /** And the whole row is the same under every order exactly when all these guards hold. */
  lemma FeedConvergesIff(l: Ledger, evs: seq<Event>)
    requires Inv(l) && Consistent(evs)
    ensures WhollyFree(l, evs) <==> AllAlike(l, evs)
  {
    if WhollyFree(l, evs) {
      forall x, y | SameEvents(x, evs) && SameEvents(y, evs) ensures Feed(l, x) == Feed(l, y) {
        WhollyFreeAgree(l, evs, x, y);
      }
    }
    if AllAlike(l, evs) {
      AlikeIsFree(l, evs);
    }
  }

  // ---- A contested message ----

  function RejectOf(id: string, b: string): Event {
    Event(KindReject, "S", "p2", 1, id, [RecipientOutcome(b, Failed, "", false)], NoBounceType, "")
  }

  lemma ContestSound(id: string, a: string, b: string)
    requires ValidE2AMessageId(id) && Norm(b) == b && b != "" && a != b
    ensures var l := Accepted0(id, 1, {a, b}); var s, r := SendNotice(id), RejectOf(id, b);
      && KindConsistent(s) && KindConsistent(r) && WellStamped(s) && WellStamped(r) && Marked(l, s) && Marked(l, r)
      && Decides(l.envelope, s) && Decides(l.envelope, r) && forall t :: !Reports(l.envelope, r, a, t)
  {
    var l, r := Accepted0(id, 1, {a, b}), RejectOf(id, b);
    assert r.recipients[0] in r.recipients;
    assert forall q :: q in r.recipients ==> q == r.recipients[0];
  }

  lemma BothHeard(l: Ledger, e: Event, f: Event)
    requires WellStamped(e) && WellStamped(f) && Marked(l, e) && Marked(l, f) && Decides(l.envelope, e)
    ensures Heard(l, [e, f]) == [e, f]
    ensures FirstVerdict(l.envelope, [e, f]) ==
      if e.kind.ImpliesProviderAcceptance() then TakenFirst else RefusedFirst
  {
    MarkedAreHeard(l, l, [e, f]);
    FrontDecides(l.envelope, e, [f]);
    assert [e] + [f] == [e, f];
  }

  lemma SettledShows(l: Ledger, evs: seq<Event>, a: string)
    requires Inv(l) && Consistent(evs) && l.PreTerminal() && a in l.envelope && Heard(l, evs) == evs
    requires forall s :: !ReportedBy(l.envelope, evs, a, s)
    ensures var m := Feed(l, evs); var settled := FirstVerdict(l.envelope, evs) == TakenFirst;
      && Inv(m)
      && (settled ==> a in m.recipients && m.recipients[a] == Sent && EmailSent in m.outbox)
      && (!settled ==> a !in m.recipients && EmailSent !in m.outbox)
  {
    FeedExplained(l, evs);
    assert RowExplained(l, evs, Feed(l, evs), a);
  }

  lemma NeitherReports(l: Ledger, evs: seq<Event>, s: Event, r: Event, a: string, t: Status)
    requires SameEvents(evs, [s, r]) && s.recipients == [] && !Reports(l.envelope, r, a, t)
    ensures !ReportedBy(l.envelope, evs, a, t)
  {
    forall e | e in evs ensures !Reports(l.envelope, e, a, t) {
      assert e in [s, r];
    }
  }

  lemma ContestInBothOrders(l: Ledger, s: Event, r: Event, a: string)
    requires Inv(l) && l.PreTerminal() && a in l.envelope && KindConsistent(s) && KindConsistent(r)
    requires WellStamped(s) && WellStamped(r) && Marked(l, s) && Marked(l, r)
    requires Decides(l.envelope, s) && Decides(l.envelope, r) && s.kind.KindSend? && r.kind.KindReject?
    requires forall t :: !Reports(l.envelope, r, a, t)
    ensures var there, back := Feed(l, [s, r]), Feed(l, [r, s]);
      && a in there.recipients && there.recipients[a] == Sent && EmailSent in there.outbox
      && a !in back.recipients && EmailSent !in back.outbox
      && Inv(there) && Inv(back)
  {
    BothHeard(l, s, r);
    BothHeard(l, r, s);
    forall t ensures !ReportedBy(l.envelope, [s, r], a, t) && !ReportedBy(l.envelope, [r, s], a, t) {
      NeitherReports(l, [s, r], s, r, a, t);
      NeitherReports(l, [r, s], s, r, a, t);
    }
    SettledShows(l, [s, r], a);
    SettledShows(l, [r, s], a);
  }

  /** A real case: the provider confirms the send and rejects it for one recipient. In this order the
      other recipient is sent to and the message announced and metered; the other way round neither. */
  lemma ContestedSend(id: string, a: string, b: string)
    requires ValidE2AMessageId(id) && Norm(b) == b && b != "" && a != b
    ensures var l := Accepted0(id, 1, {a, b});
      var there, back := Feed(l, [SendNotice(id), RejectOf(id, b)]), Feed(l, [RejectOf(id, b), SendNotice(id)]);
      && a in there.recipients && there.recipients[a] == Sent && EmailSent in there.outbox && there.meters == 1
      && a !in back.recipients && EmailSent !in back.outbox && back.meters == 0
  {
    var l, s, r := Accepted0(id, 1, {a, b}), SendNotice(id), RejectOf(id, b);
    ContestSound(id, a, b);
    InitKeeps(id, 1, {a, b});
    ContestInBothOrders(l, s, r, a);
  }
}
