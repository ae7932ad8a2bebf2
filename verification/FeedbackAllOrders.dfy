/** All orders of the same arrivals: the exact guard under which they end alike, and a real case
    outside it. */
module FeedbackAllOrders {
  import opened GoStrings
  import opened DeliveryStatus
  import opened SesNotification
  import opened Settlement
  import opened SettlementRuns
  import opened FeedbackRedelivery
  import opened FeedbackConvergence
  import opened FeedbackOrders

  // ---- Building orders ----

  lemma {:induction false} HeardConcat(l: Ledger, a: seq<Event>, b: seq<Event>)
    ensures Feed(l, a + b) == Feed(Feed(l, a), b)
    ensures Heard(l, a + b) == Heard(l, a) + Heard(Feed(l, a), b)
    decreases |b|
  {
    if b == [] {
      assert a + b == a;
      assert Heard(l, a) + [] == Heard(l, a);
    } else {
      var init, last := b[..|b| - 1], b[|b| - 1];
      HeardConcat(l, a, init);
      assert (a + b)[..|a + b| - 1] == a + init && (a + b)[|a + b| - 1] == last;
      var more := if Hears(Feed(l, a + init), last) then [last] else [];
      assert Heard(l, a) + Heard(Feed(l, a), init) + more == Heard(l, a) + (Heard(Feed(l, a), init) + more);
    }
  }

  /** The arrivals that are not sure to be processed. */
  function Unsure(l: Ledger, evs: seq<Event>): seq<Event> {
    if evs == [] then []
    else
      var e := evs[|evs| - 1];
      Unsure(l, evs[..|evs| - 1]) +
        if WellStamped(e) && (Marked(l, e) || ProviderIdMatches(l.providerId, e.sesMessageId)) then [] else [e]
  }

  lemma {:induction false} SplitArrivals(l: Ledger, evs: seq<Event>)
    ensures forall e :: e in evs <==> e in Sure(l, evs) || e in Unsure(l, evs)
    ensures Feed(l, Unsure(l, evs)) == l && Heard(l, Unsure(l, evs)) == []
  {
    if evs != [] {
      var init, last := evs[..|evs| - 1], evs[|evs| - 1];
      SplitArrivals(l, init);
      assert evs == init + [last];
      var u := Unsure(l, evs);
      if u != Unsure(l, init) {
        assert u[..|u| - 1] == Unsure(l, init);
      }
    }
  }

  lemma {:induction false} MarkedAreHeard(l: Ledger, m: Ledger, evs: seq<Event>)
    requires m.id == l.id && forall e :: e in evs ==> WellStamped(e) && Marked(l, e)
    ensures Heard(m, evs) == evs && Feed(m, evs).id == l.id
  {
    if evs != [] {
      var init, last := evs[..|evs| - 1], evs[|evs| - 1];
      assert evs == init + [last];
      MarkedAreHeard(l, m, init);
      FeedId(m, evs);
    }
  }

  /** First what is not sure, then the sure ones: only these are processed. */
  function UnsureFirst(l: Ledger, evs: seq<Event>): seq<Event> { Unsure(l, evs) + Sure(l, evs) }

  /** After arrivals that were all lost, marked ones are processed as if they came first. */
  lemma LostThenMarked(l: Ledger, lost: seq<Event>, sure: seq<Event>)
    requires Feed(l, lost) == l && Heard(l, lost) == []
    requires forall e :: e in sure ==> WellStamped(e) && Marked(l, e)
    ensures Heard(l, lost + sure) == sure && Feed(l, lost + sure) == Feed(l, sure)
  {
    HeardConcat(l, lost, sure);
    MarkedAreHeard(l, l, sure);
    assert [] + sure == sure;
  }

  lemma UnsureFirstHeard(l: Ledger, evs: seq<Event>)
    requires l.providerId == ""
    ensures Heard(l, UnsureFirst(l, evs)) == Sure(l, evs)
  {
    SplitArrivals(l, evs);
    SureAreMarked(l, evs);
    LostThenMarked(l, Unsure(l, evs), Sure(l, evs));
  }

  lemma SureAreMarked(l: Ledger, evs: seq<Event>)
    requires l.providerId == ""
    ensures forall e :: e in Sure(l, evs) ==> WellStamped(e) && Marked(l, e)
  {
    SureMembers(l, evs);
    forall ses ensures !ProviderIdMatches("", ses) {
      EmptyIdMatchesNothing(ses);
    }
  }

  lemma UnsureFirstArrives(l: Ledger, evs: seq<Event>)
    ensures SameEvents(UnsureFirst(l, evs), evs)
  {
    SplitArrivals(l, evs);
  }

  /** The same with a repair in front of the sure ones and the stray it lets in at the end. */
  function StrayLast(l: Ledger, evs: seq<Event>, f: Event, u: Event): seq<Event> {
    Unsure(l, evs) + ([f] + Sure(l, evs)) + [u]
  }

  /** A repair followed by sure notifications, after everything unsure was lost. */
  lemma RepairedHeard(l: Ledger, evs: seq<Event>, f: Event)
    requires l.providerId == "" && f in evs && Repairs(l, f)
    ensures var sure := [f] + Sure(l, evs); var before := Unsure(l, evs) + sure;
      && Heard(l, before) == sure && Feed(l, before) == Feed(l, sure)
      && IdAfter(l, sure) == f.sesMessageId
  {
    var sure := [f] + Sure(l, evs);
    SplitArrivals(l, evs);
    SureAreMarked(l, evs);
    LostThenMarked(l, Unsure(l, evs), sure);
    FirstRepairStays(l, f, Sure(l, evs));
  }

  lemma StrayLastHeard(l: Ledger, evs: seq<Event>, f: Event, u: Event)
    requires l.providerId == "" && Stray(l, evs, u) && f in evs && Repairs(l, f)
    requires ProviderIdMatches(f.sesMessageId, u.sesMessageId)
    ensures Heard(l, StrayLast(l, evs, f, u)) == [f] + Sure(l, evs) + [u]
  {
    var sure := [f] + Sure(l, evs);
    var before := Unsure(l, evs) + sure;
    RepairedHeard(l, evs, f);
    HeardConcat(l, before, [u]);
    HeardStep(l, sure, u);
    HeardOfOne(Feed(l, before), u);
  }

  lemma StrayLastArrives(l: Ledger, evs: seq<Event>, f: Event, u: Event)
    requires f in evs && u in evs
    ensures SameEvents(StrayLast(l, evs, f, u), evs)
  {
    SplitArrivals(l, evs);
  }

  lemma HeardOfOne(m: Ledger, u: Event)
    ensures Heard(m, [u]) == if Hears(m, u) then [u] else []
  {
    assert [u][..0] == [];
    assert Feed(m, []) == m && Heard(m, []) == [];
  }

  lemma {:induction false} FirstRepairStays(l: Ledger, f: Event, evs: seq<Event>)
    requires l.providerId == "" && Repairs(l, f)
    ensures IdAfter(l, [f] + evs) == f.sesMessageId
  {
    var all := [f] + evs;
    if evs == [] {
      assert all[..|all| - 1] == [] && all[|all| - 1] == f;
    } else {
      FirstRepairStays(l, f, evs[..|evs| - 1]);
      assert all[..|all| - 1] == [f] + evs[..|evs| - 1];
    }
  }

  // ---- What a stray adds ----

  /** A report of the stray ranks above everything the sure ones and the row itself show. */
  ghost predicate Outranks(l: Ledger, sure: seq<Event>, u: Event) {
    !Irrelevant(l.envelope, u)
    && exists a, s :: Reports(l.envelope, u, a, s) && !StatusReaches(l, sure, Rank(s))
  }

  /** It is the only reject of a message the provider already failed, with another reason. */
  ghost predicate Reblames(l: Ledger, sure: seq<Event>, u: Event) {
    && Decides(l.envelope, u) && u.kind.KindReject? && !SomeReject(l.envelope, sure)
    && Floored(l) && !StatusReaches(l, sure, Rank(Bounced)) && !(l.reason == ProviderRejected && !l.stamped)
  }

  predicate AddsWrite(l: Ledger, sure: seq<Event>, u: Event, x: EventId) {
    Writes(l, u, x) && x !in l.outbox && forall e :: e in sure ==> !Writes(l, e, x)
  }

  predicate AddsSuppression(l: Ledger, sure: seq<Event>, u: Event, a: string) {
    Condemns(l.envelope, u, a) && a !in l.suppressed && forall e :: e in sure ==> !Condemns(l.envelope, e, a)
  }

  /** The stray says something that nothing sure to be processed says. */
  ghost predicate Matters(l: Ledger, sure: seq<Event>, u: Event) {
    || (exists x :: AddsWrite(l, sure, u, x))
    || (exists a :: AddsSuppression(l, sure, u, a))
    || Outranks(l, sure, u)
    || Reblames(l, sure, u)
  }

  lemma VerdictOfMore(envelope: set<string>, x: seq<Event>, y: seq<Event>)
    requires forall e :: e in x ==> e in y
    ensures FirstVerdict(envelope, x) != Undecided ==> FirstVerdict(envelope, y) != Undecided
  {
    VerdictMeaning(envelope, x);
    VerdictMeaning(envelope, y);
  }

  lemma ReportedIn(l: Ledger, evs: seq<Event>, e: Event, a: string, s: Status)
    requires e in evs && !Irrelevant(l.envelope, e) && Reports(l.envelope, e, a, s)
    ensures ReportedBy(l.envelope, evs, a, s)
  {
  }

  // ---- A stray that matters ----

  lemma MatteringShows(l: Ledger, sure: seq<Event>, u: Event, all: seq<Event>)
    requires Inv(l) && Consistent(sure) && Consistent(all) && SameEvents(all, sure + [u]) && Matters(l, sure, u)
    requires FirstVerdict(l.envelope, sure) != Undecided
    ensures !SameMessage(Played(l, sure), Played(l, all))
  {
    var m, n := Played(l, sure), Played(l, all);
    PlayedExplained(l, sure);
    PlayedExplained(l, all);
    assert u in sure + [u];
    forall e | e in sure ensures e in all {
      assert e in sure + [u];
    }
    VerdictOfMore(l.envelope, sure, all);
    if x :| AddsWrite(l, sure, u, x) {
      assert x in n.outbox - {EmailSent} && x !in m.outbox;
    } else if a :| AddsSuppression(l, sure, u, a) {
      assert a in n.suppressed && a !in m.suppressed;
    } else if Outranks(l, sure, u) {
      OutrankingShows(l, sure, u, all);
    } else {
      ReblamingShows(l, sure, u, all);
    }
  }

  lemma OutrankingShows(l: Ledger, sure: seq<Event>, u: Event, all: seq<Event>)
    requires Inv(l) && Consistent(sure) && Consistent(all) && u in all && Outranks(l, sure, u)
    requires FirstVerdict(l.envelope, sure) != Undecided && FirstVerdict(l.envelope, all) != Undecided
    ensures Played(l, sure).status != Played(l, all).status
  {
    var a, s :| Reports(l.envelope, u, a, s) && !StatusReaches(l, sure, Rank(s));
    ReportsRank(l.envelope, u, a, s);
    ReportedIn(l, all, u, a, s);
    StatusIs(l, sure, Rank(s));
    StatusIs(l, all, Rank(s));
  }

  lemma FlooredStaysFailed(l: Ledger, evs: seq<Event>)
    requires Inv(l) && Consistent(evs) && FirstVerdict(l.envelope, evs) != Undecided
    requires Floored(l) && !StatusReaches(l, evs, Rank(Bounced))
    ensures Played(l, evs).status == Failed
  {
    StatusIs(l, evs, Rank(Failed));
    StatusIs(l, evs, Rank(Bounced));
    RankInjective(Failed, Played(l, evs).status);
  }

  lemma FailureReason(l: Ledger, evs: seq<Event>)
    requires Inv(l) && Consistent(evs) && FirstVerdict(l.envelope, evs) != Undecided
    requires Played(l, evs).status == Failed
    ensures var m := Played(l, evs);
      if SomeReject(l.envelope, evs) then m.reason == ProviderRejected && !m.stamped
      else m.reason == l.reason && m.stamped == l.stamped
  {
    PlayedExplained(l, evs);
  }

  lemma ReblamingShows(l: Ledger, sure: seq<Event>, u: Event, all: seq<Event>)
    requires Inv(l) && Consistent(sure) && Consistent(all) && SameEvents(all, sure + [u]) && Reblames(l, sure, u)
    requires FirstVerdict(l.envelope, sure) != Undecided && FirstVerdict(l.envelope, all) != Undecided
    ensures !SameMessage(Played(l, sure), Played(l, all))
  {
    assert u in sure + [u] && u in all;
    assert SomeReject(l.envelope, all);
    FlooredStaysFailed(l, sure);
    FailureReason(l, sure);
    if Played(l, all).status == Failed {
      FailureReason(l, all);
    }
  }

  // ---- Strays that do not matter ----

  lemma QuietStatus(l: Ledger, sure: seq<Event>, all: seq<Event>)
    requires Inv(l) && Consistent(sure) && Consistent(all) && FirstVerdict(l.envelope, sure) != Undecided
    requires forall e :: e in sure ==> e in all
    requires forall u :: u in all && u !in sure ==> !Matters(l, sure, u)
    ensures FirstVerdict(l.envelope, all) != Undecided
    ensures Played(l, sure).status == Played(l, all).status
  {
    VerdictOfMore(l.envelope, sure, all);
    forall rank: nat | rank > Rank(Sent) ensures StatusReaches(l, sure, rank) <==> StatusReaches(l, all, rank) {
      QuietReaches(l, sure, all, rank);
    }
    SameStatus(l, sure, all);
  }

  lemma QuietReaches(l: Ledger, sure: seq<Event>, all: seq<Event>, rank: nat)
    requires forall e :: e in sure ==> e in all
    requires forall u :: u in all && u !in sure ==> !Matters(l, sure, u)
    ensures StatusReaches(l, sure, rank) <==> StatusReaches(l, all, rank)
  {
    forall a, s | ReportedBy(l.envelope, sure, a, s) ensures ReportedBy(l.envelope, all, a, s) {
      var e :| e in sure && !Irrelevant(l.envelope, e) && Reports(l.envelope, e, a, s);
      ReportedIn(l, all, e, a, s);
    }
    forall a, s | ReportedBy(l.envelope, all, a, s) && Rank(s) >= rank ensures StatusReaches(l, sure, rank) {
      var e :| e in all && !Irrelevant(l.envelope, e) && Reports(l.envelope, e, a, s);
      if e in sure {
        ReportedIn(l, sure, e, a, s);
      } else {
        assert !Outranks(l, sure, e);
        assert StatusReaches(l, sure, Rank(s));
      }
    }
  }

  lemma QuietBooks(l: Ledger, sure: seq<Event>, all: seq<Event>, m: Ledger, n: Ledger)
    requires BooksExplained(l, sure, m) && BooksExplained(l, all, n) && forall e :: e in sure ==> e in all
    requires forall u :: u in all && u !in sure ==> !Matters(l, sure, u)
    ensures m.suppressed == n.suppressed && m.outbox - {EmailSent} == n.outbox - {EmailSent}
  {
    forall a ensures a in m.suppressed <==> a in n.suppressed {
      if a in n.suppressed && a !in m.suppressed {
        var u :| u in all && Condemns(l.envelope, u, a);
        assert AddsSuppression(l, sure, u, a);
      }
    }
    forall x ensures x in m.outbox - {EmailSent} <==> x in n.outbox - {EmailSent} {
      if x in n.outbox && x != EmailSent && x !in m.outbox {
        var u :| u in all && Writes(l, u, x);
        assert AddsWrite(l, sure, u, x);
      }
    }
  }

  lemma FailedRowMeans(l: Ledger, evs: seq<Event>, m: Ledger)
    requires Inv(l) && Consistent(evs) && m == Played(l, evs) && FirstVerdict(l.envelope, evs) != Undecided
    requires m.status == Failed && !SomeReject(l.envelope, evs)
    ensures Floored(l) && !StatusReaches(l, evs, Rank(Bounced))
  {
    PlayedExplained(l, evs);
    StatusIs(l, evs, Rank(Bounced));
    if !Floored(l) {
      var a :| a in m.recipients && m.recipients[a] == Failed;
      assert RowExplained(l, evs, m, a);
      if ReportedBy(l.envelope, evs, a, Failed) {
        ReportedFailure(l, evs, a);
      }
      assert a in l.recipients && l.recipients[a] == Failed;
      HighRowReaches(l, evs, a);
    }
  }

  lemma ReportedFailure(l: Ledger, evs: seq<Event>, a: string)
    requires Consistent(evs) && ReportedBy(l.envelope, evs, a, Failed)
    ensures SomeReject(l.envelope, evs)
  {
    var e :| e in evs && !Irrelevant(l.envelope, e) && Reports(l.envelope, e, a, Failed);
    ReportsRank(l.envelope, e, a, Failed);
    assert Decides(l.envelope, e);
  }

  /** A failed recipient on a message that is not itself failed for good means a worse one. */
  lemma HighRowReaches(l: Ledger, evs: seq<Event>, a: string)
    requires Inv(l) && !Floored(l) && a in l.recipients && l.recipients[a] == Failed
    ensures StatusReaches(l, evs, Rank(Bounced))
  {
    assert l.status == Bounced || l.status == Complained;
    assert l.status in l.recipients.Values;
    var b :| b in l.recipients && l.recipients[b] == l.status;
  }

  lemma QuietColumns(l: Ledger, sure: seq<Event>, all: seq<Event>, m: Ledger, n: Ledger)
    requires Inv(l) && Consistent(sure) && Consistent(all) && FirstVerdict(l.envelope, sure) != Undecided
    requires FirstVerdict(l.envelope, all) != Undecided && m == Played(l, sure) && n == Played(l, all)
    requires m.status == n.status && (forall e :: e in sure ==> e in all)
    requires forall u :: u in all && u !in sure ==> !Matters(l, sure, u)
    ensures m.source == n.source && m.reason == n.reason && m.stamped == n.stamped
  {
    PlayedExplained(l, sure);
    PlayedExplained(l, all);
    if SomeReject(l.envelope, sure) {
      assert SomeReject(l.envelope, all);
      SameColumns(l, sure, all, m, n);
    } else if !SomeReject(l.envelope, all) {
      SameColumns(l, sure, all, m, n);
    } else if m.status == Failed {
      var u :| u in all && Decides(l.envelope, u) && u.kind.KindReject?;
      FailedRowMeans(l, sure, m);
      assert !Reblames(l, sure, u);
    }
  }

  lemma QuietStrays(l: Ledger, sure: seq<Event>, all: seq<Event>)
    requires Inv(l) && Consistent(sure) && Consistent(all) && forall e :: e in sure ==> e in all
    requires forall u :: u in all && u !in sure ==> !Matters(l, sure, u)
    requires !SameEvents(sure, all) ==> SomeAcceptance(l.envelope, sure)
    ensures SameMessage(Played(l, sure), Played(l, all))
  {
    if SameEvents(sure, all) {
      PlayedConverges(l, sure, all);
    } else {
      var m, n := Played(l, sure), Played(l, all);
      PlayedExplained(l, sure);
      PlayedExplained(l, all);
      VerdictMeaning(l.envelope, sure);
      assert SomeAcceptance(l.envelope, all);
      QuietStatus(l, sure, all);
      QuietBooks(l, sure, all, m, n);
      QuietColumns(l, sure, all, m, n);
    }
  }

  // ---- The exact condition ----

  /** The guard, on the row and the notifications alone. */
  ghost predicate OrderFree(l: Ledger, evs: seq<Event>) {
    l.providerId != "" || forall u :: Stray(l, evs, u) ==> !Matters(l, Sure(l, evs), u)
  }

  lemma SureOfOrder(l: Ledger, evs: seq<Event>, x: seq<Event>)
    requires SameEvents(x, evs)
    ensures SameEvents(Sure(l, x), Sure(l, evs))
    ensures forall u :: Stray(l, x, u) ==> Stray(l, evs, u)
  {
    SureMembers(l, x);
    SureMembers(l, evs);
    forall u | Stray(l, x, u) ensures Stray(l, evs, u) {
      var f :| f in x && Repairs(l, f) && ProviderIdMatches(f.sesMessageId, u.sesMessageId);
      assert f in evs;
    }
  }

  lemma StrayHasAcceptance(l: Ledger, evs: seq<Event>, u: Event)
    requires Stray(l, evs, u)
    ensures SomeAcceptance(l.envelope, Sure(l, evs))
  {
    SureMembers(l, evs);
    var f :| f in evs && Repairs(l, f) && ProviderIdMatches(f.sesMessageId, u.sesMessageId);
    assert f in Sure(l, evs);
  }

  /** Under the guard every order leaves what the sure notifications alone leave. */
  lemma OrderFreeIsSure(l: Ledger, evs: seq<Event>, x: seq<Event>)
    requires Inv(l) && Consistent(evs) && SameEvents(x, evs) && OrderFree(l, evs)
    ensures SameMessage(Played(l, Sure(l, evs)), Feed(l, x))
  {
    var sure, heard := Sure(l, evs), Heard(l, x);
    FeedIsPlayed(l, x);
    HeardArrived(l, x);
    HeardMembers(l, x);
    SureOfOrder(l, evs, x);
    SureMembers(l, evs);
    if u :| u in heard && u !in sure {
      StrayHasAcceptance(l, evs, u);
    }
    QuietStrays(l, sure, heard);
  }

  lemma StrayDecides(l: Ledger, evs: seq<Event>, u: Event)
    requires Stray(l, evs, u)
    ensures FirstVerdict(l.envelope, Sure(l, evs)) != Undecided
  {
    StrayHasAcceptance(l, evs, u);
    VerdictMeaning(l.envelope, Sure(l, evs));
  }

  /** A stray that matters: two orders of the same arrivals that end differently. */
  lemma StrayShows(l: Ledger, evs: seq<Event>, u: Event) returns (x: seq<Event>, y: seq<Event>)
    requires Inv(l) && Consistent(evs) && l.providerId == "" && Stray(l, evs, u) && Matters(l, Sure(l, evs), u)
    ensures SameEvents(x, evs) && SameEvents(y, evs) && !SameMessage(Feed(l, x), Feed(l, y))
  {
    var sure := Sure(l, evs);
    var f :| f in evs && Repairs(l, f) && ProviderIdMatches(f.sesMessageId, u.sesMessageId);
    x, y := UnsureFirst(l, evs), StrayLast(l, evs, f, u);
    UnsureFirstHeard(l, evs);
    UnsureFirstArrives(l, evs);
    StrayLastHeard(l, evs, f, u);
    StrayLastArrives(l, evs, f, u);
    FeedIsPlayed(l, x);
    FeedIsPlayed(l, y);
    SureMembers(l, evs);
    HeardArrived(l, y);
    StrayDecides(l, evs, u);
    assert SameEvents(Heard(l, y), sure + [u]);
    MatteringShows(l, sure, u, Heard(l, y));
  }

  /** All orders of the same arrivals, with any repetitions, leave the same message exactly when its
      provider id is known beforehand, or no unmarked notification that a repaired id could correlate
      says anything that those sure to be processed do not say. */
  lemma MessageConvergesIff(l: Ledger, evs: seq<Event>)
    requires Inv(l) && Consistent(evs)
    ensures OrderFree(l, evs) <==>
      forall x, y :: SameEvents(x, evs) && SameEvents(y, evs) ==> SameMessage(Feed(l, x), Feed(l, y))
  {
    if OrderFree(l, evs) {
      forall x, y | SameEvents(x, evs) && SameEvents(y, evs) ensures SameMessage(Feed(l, x), Feed(l, y)) {
        OrderFreeIsSure(l, evs, x);
        OrderFreeIsSure(l, evs, y);
      }
    } else {
      var u :| Stray(l, evs, u) && Matters(l, Sure(l, evs), u);
      var x, y := StrayShows(l, evs, u);
    }
  }

  /** And the simple guard is exact for what it is about: all orders process the same notifications
      exactly when the provider id is known or there is no stray at all. */
  lemma SteadyIff(l: Ledger, evs: seq<Event>)
    ensures Steady(l, evs) <==>
      forall x, y :: SameEvents(x, evs) && SameEvents(y, evs) ==> SameEvents(Heard(l, x), Heard(l, y))
  {
    if Steady(l, evs) {
      forall x, y | SameEvents(x, evs) && SameEvents(y, evs) ensures SameEvents(Heard(l, x), Heard(l, y)) {
        SteadyOfOrder(l, evs, x);
        SteadyHearsAlike(l, x, y);
      }
    } else {
      var u :| u in evs && Stray(l, evs, u);
      var f :| f in evs && Repairs(l, f) && ProviderIdMatches(f.sesMessageId, u.sesMessageId);
      UnsureFirstHeard(l, evs);
      UnsureFirstArrives(l, evs);
      StrayLastHeard(l, evs, f, u);
      StrayLastArrives(l, evs, f, u);
      SureAreMarked(l, evs);
      assert u in Heard(l, StrayLast(l, evs, f, u)) && u !in Heard(l, UnsureFirst(l, evs));
    }
  }

  lemma SteadyOfOrder(l: Ledger, evs: seq<Event>, x: seq<Event>)
    requires SameEvents(x, evs) && Steady(l, evs)
    ensures Steady(l, x)
  {
    SureOfOrder(l, evs, x);
  }

  // ---- The provider id over all orders ----

  predicate RepairApart(l: Ledger, evs: seq<Event>, f: Event, g: Event) {
    f in evs && g in evs && Repairs(l, f) && Repairs(l, g) && f.sesMessageId != g.sesMessageId
  }

  /** All orders end with the same provider id exactly when it is known beforehand or every
      notification that could repair it names the same one. */
  lemma ProviderIdIff(l: Ledger, evs: seq<Event>)
    ensures l.providerId != "" || (forall f, g :: !RepairApart(l, evs, f, g)) <==>
      forall x, y :: SameEvents(x, evs) && SameEvents(y, evs) ==> SameId(l, x, y)
  {
    if f, g :| l.providerId == "" && RepairApart(l, evs, f, g) {
      ApartIdsDiffer(l, evs, f, g);
    } else {
      forall x, y | SameEvents(x, evs) && SameEvents(y, evs) ensures SameId(l, x, y) {
        NotApartIdsAgree(l, evs, x, y);
      }
    }
  }

  predicate SameId(l: Ledger, x: seq<Event>, y: seq<Event>) { Feed(l, x).providerId == Feed(l, y).providerId }

  lemma ApartIdsDiffer(l: Ledger, evs: seq<Event>, f: Event, g: Event)
    requires l.providerId == "" && RepairApart(l, evs, f, g)
    ensures var x, y := [f] + evs, [g] + evs; SameEvents(x, evs) && SameEvents(y, evs) && !SameId(l, x, y)
  {
    FirstRepairStays(l, f, evs);
    FirstRepairStays(l, g, evs);
    FeedId(l, [f] + evs);
    FeedId(l, [g] + evs);
  }

  lemma NotApartIdsAgree(l: Ledger, evs: seq<Event>, x: seq<Event>, y: seq<Event>)
    requires SameEvents(x, evs) && SameEvents(y, evs)
    requires l.providerId != "" || forall f, g :: !RepairApart(l, evs, f, g)
    ensures SameId(l, x, y)
  {
    FeedId(l, x);
    FeedId(l, y);
    IdComesFrom(l, x);
    IdComesFrom(l, y);
    if IdAfter(l, x) != IdAfter(l, y) {
      if IdAfter(l, x) != "" && IdAfter(l, y) != "" {
        var f :| f in x && Repairs(l, f) && f.sesMessageId == IdAfter(l, x);
        var g :| g in y && Repairs(l, g) && g.sesMessageId == IdAfter(l, y);
        assert RepairApart(l, evs, f, g);
        assert false;
      }
    }
  }

  // ---- A lost bounce ----

  function BounceOf(a: string): Event {
    Event(KindBounce, "S", "p2", 1, "", [RecipientOutcome(a, Bounced, "", true)], Permanent, "")
  }

  lemma LostBounceArrivals(id: string, a: string)
    requires ValidE2AMessageId(id) && Norm(a) == a && a != ""
    ensures var l := Accepted0(id, 1, {a});
      && Repairs(l, SendNotice(id)) && KindConsistent(SendNotice(id)) && KindConsistent(BounceOf(a))
      && Stray(l, [SendNotice(id), BounceOf(a)], BounceOf(a))
  {
    var l, s, b := Accepted0(id, 1, {a}), SendNotice(id), BounceOf(a);
    assert forall r :: r in b.recipients ==> r == b.recipients[0];
    var evs := [s, b];
    assert evs[0] == s && evs[1] == b;
    assert !ValidE2AMessageId("");
  }

  lemma LostBounceSound(id: string, a: string)
    requires Norm(a) == a
    ensures var s, b := SendNotice(id), BounceOf(a);
      Consistent([s]) && Consistent([s, b]) && b in [s, b] && AllBelow([s, b], 7)
  {
    var s, b := SendNotice(id), BounceOf(a);
    assert forall r :: r in b.recipients ==> r == b.recipients[0];
    assert [s, b][1] == b;
  }

  lemma LostBounceEnds(l: Ledger, a: string, there: seq<Event>, s: Event, b: Event)
    requires Inv(l) && Consistent(there) && Consistent([s]) && a in l.envelope && l.recipients == map[]
    requires b in there && AllBelow(there, 7) && b.kind.KindBounce? && Norm(a) == a && a != ""
    requires b.recipients == [RecipientOutcome(a, Bounced, "", true)]
    requires l.suppressed == {} && l.PreTerminal() && s.kind.KindSend?
    ensures Played(l, there).status == Bounced && a in Played(l, there).suppressed
    ensures Played(l, [s]).status == Sent && Played(l, [s]).suppressed == {}
  {
    SendAlone(l, s);
    BounceHeard(l, a, there, b);
  }

  /** A real case: the send confirmation carries the marker, the bounce only the provider id. In this
      order the message is bounced and its address suppressed; the other way round the bounce is lost. */
  lemma LostBounce(id: string, a: string)
    requires ValidE2AMessageId(id) && Norm(a) == a && a != ""
    ensures var l := Accepted0(id, 1, {a});
      var there, back := Feed(l, [SendNotice(id), BounceOf(a)]), Feed(l, [BounceOf(a), SendNotice(id)]);
      && there.status == Bounced && a in there.suppressed
      && back.status == Sent && back.suppressed == {}
  {
    var l, s, b := Accepted0(id, 1, {a}), SendNotice(id), BounceOf(a);
    LostBounceArrivals(id, a);
    LostBounceSound(id, a);
    InitKeeps(id, 1, {a});
    LostBounceHeard(l, s, b);
    LostBounceEnds(l, a, [s, b], s, b);
  }

  lemma LostBounceHeard(l: Ledger, s: Event, b: Event)
    requires l.providerId == "" && Repairs(l, s) && Stray(l, [s, b], b) && WellStamped(b) && !Marked(l, b)
    requires s.sesMessageId == b.sesMessageId
    ensures Feed(l, [s, b]) == Played(l, [s, b]) && Feed(l, [b, s]) == Played(l, [s])
  {
    var x, y := [s, b], [b, s];
    assert x == [s] + [b] && y == [b] + [s];
    HeardConcat(l, [s], [b]);
    HeardConcat(l, [b], [s]);
    HeardOfOne(l, s);
    HeardOfOne(l, b);
    HeardStep(l, [], s);
    HeardStep(l, [], b);
    EmptyIdMatchesNothing(b.sesMessageId);
    FirstRepairStays(l, s, []);
    assert [s] + [] == [s];
    HeardStep(l, [s], b);
    HeardOfOne(Feed(l, [s]), b);
    HeardStep(l, [b], s);
    HeardOfOne(Feed(l, [b]), s);
    FeedIsPlayed(l, x);
    FeedIsPlayed(l, y);
  }

  lemma SendAlone(l: Ledger, s: Event)
    requires Inv(l) && Consistent([s]) && l.suppressed == {} && l.PreTerminal() && s.kind.KindSend?
    ensures Played(l, [s]).status == Sent && Played(l, [s]).suppressed == {}
  {
    assert s in [s];
    VerdictMeaning(l.envelope, [s]);
    PlayedExplained(l, [s]);
    StatusIs(l, [s], 3);
    assert Condemned(l.envelope, s.recipients) == {};
  }

  lemma BounceReported(envelope: set<string>, a: string, b: Event)
    requires a in envelope && b.kind.KindBounce? && Norm(a) == a && a != ""
    requires b.recipients == [RecipientOutcome(a, Bounced, "", true)]
    ensures Reports(envelope, b, a, Bounced) && Condemns(envelope, b, a) && Decides(envelope, b)
  {
    var r := b.recipients[0];
    assert r in b.recipients && AppliesTo(envelope, r);
  }

  lemma BounceSuppresses(l: Ledger, evs: seq<Event>, a: string, b: Event)
    requires Inv(l) && Consistent(evs) && b in evs && Condemns(l.envelope, b, a)
    ensures a in Played(l, evs).suppressed
  {
    PlayedExplained(l, evs);
  }

  lemma BounceHeard(l: Ledger, a: string, evs: seq<Event>, b: Event)
    requires Inv(l) && Consistent(evs) && a in l.envelope && l.recipients == map[] && l.PreTerminal()
    requires b in evs && AllBelow(evs, 7) && b.kind.KindBounce? && Norm(a) == a && a != ""
    requires b.recipients == [RecipientOutcome(a, Bounced, "", true)]
    ensures Played(l, evs).status == Bounced && a in Played(l, evs).suppressed
  {
    BounceReported(l.envelope, a, b);
    BouncedAt(l, evs, a, b);
    BounceSuppresses(l, evs, a, b);
  }

  /** No notification of the list reports anything as high as `rank`. */
  predicate AllBelow(evs: seq<Event>, rank: nat) { forall e :: e in evs ==> Rank(StatusOfKind(e.kind)) < rank }

  lemma ReportedBelow(envelope: set<string>, evs: seq<Event>, a: string, s: Status, rank: nat)
    requires Consistent(evs) && AllBelow(evs, rank) && ReportedBy(envelope, evs, a, s)
    ensures Rank(s) < rank
  {
    var e :| e in evs && !Irrelevant(envelope, e) && Reports(envelope, e, a, s);
    ReportsRank(envelope, e, a, s);
  }

  lemma NothingReaches(l: Ledger, evs: seq<Event>, rank: nat)
    requires Consistent(evs) && AllBelow(evs, rank) && l.recipients == map[] && l.status != Failed
    ensures !StatusReaches(l, evs, rank)
  {
    forall a, s | ReportedBy(l.envelope, evs, a, s) ensures Rank(s) < rank {
      ReportedBelow(l.envelope, evs, a, s, rank);
    }
  }

  lemma ReportReaches(l: Ledger, evs: seq<Event>, e: Event, a: string, s: Status)
    requires e in evs && Decides(l.envelope, e) && Reports(l.envelope, e, a, s)
    ensures FirstVerdict(l.envelope, evs) != Undecided && StatusReaches(l, evs, Rank(s))
  {
    DecidedBy(l.envelope, evs, e);
    ReportedIn(l, evs, e, a, s);
  }

  lemma BounceReaches(l: Ledger, evs: seq<Event>, a: string, b: Event)
    requires b in evs && Reports(l.envelope, b, a, Bounced) && Decides(l.envelope, b)
    ensures FirstVerdict(l.envelope, evs) != Undecided && StatusReaches(l, evs, 6)
  {
    ReportReaches(l, evs, b, a, Bounced);
  }

  lemma StatusBounced(l: Ledger, evs: seq<Event>)
    requires Inv(l) && Consistent(evs) && FirstVerdict(l.envelope, evs) != Undecided
    requires StatusReaches(l, evs, 6) && !StatusReaches(l, evs, 7)
    ensures Played(l, evs).status == Bounced
  {
    StatusExactly(l, evs, Bounced);
  }

  lemma BouncedAt(l: Ledger, evs: seq<Event>, a: string, b: Event)
    requires Inv(l) && Consistent(evs) && b in evs && l.recipients == map[] && l.status != Failed
    requires AllBelow(evs, 7) && Reports(l.envelope, b, a, Bounced) && Decides(l.envelope, b)
    ensures Played(l, evs).status == Bounced
  {
    BounceReaches(l, evs, a, b);
    NothingReaches(l, evs, 7);
    StatusBounced(l, evs);
  }
}
