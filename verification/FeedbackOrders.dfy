/** Notifications as they arrive: only a correlated one is processed, and an early one can repair the
    provider id that a later one needs. What two orders of arrival have in common. */
module FeedbackOrders {
  import opened GoStrings
  import opened DeliveryStatus
  import opened SesNotification
  import opened Settlement
  import opened SettlementRuns
  import opened FeedbackRedelivery
  import opened FeedbackConvergence

  function Feed(l: Ledger, evs: seq<Event>): Ledger {
    if evs == [] then l else Notify(Feed(l, evs[..|evs| - 1]), evs[|evs| - 1])
  }

  /** The notifications that were processed; the others were acknowledged and lost. */
  function Heard(l: Ledger, evs: seq<Event>): seq<Event> {
    if evs == [] then []
    else
      var init, last := evs[..|evs| - 1], evs[|evs| - 1];
      Heard(l, init) + if Hears(Feed(l, init), last) then [last] else []
  }

  lemma PlayedSnoc(l: Ledger, evs: seq<Event>, e: Event)
    ensures Played(l, evs + [e]) == Process(Played(l, evs), e)
  {
    assert (evs + [e])[..|evs|] == evs;
  }

  lemma {:induction false} FeedIsPlayed(l: Ledger, evs: seq<Event>)
    ensures Feed(l, evs) == Played(l, Heard(l, evs))
  {
    if evs != [] {
      var init, last := evs[..|evs| - 1], evs[|evs| - 1];
      FeedIsPlayed(l, init);
      PlayedSnoc(l, Heard(l, init), last);
      assert Heard(l, init) + [] == Heard(l, init);
    }
  }

  lemma {:induction false} HeardArrived(l: Ledger, evs: seq<Event>)
    ensures forall e :: e in Heard(l, evs) ==> e in evs
    ensures Consistent(evs) ==> Consistent(Heard(l, evs))
  {
    if evs != [] {
      HeardArrived(l, evs[..|evs| - 1]);
      assert evs == evs[..|evs| - 1] + [evs[|evs| - 1]];
    }
  }

  /** The state after any arrivals whatever, from the processed ones alone. */
  lemma FeedExplained(l: Ledger, evs: seq<Event>)
    requires Inv(l) && Consistent(evs)
    ensures Feed(l, evs) == Played(l, Heard(l, evs)) && Explained(l, Heard(l, evs), Feed(l, evs))
  {
    FeedIsPlayed(l, evs);
    HeardArrived(l, evs);
    PlayedExplained(l, Heard(l, evs));
  }

  // ---- Correlation and the provider id ----

  /** The notification echoes the message's own id. */
  predicate Marked(l: Ledger, e: Event) { ValidE2AMessageId(e.e2aMessageId) && e.e2aMessageId == l.id }

  /** A notification that would fill in a missing provider id. */
  predicate Repairs(l: Ledger, e: Event) {
    && WellStamped(e) && Marked(l, e) && e.sesMessageId != ""
    && e.kind.ImpliesProviderAcceptance() && !Irrelevant(l.envelope, e)
  }

  /** The provider id after some arrivals: the stored one, or the first repair's. */
  function IdAfter(l: Ledger, evs: seq<Event>): string {
    if evs == [] then l.providerId
    else
      var id := IdAfter(l, evs[..|evs| - 1]);
      if id == "" && Repairs(l, evs[|evs| - 1]) then evs[|evs| - 1].sesMessageId else id
  }

  lemma ProcessId(m: Ledger, e: Event)
    ensures Process(m, e).providerId ==
      if m.providerId == "" && e.kind.ImpliesProviderAcceptance() && !Irrelevant(m.envelope, e)
      then e.sesMessageId else m.providerId
  {
    OutcomesFrame(Taken(m, e), e, e.recipients);
  }

  lemma EmptyIdMatchesNothing(ses: string)
    ensures !ProviderIdMatches("", ses)
  {
  }

  lemma {:induction false} FeedId(l: Ledger, evs: seq<Event>)
    ensures var m := Feed(l, evs);
      m.providerId == IdAfter(l, evs) && m.id == l.id && m.envelope == l.envelope
  {
    if evs != [] {
      var init, last := evs[..|evs| - 1], evs[|evs| - 1];
      FeedId(l, init);
      var m := Feed(l, init);
      ProcessId(m, last);
      ProcessConstants(m, last);
      EmptyIdMatchesNothing(last.sesMessageId);
    }
  }

  lemma HeardStep(l: Ledger, evs: seq<Event>, e: Event)
    ensures Hears(Feed(l, evs), e) <==>
      WellStamped(e) && (Marked(l, e) || ProviderIdMatches(IdAfter(l, evs), e.sesMessageId))
  {
    FeedId(l, evs);
  }

  lemma {:induction false} IdComesFrom(l: Ledger, evs: seq<Event>)
    ensures l.providerId != "" ==> IdAfter(l, evs) == l.providerId
    ensures l.providerId == "" && IdAfter(l, evs) != "" ==>
      exists f :: f in evs && Repairs(l, f) && f.sesMessageId == IdAfter(l, evs)
    ensures l.providerId == "" && IdAfter(l, evs) == "" ==> forall f :: f in evs ==> !Repairs(l, f)
  {
    if evs != [] {
      var init, last := evs[..|evs| - 1], evs[|evs| - 1];
      IdComesFrom(l, init);
      assert evs == init + [last];
      assert last in evs;
    }
  }

  /** An unmarked notification that only an id repaired by one of these can correlate. */
  predicate Stray(l: Ledger, evs: seq<Event>, u: Event) {
    && u in evs && WellStamped(u) && !Marked(l, u)
    && exists f :: f in evs && Repairs(l, f) && ProviderIdMatches(f.sesMessageId, u.sesMessageId)
  }

  /** The notifications that are processed wherever they arrive. */
  function Sure(l: Ledger, evs: seq<Event>): seq<Event> {
    if evs == [] then []
    else
      var e := evs[|evs| - 1];
      Sure(l, evs[..|evs| - 1]) +
        if WellStamped(e) && (Marked(l, e) || ProviderIdMatches(l.providerId, e.sesMessageId)) then [e] else []
  }

  lemma {:induction false} SureMembers(l: Ledger, evs: seq<Event>)
    ensures forall e :: e in Sure(l, evs) <==>
      e in evs && WellStamped(e) && (Marked(l, e) || ProviderIdMatches(l.providerId, e.sesMessageId))
    ensures Consistent(evs) ==> Consistent(Sure(l, evs))
  {
    if evs != [] {
      SureMembers(l, evs[..|evs| - 1]);
      assert evs == evs[..|evs| - 1] + [evs[|evs| - 1]];
    }
  }

  /** Arrivals in any order: the sure ones are processed, and besides them only strays can be, which
      there are only while the message has no provider id. */
  lemma {:induction false} HeardMembers(l: Ledger, evs: seq<Event>)
    ensures forall e :: e in Sure(l, evs) ==> e in Heard(l, evs)
    ensures forall e :: e in Heard(l, evs) ==>
      e in evs && (e in Sure(l, evs) || (l.providerId == "" && Stray(l, evs, e)))
  {
    if evs != [] {
      var init, last := evs[..|evs| - 1], evs[|evs| - 1];
      HeardMembers(l, init);
      HeardStep(l, init, last);
      IdComesFrom(l, init);
      assert evs == init + [last];
      forall e | e in Heard(l, init) && l.providerId == "" && Stray(l, init, e) ensures Stray(l, evs, e) {
        var f :| f in init && Repairs(l, f) && ProviderIdMatches(f.sesMessageId, e.sesMessageId);
        assert f in evs;
      }
      if Hears(Feed(l, init), last) && last !in Sure(l, evs) {
        LastIsStray(l, init, last);
      }
    }
  }

  lemma LastIsStray(l: Ledger, init: seq<Event>, last: Event)
    requires WellStamped(last) && !Marked(l, last) && !ProviderIdMatches(l.providerId, last.sesMessageId)
    requires ProviderIdMatches(IdAfter(l, init), last.sesMessageId)
    ensures l.providerId == "" && Stray(l, init + [last], last)
  {
    IdComesFrom(l, init);
    EmptyIdMatchesNothing(last.sesMessageId);
    var f :| f in init && Repairs(l, f) && f.sesMessageId == IdAfter(l, init);
    assert f in init + [last] && last in init + [last];
  }

  // ---- Pairs of orders ----

  /** The guard: a known provider id, or no unmarked notification that a repaired id could match. */
  predicate Steady(l: Ledger, evs: seq<Event>) {
    l.providerId != "" || forall u :: u in evs ==> !Stray(l, evs, u)
  }

  lemma SteadyHearsAlike(l: Ledger, x: seq<Event>, y: seq<Event>)
    requires SameEvents(x, y) && Steady(l, x)
    ensures SameEvents(Heard(l, x), Heard(l, y))
  {
    HeardMembers(l, x);
    HeardMembers(l, y);
    SureMembers(l, x);
    SureMembers(l, y);
    forall u | Stray(l, y, u) ensures Stray(l, x, u) {
      var f :| f in y && Repairs(l, f) && ProviderIdMatches(f.sesMessageId, u.sesMessageId);
      assert f in x;
    }
  }

  /** Under the guard any two orders of the same arrivals, with any repetitions, leave the same message. */
  lemma SteadyMessageConverges(l: Ledger, x: seq<Event>, y: seq<Event>)
    requires Inv(l) && Consistent(x) && Consistent(y) && SameEvents(x, y) && Steady(l, x)
    ensures SameMessage(Feed(l, x), Feed(l, y))
  {
    SteadyHearsAlike(l, x, y);
    FeedIsPlayed(l, x);
    FeedIsPlayed(l, y);
    HeardArrived(l, x);
    HeardArrived(l, y);
    PlayedConverges(l, Heard(l, x), Heard(l, y));
  }

  /** Two lists of arrivals compared through the notifications each had processed: they end with the same
      row for a recipient exactly when these take it equally far. */
  lemma RecipientsConverge(l: Ledger, x: seq<Event>, y: seq<Event>, a: string)
    requires Inv(l) && Consistent(x) && Consistent(y)
    ensures var hx, hy := Heard(l, x), Heard(l, y);
      var same := SameAt(Feed(l, x).recipients, Feed(l, y).recipients, a);
      && (same <==> forall rank: nat :: rank > 0 ==> (RowReaches(l, hx, a, rank) <==> RowReaches(l, hy, a, rank)))
      && (SameEvents(hx, hy) ==> (same <==> !OrderShows(l, hx, hy, a)))
  {
    var hx, hy := Heard(l, x), Heard(l, y);
    FeedIsPlayed(l, x);
    FeedIsPlayed(l, y);
    HeardArrived(l, x);
    HeardArrived(l, y);
    if SameAt(Feed(l, x).recipients, Feed(l, y).recipients, a) {
      forall rank: nat | rank > 0 ensures RowReaches(l, hx, a, rank) <==> RowReaches(l, hy, a, rank) {
        RowIs(l, hx, a, rank);
        RowIs(l, hy, a, rank);
      }
    }
    if forall rank: nat :: rank > 0 ==> (RowReaches(l, hx, a, rank) <==> RowReaches(l, hy, a, rank)) {
      SameRow(l, hx, hy, a);
    }
    if SameEvents(hx, hy) {
      PlayedRowsConverge(l, hx, hy, a);
    }
  }

  /** Everything but the provider id. */
  ghost predicate SameButForId(m: Ledger, n: Ledger) { m == n.(providerId := m.providerId) }

  lemma SamePieces(m: Ledger, n: Ledger)
    requires SameMessage(m, n) && m.meters == n.meters && (EmailSent in m.outbox <==> EmailSent in n.outbox)
    requires forall a :: SameAt(m.recipients, n.recipients, a)
    ensures SameButForId(m, n)
  {
    SameMaps(m.recipients, n.recipients);
    forall i ensures i in m.outbox <==> i in n.outbox {
      assert i in m.outbox - {EmailSent} <==> i in n.outbox - {EmailSent};
    }
    assert m.outbox == n.outbox;
  }

  lemma SameMaps(x: map<string, Status>, y: map<string, Status>)
    requires forall a :: SameAt(x, y, a)
    ensures x == y
  {
    forall a ensures (a in x <==> a in y) && (a in x ==> x[a] == y[a]) {
      assert SameAt(x, y, a);
    }
  }

  lemma PlayedAgree(l: Ledger, x: seq<Event>, y: seq<Event>)
    requires Inv(l) && Consistent(x) && Consistent(y) && SameEvents(x, y)
    ensures SameButForId(Played(l, x), Played(l, y)) <==> SettledByFeed(l, x) == SettledByFeed(l, y)
  {
    PlayedRowsConverge(l, x, y, "");
    if SettledByFeed(l, x) == SettledByFeed(l, y) {
      PlayedConverges(l, x, y);
      forall a ensures SameAt(Played(l, x).recipients, Played(l, y).recipients, a) {
        PlayedRowsConverge(l, x, y, a);
      }
      SamePieces(Played(l, x), Played(l, y));
    }
  }

  /** With the same notifications processed, the whole rows agree but for the provider id exactly when
      both orders settle the message or neither does, and agree altogether exactly when, besides, the
      first repair of the id is the same. */
  lemma FeedsAgreeIff(l: Ledger, x: seq<Event>, y: seq<Event>)
    requires Inv(l) && Consistent(x) && Consistent(y) && SameEvents(Heard(l, x), Heard(l, y))
    ensures var settledAlike := SettledByFeed(l, Heard(l, x)) == SettledByFeed(l, Heard(l, y));
      && (SameButForId(Feed(l, x), Feed(l, y)) <==> settledAlike)
      && (Feed(l, x) == Feed(l, y) <==> settledAlike && IdAfter(l, x) == IdAfter(l, y))
  {
    FeedIsPlayed(l, x);
    FeedIsPlayed(l, y);
    HeardArrived(l, x);
    HeardArrived(l, y);
    FeedId(l, x);
    FeedId(l, y);
    PlayedAgree(l, Heard(l, x), Heard(l, y));
  }

  /** In particular nothing but the repaired id depends on the order when the message is not open, or
      only one verdict was heard. */
  lemma SingleVerdictConverges(l: Ledger, x: seq<Event>, y: seq<Event>)
    requires Inv(l) && Consistent(x) && Consistent(y) && SameEvents(Heard(l, x), Heard(l, y))
    requires !l.Settleable() || !SomeAcceptance(l.envelope, Heard(l, x)) || !SomeReject(l.envelope, Heard(l, x))
    ensures SameButForId(Feed(l, x), Feed(l, y))
    ensures Feed(l, x) == Feed(l, y) <==> IdAfter(l, x) == IdAfter(l, y)
  {
    var hx, hy := Heard(l, x), Heard(l, y);
    FeedsAgreeIff(l, x, y);
    VerdictMeaning(l.envelope, hx);
    VerdictMeaning(l.envelope, hy);
    SameReports(l.envelope, hx, hy, "", NoStatus);
  }
}
