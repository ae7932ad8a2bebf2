/** What a sent message keeps for the feedback to come: its provider id, and with it the notifications
    that can name the message by nothing else. */
module SentMessages {
  import opened GoStrings
  import opened DeliveryStatus
  import opened SesNotification
  import opened Settlement
  import opened SettlementRuns
  import opened FeedbackRedelivery
  import opened FeedbackConvergence
  import opened FeedbackOrders
  import opened SettlementLimits

  // ---- Which notifications are heard ----

  /** The message's provider id `stored` is the SES id `ses`: bare, in angle brackets, or in angle
      brackets with the host the provider adds. */
  ghost predicate NamesTheSame(stored: string, ses: string) {
    || stored == ses
    || stored == "<" + ses + ">"
    || exists host :: stored == "<" + ses + "@" + host
  }

  lemma PrefixHasRest(p: string, s: string)
    ensures p <= s <==> exists rest :: s == p + rest
  {
    if p <= s {
      assert s == p + s[|p|..];
    }
  }

  /** Exactly which notifications reach a message: those with an event id and a time that echo the
      message's own id, or name its provider id in one of the three shapes. */
  lemma HearsIff(l: Ledger, ev: Event)
    ensures Hears(l, ev) <==>
      && TrimSpace(ev.providerEventId) != "" && ev.occurredAt != 0
      && ((ValidE2AMessageId(ev.e2aMessageId) && ev.e2aMessageId == l.id)
          || (ev.sesMessageId != "" && NamesTheSame(l.providerId, ev.sesMessageId)))
  {
    PrefixHasRest("<" + ev.sesMessageId + "@", l.providerId);
  }

  // ---- The provider id stays ----

  /** A status that no worker can bring back to the queue. */
  lemma SettledStays(l: Ledger, s: Step)
    requires Inv(l) && Parsed(s) && Rank(l.status) >= Rank(Sent)
    ensures Rank(Next(l, s).status) >= Rank(Sent)
  {
    RankFallsIff(l, s);
    if Corrects(l, s) {
      AcceptedRank(l, s.ev);
    }
  }

  lemma AcceptedRank(l: Ledger, e: Event)
    requires Inv(l) && KindConsistent(e) && !Irrelevant(l.envelope, e) && e.kind.ImpliesProviderAcceptance()
    ensures Rank(Process(l, e).status) >= Rank(Sent)
  {
    assert e in [e];
    DecidedBy(l.envelope, [e], e);
    OnePlayed(l, e);
    StatusIs(l, [e], 3);
  }

  lemma KnownIdStays(l: Ledger, s: Step)
    requires l.providerId != "" && l.status != Sending
    ensures Next(l, s).providerId == l.providerId
  {
    if s.Notifying? {
      ProcessId(l, s.ev);
    }
  }

  /** Once the worker has marked a message sent, the provider id it stored stays for the rest of any run. */
  lemma {:induction false} SentIdStays(l: Ledger, p: string, steps: seq<Step>)
    requires Inv(l) && AllParsed(steps) && l.status == Sending && p != ""
    ensures var m := Exec(Next(l, MarkingSent(p)), steps);
      m.providerId == p && Rank(m.status) >= Rank(Sent) && Inv(m)
  {
    var sent := Next(l, MarkingSent(p));
    WorkerStepKeeps(l, MarkingSent(p));
    ReachableKeeps(sent, steps);
    if steps != [] {
      var init, last := steps[..|steps| - 1], steps[|steps| - 1];
      SentIdStays(l, p, init);
      assert Parsed(last);
      KnownIdStays(Exec(sent, init), last);
      SettledStays(Exec(sent, init), last);
    }
  }

  /** In every run from acceptance: after the worker marked the message sent under `p`, a well-stamped
      notification is processed at every later moment when its SES id is `p`, or is `p` without the
      angle brackets, or without them and the host, whether or not it carries a marker. */
  lemma SentMessageIsHeard(
    id: string, job: int, envelope: set<string>, before: seq<Step>, p: string, later: seq<Step>, ev: Event)
    requires AllParsed(before) && AllParsed(later) && p != ""
    requires Exec(Accepted0(id, job, envelope), before).status == Sending
    requires TrimSpace(ev.providerEventId) != "" && ev.occurredAt != 0 && ev.sesMessageId != ""
    requires || p == ev.sesMessageId || p == "<" + ev.sesMessageId + ">"
             || exists host :: p == "<" + ev.sesMessageId + "@" + host
    ensures var m := Exec(Next(Exec(Accepted0(id, job, envelope), before), MarkingSent(p)), later);
      m.providerId == p && Next(m, Notifying(ev)) == Process(m, ev)
  {
    var start := Accepted0(id, job, envelope);
    InitKeeps(id, job, envelope);
    ReachableKeeps(start, before);
    SentIdStays(Exec(start, before), p, later);
    HearsIff(Exec(Next(Exec(start, before), MarkingSent(p)), later), ev);
  }

  // ---- From the raw notification to the suppression ----

  /** A notification that some envelope recipient bounced for good. */
  ghost predicate BouncedForGood(n: Notification, envelope: set<string>, a: string) {
    && n.eventType == "Bounce" && n.bounce.Some? && ToLower(TrimSpace(n.bounce.value.bounceType)) == "permanent"
    && a != "" && a in envelope && exists d :: d in n.bounce.value.recipients && Norm(d.address) == a
  }

  lemma BounceOutcome(n: Notification, envelope: set<string>, ev: Event, a: string)
    requires Describes(n, ev) && BouncedForGood(n, envelope, a)
    ensures ev.kind.KindBounce? && Decides(envelope, ev)
    ensures Reports(envelope, ev, a, Bounced) && Condemns(envelope, ev, a)
  {
    var ds := n.bounce.value.recipients;
    var i :| 0 <= i < |ds| && Norm(ds[i].address) == a;
    var r := ev.recipients[i];
    NormIdempotent(ds[i].address);
    assert r in ev.recipients && AppliesTo(envelope, r);
  }

  lemma ReportLands(m: Ledger, ev: Event, a: string, s: Status)
    requires Inv(m) && KindConsistent(ev) && Decides(m.envelope, ev) && Reports(m.envelope, ev, a, s)
    requires Rank(s) > Rank(Sent)
    ensures Rank(Process(m, ev).status) >= Rank(s)
  {
    assert ev in [ev];
    DecidedBy(m.envelope, [ev], ev);
    OnePlayed(m, ev);
    assert ReportedBy(m.envelope, [ev], a, s);
    StatusIs(m, [ev], Rank(s));
  }

  lemma BounceLands(m: Ledger, ev: Event, a: string)
    requires Inv(m) && KindConsistent(ev) && Decides(m.envelope, ev)
    requires Reports(m.envelope, ev, a, Bounced) && Condemns(m.envelope, ev, a)
    ensures a in Process(m, ev).suppressed
    ensures Process(m, ev).status == Bounced || Process(m, ev).status == Complained
  {
    CondemnLands(m, ev, a);
    StatusLands(m, ev, a);
  }

  lemma StatusLands(m: Ledger, ev: Event, a: string)
    requires Inv(m) && KindConsistent(ev) && Decides(m.envelope, ev) && Reports(m.envelope, ev, a, Bounced)
    ensures Process(m, ev).status == Bounced || Process(m, ev).status == Complained
  {
    ReportLands(m, ev, a, Bounced);
    OnlyTwoAbove(Process(m, ev).status);
  }

  lemma CondemnLands(m: Ledger, ev: Event, a: string)
    requires Condemns(m.envelope, ev, a)
    ensures a in Process(m, ev).suppressed
  {
    CondemnedAreSuppressed(m, ev);
  }

  lemma OnlyTwoAbove(s: Status)
    requires Rank(s) >= 6
    ensures s == Bounced || s == Complained
  {
  }

  /** A permanent bounce of a message the worker has sent, told by nothing but its SES id, suppresses the
      bounced envelope recipient and leaves the message bounced or complained about. */
  lemma HardBounceSuppresses(
    id: string, job: int, envelope: set<string>, before: seq<Step>, later: seq<Step>,
    n: Notification, ev: Event, a: string)
    requires AllParsed(before) && AllParsed(later)
    requires Exec(Accepted0(id, job, envelope), before).status == Sending
    requires n.messageId != "" && Describes(n, ev) && TrimSpace(ev.providerEventId) != "" && ev.occurredAt != 0
    requires BouncedForGood(n, envelope, a)
    ensures var sent := Next(Exec(Accepted0(id, job, envelope), before), MarkingSent(n.messageId));
      var after := Next(Exec(sent, later), Notifying(ev));
      a in after.suppressed && (after.status == Bounced || after.status == Complained)
  {
    SentRun(id, job, envelope, before, n.messageId, later);
    SentMessageIsHeard(id, job, envelope, before, n.messageId, later, ev);
    BounceOutcome(n, envelope, ev, a);
    BounceLands(Exec(Next(Exec(Accepted0(id, job, envelope), before), MarkingSent(n.messageId)), later), ev, a);
  }

  lemma SentRun(id: string, job: int, envelope: set<string>, before: seq<Step>, p: string, later: seq<Step>)
    requires AllParsed(before) && AllParsed(later) && p != ""
    requires Exec(Accepted0(id, job, envelope), before).status == Sending
    ensures var m := Exec(Next(Exec(Accepted0(id, job, envelope), before), MarkingSent(p)), later);
      Inv(m) && m.envelope == envelope
  {
    var start := Accepted0(id, job, envelope);
    InitKeeps(id, job, envelope);
    ReachableKeeps(start, before);
    ReachableConstants(start, before);
    ReachableConstants(Next(Exec(start, before), MarkingSent(p)), later);
    SentIdStays(Exec(start, before), p, later);
  }
}
