/** The push events of one recipient over a whole run, and exactly when one fails to rise above those
    already there. */
module FeedbackPushes {
  import opened GoStrings
  import opened DeliveryStatus
  import opened SesNotification
  import opened Settlement
  import opened SettlementRuns
  import opened FeedbackRedelivery

  /** How high the status stands that a push event announces. */
  function PushRank(reason: FeedbackReason): nat {
    match reason
    case ServerAccepted => Rank(Delivered)
    case BounceReason(_) => Rank(Bounced)
    case ComplaintReported => Rank(Complained)
    case _ => 0
  }

  predicate PushFor(x: EventId, a: string) { x.RecipientEvent? && x.address == a }

  /** A push event of the recipient that stands at least at `rank` is in the outbox. */
  predicate PushedTo(outbox: set<EventId>, a: string, rank: nat) {
    exists x :: x in outbox && PushFor(x, a) && PushRank(x.reason) >= rank
  }

  /** A processed notification reports for the recipient a status that is pushed, of at least `rank`. */
  predicate ReportsPush(envelope: set<string>, ev: Event, a: string, rank: nat) {
    exists r :: r in ev.recipients && AppliesTo(envelope, r) && Norm(r.address) == a
      && Pushes(r.status) && Rank(r.status) >= rank
  }

  lemma PushRankIs(ev: Event, s: Status)
    requires Pushes(s)
    ensures PushRank(ReasonFor(ev, s)) == Rank(s)
  {
  }

  lemma EmittedPush(envelope: set<string>, ev: Event, x: EventId, a: string)
    requires Emits(envelope, ev, ev.recipients, x) && PushFor(x, a)
    ensures ReportsPush(envelope, ev, a, PushRank(x.reason))
  {
    var r :| r in ev.recipients && EmitsOne(envelope, ev, r, x);
    PushRankIs(ev, r.status);
  }

  lemma ReportedPush(envelope: set<string>, ev: Event, a: string, rank: nat) returns (x: EventId)
    requires ReportsPush(envelope, ev, a, rank)
    ensures Emits(envelope, ev, ev.recipients, x) && PushFor(x, a) && PushRank(x.reason) >= rank
  {
    var r :| r in ev.recipients && AppliesTo(envelope, r) && Norm(r.address) == a
      && Pushes(r.status) && Rank(r.status) >= rank;
    PushRankIs(ev, r.status);
    x := RecipientEvent(ev.providerEventId, a, ReasonFor(ev, r.status));
    assert EmitsOne(envelope, ev, r, x);
  }

  lemma ProcessPushes(l: Ledger, ev: Event, x: EventId)
    requires x.RecipientEvent? && !Irrelevant(l.envelope, ev)
    ensures x in Process(l, ev).outbox <==> x in l.outbox || Emits(l.envelope, ev, ev.recipients, x)
  {
    TakenFrame(l, ev);
    OutcomesOutbox(Taken(l, ev), ev, ev.recipients, x);
  }

  /** One step: only a processed notification adds pushes, and it adds exactly those it reports. */
  lemma NextPushes(l: Ledger, s: Step, x: EventId)
    requires x.RecipientEvent?
    ensures x in Next(l, s).outbox <==>
      x in l.outbox || (s.Notifying? && Processes(l, s.ev) && Emits(l.envelope, s.ev, s.ev.recipients, x))
  {
    if s.Notifying? {
      if !Irrelevant(l.envelope, s.ev) {
        ProcessPushes(l, s.ev, x);
      }
    }
  }

  lemma NextPushedTo(l: Ledger, s: Step, a: string, rank: nat)
    ensures PushedTo(Next(l, s).outbox, a, rank) <==>
      || PushedTo(l.outbox, a, rank)
      || (s.Notifying? && Processes(l, s.ev) && ReportsPush(l.envelope, s.ev, a, rank))
  {
    if x :| x in Next(l, s).outbox && PushFor(x, a) && PushRank(x.reason) >= rank {
      NextPushes(l, s, x);
      if x !in l.outbox {
        EmittedPush(l.envelope, s.ev, x, a);
      }
    }
    if x :| x in l.outbox && PushFor(x, a) && PushRank(x.reason) >= rank {
      NextPushes(l, s, x);
    }
    if s.Notifying? && Processes(l, s.ev) && ReportsPush(l.envelope, s.ev, a, rank) {
      var x := ReportedPush(l.envelope, s.ev, a, rank);
      NextPushes(l, s, x);
    }
  }

  // ---- Over runs ----

  /** Step `k` of the run processed a notification that reported such a status. */
  predicate ReportedAt(l: Ledger, steps: seq<Step>, k: nat, a: string, rank: nat) {
    && k < |steps| && steps[k].Notifying? && Processes(Exec(l, steps[..k]), steps[k].ev)
    && ReportsPush(l.envelope, steps[k].ev, a, rank)
  }

  predicate ReportedEarlier(l: Ledger, steps: seq<Step>, a: string, rank: nat) {
    exists k :: 0 <= k < |steps| && ReportedAt(l, steps, k, a, rank)
  }

  lemma ReportedEarlierSplit(l: Ledger, steps: seq<Step>, a: string, rank: nat)
    requires steps != []
    ensures ReportedEarlier(l, steps, a, rank) <==>
      ReportedEarlier(l, steps[..|steps| - 1], a, rank) || ReportedAt(l, steps, |steps| - 1, a, rank)
  {
    var init := steps[..|steps| - 1];
    forall k | 0 <= k < |init| ensures ReportedAt(l, init, k, a, rank) <==> ReportedAt(l, steps, k, a, rank) {
      assert init[..k] == steps[..k] && init[k] == steps[k];
    }
  }

  /** The outbox holds a push of at least some rank exactly when an earlier processed notification
      reported a pushed status of at least that rank. */
  lemma {:induction false} PushHistory(l: Ledger, steps: seq<Step>, a: string, rank: nat)
    requires forall x :: x in l.outbox ==> !x.RecipientEvent?
    ensures PushedTo(Exec(l, steps).outbox, a, rank) <==> ReportedEarlier(l, steps, a, rank)
  {
    if steps != [] {
      var init, last := steps[..|steps| - 1], steps[|steps| - 1];
      PushHistory(l, init, a, rank);
      NextPushedTo(Exec(l, init), last, a, rank);
      ReachableConstants(l, init);
      ReportedEarlierSplit(l, steps, a, rank);
    }
  }

  /** The step adds a push that does not rank above every push of the recipient already there. */
  predicate FailsToRise(before: Ledger, after: Ledger, a: string) {
    exists x :: x in after.outbox && x !in before.outbox && PushFor(x, a)
      && PushedTo(before.outbox, a, PushRank(x.reason))
  }

  /** The push is new: it was not announced by an earlier delivery of the same notification. */
  predicate NewPush(l: Ledger, ev: Event, r: RecipientOutcome, a: string) {
    && r in ev.recipients && AppliesTo(l.envelope, r) && Norm(r.address) == a && Pushes(r.status)
    && RecipientEvent(ev.providerEventId, a, ReasonFor(ev, r.status)) !in l.outbox
  }

  /** In every run, the next notification writes a push that fails to rise exactly when it is processed
      and reports a status not pushed before that some earlier processed notification already matched or
      exceeded with a pushed one. */
  lemma FailsToRiseIff(id: string, job: int, envelope: set<string>, steps: seq<Step>, ev: Event, a: string)
    ensures var start := Accepted0(id, job, envelope);
      var l := Exec(start, steps);
      FailsToRise(l, Next(l, Notifying(ev)), a) <==>
        Processes(l, ev) && exists r :: NewPush(l, ev, r, a) && ReportedEarlier(start, steps, a, Rank(r.status))
  {
    var start := Accepted0(id, job, envelope);
    var l := Exec(start, steps);
    var n := Next(l, Notifying(ev));
    if x :| x in n.outbox && x !in l.outbox && PushFor(x, a) && PushedTo(l.outbox, a, PushRank(x.reason)) {
      NextPushes(l, Notifying(ev), x);
      var r :| r in ev.recipients && EmitsOne(l.envelope, ev, r, x);
      PushRankIs(ev, r.status);
      PushHistory(start, steps, a, Rank(r.status));
      assert NewPush(l, ev, r, a);
    }
    if r :| Processes(l, ev) && NewPush(l, ev, r, a) && ReportedEarlier(start, steps, a, Rank(r.status)) {
      var x := RecipientEvent(ev.providerEventId, a, ReasonFor(ev, r.status));
      PushRankIs(ev, r.status);
      PushHistory(start, steps, a, Rank(r.status));
      assert EmitsOne(l.envelope, ev, r, x);
      NextPushes(l, Notifying(ev), x);
    }
  }

  // ---- A push that does not rise ----

  function HardBounce(id: string, a: string): Event {
    Event(KindBounce, "S", "p1", 1, id, [RecipientOutcome(a, Bounced, "", true)], Permanent, "")
  }

  function LateDelivery(id: string, a: string): Event {
    Event(KindDelivery, "S", "p2", 2, id, [RecipientOutcome(a, Delivered, "", false)], NoBounceType, "")
  }

  lemma OnlyRecipient(e: Event, r: RecipientOutcome, envelope: set<string>, a: string)
    requires e.recipients == [r] && r.address == a && Norm(a) == a && a != "" && a in envelope && r.status.Valid()
    ensures r in e.recipients && AppliesTo(envelope, r) && !Irrelevant(envelope, e)
    ensures forall q :: q in e.recipients ==> q == r
  {
    assert e.recipients[0] == r;
  }

  lemma ArrivalsConsistent(id: string, a: string)
    requires Norm(a) == a && a != ""
    ensures KindConsistent(HardBounce(id, a)) && KindConsistent(LateDelivery(id, a))
    ensures WellStamped(HardBounce(id, a)) && WellStamped(LateDelivery(id, a))
  {
    var bounce, delivery := HardBounce(id, a), LateDelivery(id, a);
    OnlyRecipient(bounce, bounce.recipients[0], {a}, a);
    OnlyRecipient(delivery, delivery.recipients[0], {a}, a);
  }

  /** A real run: a bounce, and then a delivery of the same message to the same recipient. Both are
      announced, the lower one after the higher one. */
  lemma LateDeliveryStillAnnounced(id: string, job: int, a: string)
    requires ValidE2AMessageId(id) && Norm(a) == a && a != ""
    ensures var start := Accepted0(id, job, {a});
      var bounce, delivery := HardBounce(id, a), LateDelivery(id, a);
      var once, twice := Exec(start, [Notifying(bounce)]), Exec(start, [Notifying(bounce), Notifying(delivery)]);
      && KindConsistent(bounce) && KindConsistent(delivery)
      && RecipientEvent("p1", a, BounceReason(Permanent)) in once.outbox
      && RecipientEvent("p1", a, BounceReason(Permanent)) in twice.outbox
      && RecipientEvent("p2", a, ServerAccepted) in twice.outbox
      && FailsToRise(once, twice, a)
  {
    var start := Accepted0(id, job, {a});
    var bounce, delivery := HardBounce(id, a), LateDelivery(id, a);
    ArrivalsConsistent(id, a);
    TwoPushes(start, bounce, delivery, bounce.recipients[0], delivery.recipients[0], a);
  }

  lemma ExecTwo(l: Ledger, s: Step, t: Step)
    ensures Exec(l, [s]) == Next(l, s) && Exec(l, [s, t]) == Next(Next(l, s), t)
  {
    assert [s][..0] == [] && [s, t][..1] == [s];
  }

  /** A processed notification of a single outcome writes its push. */
  lemma PushIsWritten(l: Ledger, s: Step, r: RecipientOutcome, a: string)
    requires s.Notifying? && WellStamped(s.ev) && ValidE2AMessageId(l.id) && s.ev.e2aMessageId == l.id
    requires s.ev.recipients == [r] && r.address == a && Norm(a) == a && a != "" && a in l.envelope
    requires Pushes(r.status)
    ensures var x := RecipientEvent(s.ev.providerEventId, a, ReasonFor(s.ev, r.status));
      x in Next(l, s).outbox && forall y :: y in Next(l, s).outbox && y.RecipientEvent? ==> y in l.outbox || y == x
  {
    OnlyRecipient(s.ev, r, l.envelope, a);
    var x := RecipientEvent(s.ev.providerEventId, a, ReasonFor(s.ev, r.status));
    assert EmitsOne(l.envelope, s.ev, r, x);
    forall y: EventId | y.RecipientEvent? ensures y in Next(l, s).outbox <==>
      y in l.outbox || Emits(l.envelope, s.ev, s.ev.recipients, y)
    {
      NextPushes(l, s, y);
    }
  }

  /** A marked notification of a single pushed outcome. */
  predicate Announces(l: Ledger, ev: Event, r: RecipientOutcome, a: string) {
    && WellStamped(ev) && ValidE2AMessageId(l.id) && ev.e2aMessageId == l.id
    && ev.recipients == [r] && r.address == a && Norm(a) == a && a != "" && a in l.envelope && Pushes(r.status)
  }

  /** What the next state holds: the old outbox, this push, and no other new push. */
  ghost predicate Announced(l: Ledger, m: Ledger, x: EventId) {
    && m.id == l.id && m.envelope == l.envelope && l.outbox <= m.outbox && x in m.outbox
    && forall y :: y in m.outbox && y.RecipientEvent? ==> y in l.outbox || y == x
  }

  lemma AnnouncedNext(l: Ledger, ev: Event, r: RecipientOutcome, a: string) returns (m: Ledger, x: EventId)
    requires Announces(l, ev, r, a)
    ensures m == Next(l, Notifying(ev)) && x == RecipientEvent(ev.providerEventId, a, ReasonFor(ev, r.status))
    ensures Announced(l, m, x)
  {
    m, x := Next(l, Notifying(ev)), RecipientEvent(ev.providerEventId, a, ReasonFor(ev, r.status));
    PushIsWritten(l, Notifying(ev), r, a);
    NextConstants(l, Notifying(ev));
    NextGrows(l, Notifying(ev));
  }

  lemma LowerAfterHigher(l: Ledger, m: Ledger, n: Ledger, x: EventId, y: EventId, a: string)
    requires forall z :: z in l.outbox ==> !z.RecipientEvent?
    requires Announced(l, m, x) && Announced(m, n, y) && x != y && PushFor(x, a) && PushFor(y, a)
    requires PushRank(x.reason) >= PushRank(y.reason)
    ensures x in n.outbox && FailsToRise(m, n, a)
  {
    assert y !in m.outbox;
  }

  lemma TwoPushes(l: Ledger, e: Event, f: Event, r: RecipientOutcome, v: RecipientOutcome, a: string)
    requires forall x :: x in l.outbox ==> !x.RecipientEvent?
    requires Announces(l, e, r, a) && Announces(l, f, v, a) && e.providerEventId != f.providerEventId
    requires Rank(r.status) >= Rank(v.status)
    ensures var once, twice := Exec(l, [Notifying(e)]), Exec(l, [Notifying(e), Notifying(f)]);
      var x := RecipientEvent(e.providerEventId, a, ReasonFor(e, r.status));
      && x in once.outbox && x in twice.outbox
      && RecipientEvent(f.providerEventId, a, ReasonFor(f, v.status)) in twice.outbox
      && FailsToRise(once, twice, a)
  {
    ExecTwo(l, Notifying(e), Notifying(f));
    PushRankIs(e, r.status);
    PushRankIs(f, v.status);
    var m, x := AnnouncedNext(l, e, r, a);
    var n, y := AnnouncedNext(m, f, v, a);
    LowerAfterHigher(l, m, n, x, y, a);
  }
}
