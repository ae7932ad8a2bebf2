/** The two announcements of a message's fate, email.sent and email.failed: over every run, exactly which
    steps write them, and what the worker's two final writes leave in the row. */
module SettlementNotices {
  import opened GoStrings
  import opened DeliveryStatus
  import opened SesNotification
  import opened Settlement
  import opened SettlementRuns
  import opened FeedbackRedelivery
  import opened FeedbackConvergence

  // ---- One step ----

  /** The worker's failure takes effect on a row that is still open and holds no evidence, or the provider
      rejects the message. */
  predicate AnnouncesFailure(l: Ledger, s: Step) {
    || (s.MarkingFailed? && (l.status == Accepted || l.status == Sending) && !l.evidence)
    || (s.Notifying? && Processes(l, s.ev) && s.ev.kind.KindReject?)
  }

  /** The worker's success takes effect on a claimed row, or acceptance is heard of while the row is open. */
  predicate AnnouncesSuccess(l: Ledger, s: Step) {
    || (s.MarkingSent? && l.status == Sending)
    || (s.Notifying? && Processes(l, s.ev) && s.ev.kind.ImpliesProviderAcceptance()
        && (l.status == Accepted || l.status == Sending || (l.status == Failed && l.source != Provider)))
  }

  lemma NextAnnounces(l: Ledger, s: Step)
    requires Inv(l) && Parsed(s)
    ensures EmailFailed in Next(l, s).outbox <==> EmailFailed in l.outbox || AnnouncesFailure(l, s)
    ensures EmailSent in Next(l, s).outbox <==> EmailSent in l.outbox || AnnouncesSuccess(l, s)
  {
    if s.Notifying? && Processes(l, s.ev) {
      ProcessOutbox(l, s.ev, EmailFailed);
      ProcessSent(l, s.ev);
    }
  }

  // ---- Over runs ----

  predicate FailureAt(l: Ledger, steps: seq<Step>, k: nat) {
    k < |steps| && AnnouncesFailure(Exec(l, steps[..k]), steps[k])
  }

  predicate SuccessAt(l: Ledger, steps: seq<Step>, k: nat) {
    k < |steps| && AnnouncesSuccess(Exec(l, steps[..k]), steps[k])
  }

  lemma EarlierAt(l: Ledger, steps: seq<Step>)
    requires steps != []
    ensures var init := steps[..|steps| - 1];
      && ((exists k: nat :: FailureAt(l, steps, k)) <==>
           (exists k: nat :: FailureAt(l, init, k)) || FailureAt(l, steps, |init|))
      && ((exists k: nat :: SuccessAt(l, steps, k)) <==>
           (exists k: nat :: SuccessAt(l, init, k)) || SuccessAt(l, steps, |init|))
  {
    var init := steps[..|steps| - 1];
    forall k: nat | k < |init| ensures
      (FailureAt(l, steps, k) <==> FailureAt(l, init, k)) && (SuccessAt(l, steps, k) <==> SuccessAt(l, init, k))
    {
      assert init[..k] == steps[..k] && init[k] == steps[k];
    }
  }

  /** In every run a message is announced as failed exactly when some step failed it, and as sent exactly when
      some step settled it. */
  lemma {:induction false} AnnouncedIff(id: string, job: int, envelope: set<string>, steps: seq<Step>)
    requires AllParsed(steps)
    ensures var start := Accepted0(id, job, envelope);
      && (EmailFailed in Exec(start, steps).outbox <==> exists k: nat :: FailureAt(start, steps, k))
      && (EmailSent in Exec(start, steps).outbox <==> exists k: nat :: SuccessAt(start, steps, k))
  {
    if steps != [] {
      var start, init, last := Accepted0(id, job, envelope), steps[..|steps| - 1], steps[|steps| - 1];
      assert last in steps;
      AnnouncedIff(id, job, envelope, init);
      InitKeeps(id, job, envelope);
      ReachableKeeps(start, init);
      NextAnnounces(Exec(start, init), last);
      EarlierAt(start, steps);
    }
  }

  // ---- The worker's final writes ----

  /** A success: settled as sent under the provider's id, with a row for every envelope recipient that had
      none, one more usage record, and no trace of an earlier failure. */
  lemma WorkerSuccess(l: Ledger, p: string)
    requires l.status == Sending
    ensures var m := Next(l, MarkingSent(p));
      && m.status == Sent && m.providerId == p && m.meters == l.meters + 1
      && m.source == Unset && m.reason == NoReason && !m.stamped
      && (forall a :: a in m.recipients <==> a in l.recipients || a in l.envelope)
      && (forall a :: a in m.recipients ==> m.recipients[a] == if a in l.recipients then l.recipients[a] else Sent)
      && m.evidence == l.evidence && m.suppressed == l.suppressed && m.trashed == l.trashed
  {
  }

  /** A failure, with what the transaction reports: it is written with its source and reason only over an open
      row without evidence; evidence on an open row settles it as sent instead; anything else stays. */
  lemma WorkerFailure(l: Ledger, source: FailureSource, reason: Reason)
    ensures var (m, settled) := MarkFailed(l, source, reason);
      (l.status == Accepted || l.status == Sending) && !l.evidence ==>
        && settled == SettledFailed && m.status == Failed && m.source == source && m.reason == reason
        && m.recipients == l.recipients && m.meters == l.meters && m.evidence == l.evidence
        && m.providerId == l.providerId && m.outbox == l.outbox + {EmailFailed}
    ensures var (m, settled) := MarkFailed(l, source, reason);
      l.evidence && (l.status == Accepted || l.status == Sending || (l.status == Failed && l.source != Provider)) ==>
        && settled == SettledSent && m.status == Sent && m.source == Unset && m.reason == NoReason
        && m.meters == l.meters + 1 && m.outbox == l.outbox + {EmailSent}
    ensures var (m, settled) := MarkFailed(l, source, reason);
      l.status != Accepted && l.status != Sending && !(l.evidence && l.status == Failed && l.source != Provider) ==>
        settled == SettledNothing && m == l
  {
  }

  // ---- Claims and hand-backs ----

  /** A failure kept whole for the reconciler: its time and attempt, and a source that fits its reason. */
  predicate KeptWhole(l: Ledger) {
    && l.stamped
    && ((l.source == Provider && l.reason == ProviderRejected)
        || (l.source == Local && (l.reason == RetriesExhausted || l.reason == Cancelled)))
  }

  /** Exactly what a claim does: the owner's open row goes to sending, unless a failure is kept whole for the
      reconciler; the row of a trashed agent fails as cancelled instead; any other row stays. */
  lemma ClaimMeans(l: Ledger, job: int)
    ensures var m := Next(l, Claiming(job));
      var open := job == l.job && (l.status == Accepted || l.status == Sending) && !KeptWhole(l);
      if open && l.trashed then m == l.(status := Failed, source := Local, reason := Cancelled)
      else if open then m == l.(status := Sending)
      else m == l
  {
  }

  /** A hand-back returns the owner's sending row to the queue; a kept failure does so from either open status
      and records its source, its reason and its stamp; any other row stays. */
  lemma HandBackMeans(l: Ledger, job: int, source: FailureSource, reason: Reason)
    ensures Next(l, Releasing(job)) == if job == l.job && l.status == Sending then l.(status := Accepted) else l
    ensures Next(l, Preserving(job, source, reason)) ==
      if reason != NoReason && job == l.job && (l.status == Accepted || l.status == Sending)
      then l.(status := Accepted, source := source, reason := reason, stamped := true) else l
  {
  }

  /** A kept failure is out of the worker's reach: no later claim takes the row while it stands. */
  lemma KeptFailureWaits(l: Ledger, job: int, source: FailureSource, reason: Reason, claimant: int)
    requires job == l.job && (l.status == Accepted || l.status == Sending)
    requires (source == Provider && reason == ProviderRejected)
      || (source == Local && (reason == RetriesExhausted || reason == Cancelled))
    ensures var kept := Next(l, Preserving(job, source, reason));
      kept.status == Accepted && Next(kept, Claiming(claimant)) == kept
  {
  }

  /** Releasing an address takes it off the list and nothing else, and the next hearing of the notification that
      put it there puts it back. */
  lemma ReleasedAgain(l: Ledger, ev: Event, a: string)
    requires Hears(l, ev) && Condemns(l.envelope, ev, a)
    ensures var released := Next(l, Unsuppressing(a));
      && released == l.(suppressed := l.suppressed - {a}) && a !in released.suppressed
      && a in Next(released, Notifying(ev)).suppressed
  {
    CondemnedAreSuppressed(Next(l, Unsuppressing(a)), ev);
  }

  /** The row of an agent put in the trash before the claim fails as cancelled when it is claimed, and is sent as
      ever when the agent came back. */
  lemma TrashCancels(l: Ledger)
    requires (l.status == Accepted || l.status == Sending) && !KeptWhole(l)
    ensures var gone := Next(l, Trashing(true));
      && Next(gone, Claiming(l.job)) == gone.(status := Failed, source := Local, reason := Cancelled)
      && Next(Next(gone, Trashing(false)), Claiming(l.job)).status == Sending
  {
  }

  /** An outcome applies exactly when its address, in lower case and without blanks around it, is one of the
      envelope's and its status one of the nine; and a notification is of no concern exactly when its kind speaks of
      recipients and it names none of the envelope's. */
  lemma AppliesMeans(l: Ledger, ev: Event, r: RecipientOutcome)
    requires "" !in l.envelope
    ensures Applies(l, r) <==> ToLower(TrimSpace(r.address)) in l.envelope && r.status.Valid()
    ensures Irrelevant(l.envelope, ev) <==>
      ev.kind != KindSend && ev.kind != KindOther
      && forall q :: q in ev.recipients ==> ToLower(TrimSpace(q.address)) !in l.envelope
  {
  }
}
