/** The stored row behind one outbound message, updated in place by the feedback consumer
    and by the send worker, and proved against the transactions of `Settlement`. */
module MessageStore {
  import opened GoStrings
  import opened DeliveryStatus
  import opened SesNotification
  import opened Settlement

  class Row {
    const id: string
    const job: int
    const addresses: seq<string>  // to, cc and bcc as stored

    var status: Status
    var source: FailureSource
    var reason: Reason
    var stamped: bool
    var evidence: bool
    var providerId: string
    var trashed: bool
    var recipients: map<string, Status>
    var meters: nat
    var outbox: set<EventId>
    var suppressed: set<string>

    constructor (id: string, job: int, addresses: seq<string>)
      ensures this.id == id && this.job == job && this.addresses == addresses
      ensures State() == Accepted0(id, job, EnvelopeOf(addresses))
    {
      this.id, this.job, this.addresses := id, job, addresses;
      status, source, reason, stamped := Accepted, Unset, NoReason, false;
      evidence, providerId, trashed := false, "", false;
      recipients, meters, outbox, suppressed := map[], 0, {}, {};
    }

    function State(): Ledger
      reads this
    {
      Ledger(id, job, EnvelopeOf(addresses), status, source, reason, stamped, evidence, providerId, trashed,
             recipients, meters, outbox, suppressed)
    }

    /** Rolling a transaction back. */
    method Restore(l: Ledger)
      requires l.id == id && l.job == job && l.envelope == EnvelopeOf(addresses)
      modifies this
      ensures State() == l
    {
      status, source, reason, stamped := l.status, l.source, l.reason, l.stamped;
      evidence, providerId, trashed := l.evidence, l.providerId, l.trashed;
      recipients, meters, outbox, suppressed := l.recipients, l.meters, l.outbox, l.suppressed;
    }

    method AddressInEnvelope(address: string) returns (found: bool)
      requires address != ""
      ensures found <==> address in EnvelopeOf(addresses)
    {
      for i := 0 to |addresses|
        invariant forall j :: 0 <= j < i ==> Norm(addresses[j]) != address
      {
        if Norm(addresses[i]) == address {
          assert addresses[i] in addresses;
          return true;
        }
      }
      found := false;
    }

    /** The worst recipient status, reduced over the rows in whatever order they come. */
    method RecomputeRollup() returns (rollup: Status)
      ensures rollup == State().Rollup()
    {
      rollup := NoStatus;
      var todo := recipients.Keys;
      ghost var done: set<Status> := {};
      while todo != {}
        invariant todo <= recipients.Keys
        invariant done == set a | a in recipients.Keys - todo :: recipients[a]
        invariant rollup == Worst(done)
        decreases |todo|
      {
        var a :| a in todo;
        WorstStep(done, recipients[a]);
        rollup := Merge(rollup, recipients[a]);
        todo, done := todo - {a}, done + {recipients[a]};
      }
      assert done == recipients.Values;
    }

    /** Write the recomputed rollup, keeping the provenance rules. */
    method WriteRollup()
      modifies this`status, this`source, this`reason, this`stamped
      ensures State() == ApplyRollup(old(State()))
    {
      var rollup := RecomputeRollup();
      if rollup == NoStatus {
        return;
      }
      var next := ResolveMessageRollup(status, source, rollup);
      if next == status {
      } else if next == Failed {
        status, source := Failed, if source == Unset then Provider else source;
      } else if status == Failed {
        status, source, reason, stamped := next, Unset, NoReason, false;
      } else {
        status := next;
      }
    }

    method UpsertRecipient(address: string, reported: Status)
      modifies this`recipients
      ensures recipients == MergedRows(old(recipients), address, reported)
    {
      if address !in recipients {
        recipients := recipients[address := reported];
      } else {
        var merged := Merge(recipients[address], reported);
        if merged != recipients[address] {
          recipients := recipients[address := merged];
        }
      }
    }

    method RecordDeliveryOutcomeTx(address: string, reported: Status) returns (applied: bool)
      requires address != ""
      modifies this
      ensures applied <==> address in EnvelopeOf(addresses)
      ensures State() == RecordOutcome(old(State()), address, reported)
    {
      applied := AddressInEnvelope(address);
      if applied {
        UpsertRecipient(address, reported);
        WriteRollup();
      }
    }

    method AddSuppressionTx(address: string) returns (added: bool)
      modifies this`suppressed
      ensures added <==> address !in old(suppressed)
      ensures suppressed == old(suppressed) + {address}
    {
      added := address !in suppressed;
      suppressed := suppressed + {address};
    }

    /** Insert into the outbox, ignoring a row that is already there. */
    method PublishTx(x: EventId)
      modifies this`outbox
      ensures outbox == old(outbox) + {x}
    {
      outbox := outbox + {x};
    }

    method RecordProviderAcceptEvidenceTx(sesMessageId: string)
      modifies this
      ensures State() == RecordEvidence(old(State()), sesMessageId)
    {
      evidence := true;
      if providerId == "" {
        providerId := sesMessageId;
      }
    }

    method AddSentRecipientRowsTx()
      modifies this`recipients
      ensures recipients == WithSentRows(EnvelopeOf(addresses), old(recipients))
    {
      for i := 0 to |addresses|
        invariant recipients == WithSentRows(EnvelopeOf(addresses[..i]), old(recipients))
      {
        EnvelopeGrows(addresses, i);
        var a := Norm(addresses[i]);
        if a != "" && a !in recipients {
          recipients := recipients[a := Sent];
        }
      }
      assert addresses[..|addresses|] == addresses;
    }

    /** Settle an open row that holds evidence; false when there is nothing to settle. */
    method ResolveOutboundProviderAcceptedTx() returns (resolved: bool)
      modifies this
      ensures resolved <==> old(State()).Pending()
      ensures State() == if resolved then SettleSent(old(State())) else old(State())
    {
      resolved := evidence && (status == Accepted || status == Sending || (status == Failed && source != Provider));
      if resolved {
        status, source, reason, stamped := Sent, Unset, NoReason, false;
        AddSentRecipientRowsTx();
      }
    }

    method MarkOutboundSentTx(newProviderId: string) returns (marked: bool)
      modifies this
      ensures marked <==> old(status) == Sending
      ensures State() == if marked then SettleSent(old(State())).(providerId := newProviderId) else old(State())
    {
      marked := status == Sending;
      if marked {
        status, providerId, source, reason, stamped := Sent, newProviderId, Unset, NoReason, false;
        AddSentRecipientRowsTx();
      }
    }

    method MarkOutboundFailedTx(newSource: FailureSource) returns (marked: bool)
      modifies this`status, this`source
      ensures marked <==> old(State()).PreTerminal() && !evidence
      ensures State() == if marked then old(State()).(status := Failed, source := newSource) else old(State())
    {
      marked := (status == Accepted || status == Sending) && !evidence;
      if marked {
        status, source := Failed, newSource;
      }
    }

    method RecordProviderRejectTx()
      modifies this
      ensures State() == RecordReject(old(State()))
    {
      if status != Bounced && status != Complained {
        status, source, reason, stamped := Failed, Provider, ProviderRejected, false;
      }
    }

    // ---- The send worker's adapter ----

    /** Meter and publish; a usage error fails the surrounding transaction. */
    method FinalizeSentTx(usageOk: bool) returns (ok: bool)
      modifies this`meters, this`outbox
      ensures ok == usageOk
      ensures State() == if ok then FinalizeSent(old(State())) else old(State())
    {
      if !usageOk {
        return false;
      }
      meters := meters + 1;
      PublishTx(EmailSent);
      ok := true;
    }

    method MarkSentWorker(newProviderId: string, usageOk: bool) returns (ok: bool)
      modifies this
      ensures ok <==> old(status) != Sending || usageOk
      ensures State() == if ok then MarkSent(old(State()), newProviderId) else old(State())
    {
      var before := State();
      var marked := MarkOutboundSentTx(newProviderId);
      if !marked {
        return true;
      }
      ok := FinalizeSentTx(usageOk);
      if !ok {
        Restore(before);
      }
    }

    method MarkFailedWorker(newSource: FailureSource, newReason: Reason, usageOk: bool)
      returns (ok: bool, settled: Settled)
      modifies this
      ensures ok <==> !old(State()).Pending() || usageOk
      ensures State() == if ok then MarkFailed(old(State()), newSource, newReason).0 else old(State())
      ensures settled == if ok then MarkFailed(old(State()), newSource, newReason).1 else SettledNothing
    {
      var before := State();
      settled := SettledNothing;
      var resolved := ResolveOutboundProviderAcceptedTx();
      if resolved {
        ok := FinalizeSentTx(usageOk);
        if ok {
          settled := SettledSent;
        } else {
          Restore(before);
        }
        return;
      }
      ok := true;
      var marked := MarkOutboundFailedTx(newSource);
      if marked {
        settled := SettledFailed;
        reason := newReason;
        PublishTx(EmailFailed);
      }
    }

    method FinalizeProviderAcceptedTx(usageOk: bool) returns (ok: bool)
      modifies this
      ensures ok <==> !old(State()).Pending() || usageOk
      ensures ok ==> State() == FinalizeAccepted(old(State()))
    {
      var resolved := ResolveOutboundProviderAcceptedTx();
      if !resolved {
        return true;
      }
      ok := FinalizeSentTx(usageOk);
    }

    method ClaimForSend(claimant: int) returns (claimed: bool)
      modifies this
      ensures State() == Claim(old(State()), claimant)
      ensures claimed <==> claimant == job && old(State()).PreTerminal() && !old(State()).CompleteFallback() && !trashed
    {
      if claimant != job || (status != Accepted && status != Sending) || State().CompleteFallback() {
        return false;
      }
      if trashed {
        status, source, reason := Failed, Local, Cancelled;
        return false;
      }
      status := Sending;
      claimed := true;
    }

    /** A temporary failure hands the claim back. */
    method RecordTemporaryFailure(claimant: int) returns (changed: bool)
      modifies this
      ensures State() == ReleaseClaim(old(State()), claimant)
      ensures changed <==> claimant == job && old(status) == Sending
    {
      changed := claimant == job && status == Sending;
      if changed {
        status := Accepted;
      }
    }

    /** A terminal failure that could not be written whole is kept for the reconciler. */
    method PreserveOutboundTerminalFailure(claimant: int, newSource: FailureSource, newReason: Reason)
      returns (ok: bool)
      modifies this
      ensures ok <==> newReason != NoReason
      ensures State() == PreserveFailure(old(State()), claimant, newSource, newReason)
    {
      if newReason == NoReason {
        return false;
      }
      if claimant == job && (status == Accepted || status == Sending) {
        status, source, reason, stamped := Accepted, newSource, newReason, true;
      }
      ok := true;
    }
  }

  function EnvelopeOf(addresses: seq<string>): set<string> {
    set a | a in addresses && Norm(a) != "" :: Norm(a)
  }

  lemma EnvelopeGrows(addresses: seq<string>, i: nat)
    requires i < |addresses|
    ensures var a := Norm(addresses[i]);
      EnvelopeOf(addresses[..i + 1]) == EnvelopeOf(addresses[..i]) + if a == "" then {} else {a}
  {
    assert addresses[..i + 1] == addresses[..i] + [addresses[i]];
  }

  /** The feedback consumer over one message's row. */
  class Consumer {
    const row: Row
    const hasFinalizer: bool

    constructor (row: Row, hasFinalizer: bool)
      ensures this.row == row && this.hasFinalizer == hasFinalizer
    {
      this.row, this.hasFinalizer := row, hasFinalizer;
    }

    method HasApplicableRecipientTx(outcomes: seq<RecipientOutcome>) returns (applicable: bool)
      ensures applicable <==>
        exists r :: r in outcomes && Norm(r.address) != "" && Norm(r.address) in EnvelopeOf(row.addresses)
    {
      for i := 0 to |outcomes|
        invariant forall j :: 0 <= j < i ==>
          !(Norm(outcomes[j].address) != "" && Norm(outcomes[j].address) in EnvelopeOf(row.addresses))
      {
        var a := Norm(outcomes[i].address);
        if a != "" {
          var found := row.AddressInEnvelope(a);
          if found {
            assert outcomes[i] in outcomes;
            return true;
          }
        }
      }
      applicable := false;
    }

    /** One recipient outcome; true when it was applied. */
    method ApplyOutcome(ev: Event, r: RecipientOutcome) returns (recorded: bool)
      modifies row
      ensures row.State() == Outcome(old(row.State()), ev, r)
      ensures recorded <==> Applies(old(row.State()), r)
    {
      var a := Norm(r.address);
      if a == "" || !r.status.Valid() {
        return false;
      }
      recorded := row.RecordDeliveryOutcomeTx(a, r.status);
      if !recorded {
        return;
      }
      var announce := false;
      if r.suppress {
        announce := row.AddSuppressionTx(a);
      }
      if Pushes(r.status) {
        row.PublishTx(RecipientEvent(ev.providerEventId, a, ReasonFor(ev, r.status)));
      }
      if announce {
        row.PublishTx(SuppressionAdded(a));
      }
      OutcomeIs(old(row.State()), ev, r, row.State());
    }

    /** Record the evidence and settle the row it was waiting for. */
    method TakeEvidence(ev: Event, usageOk: bool) returns (ok: bool)
      modifies row
      ensures row.State() == if ok then Taken(old(row.State()), ev) else old(row.State())
      ensures ok || (old(row.State()).Settleable() && !(hasFinalizer && usageOk))
    {
      var before := row.State();
      ok := true;
      if ev.kind.ImpliesProviderAcceptance() {
        row.RecordProviderAcceptEvidenceTx(ev.sesMessageId);
        if row.State().Pending() {
          ok := hasFinalizer;
          if ok {
            ok := row.FinalizeProviderAcceptedTx(usageOk);
          }
          if !ok {
            row.Restore(before);
          }
        }
      }
    }

    method ApplyOutcomes(ev: Event) returns (recorded: nat)
      modifies row
      ensures row.State() == Outcomes(old(row.State()), ev, ev.recipients)
      ensures recorded > 0 <==> SomeApplies(old(row.State()), ev.recipients)
    {
      recorded := 0;
      for i := 0 to |ev.recipients|
        invariant row.State() == Outcomes(old(row.State()), ev, ev.recipients[..i])
        invariant recorded > 0 <==> SomeApplies(old(row.State()), ev.recipients[..i])
      {
        OutcomesFrame(old(row.State()), ev, ev.recipients[..i]);
        var applied := ApplyOutcome(ev, ev.recipients[i]);
        if applied {
          recorded := recorded + 1;
        }
        assert ev.recipients[..i + 1][..i] == ev.recipients[..i];
        SomeAppliesNext(old(row.State()), ev.recipients, i);
      }
      assert ev.recipients[..|ev.recipients|] == ev.recipients;
    }

    /** One transaction per notification: it commits whole, or an error rolls it back. */
    method ProcessTx(ev: Event, usageOk: bool) returns (ok: bool)
      modifies row
      ensures row.State() == if ok then Process(old(row.State()), ev) else old(row.State())
      ensures ok || (old(row.State()).Settleable() && !(hasFinalizer && usageOk))
    {
      if ev.kind.RequiresApplicableRecipient() {
        var applicable := HasApplicableRecipientTx(ev.recipients);
        if !applicable {
          return true;
        }
      }
      ok := TakeEvidence(ev, usageOk);
      if !ok {
        return;
      }
      TakenFrame(old(row.State()), ev);
      var recorded := ApplyOutcomes(ev);
      if ev.kind.KindReject? && recorded > 0 {
        row.RecordProviderRejectTx();
        row.PublishTx(EmailFailed);
      }
    }

    /** Malformed stamps are errors; a notification about another message is acknowledged. */
    method Receive(ev: Event, usageOk: bool) returns (ok: bool)
      modifies row
      ensures ok ==> row.State() == Notify(old(row.State()), ev)
      ensures !ok ==> row.State() == old(row.State())
      ensures !WellStamped(ev) ==> !ok
    {
      if TrimSpace(ev.providerEventId) == "" || ev.occurredAt == 0 {
        return false;
      }
      if !Correlates(row.State(), ev) {
        return true;
      }
      ok := ProcessTx(ev, usageOk);
    }
  }

  lemma OutcomeIs(l: Ledger, ev: Event, r: RecipientOutcome, m: Ledger)
    requires Applies(l, r)
    requires var a := Norm(r.address); var n := RecordOutcome(l, a, r.status);
      m == n.(suppressed := if r.suppress then n.suppressed + {a} else n.suppressed,
              outbox := n.outbox
                + (if Pushes(r.status) then {RecipientEvent(ev.providerEventId, a, ReasonFor(ev, r.status))} else {})
                + (if r.suppress && a !in n.suppressed then {SuppressionAdded(a)} else {}))
    ensures m == Outcome(l, ev, r)
  {
    var a := Norm(r.address);
    var n := RecordOutcome(l, a, r.status);
    SuppressionWritten(n, a);
    PushWritten(if r.suppress then Suppress(n, a) else n, ev, a, r.status);
  }

  lemma SuppressionWritten(n: Ledger, a: string)
    ensures Suppress(n, a) == n.(suppressed := n.suppressed + {a},
      outbox := n.outbox + if a !in n.suppressed then {SuppressionAdded(a)} else {})
  {
  }

  lemma PushWritten(n: Ledger, ev: Event, a: string, status: Status)
    ensures Push(n, ev, a, status) ==
      var x := RecipientEvent(ev.providerEventId, a, ReasonFor(ev, status));
      n.(outbox := n.outbox + if Pushes(status) then {x} else {})
  {
  }
}
