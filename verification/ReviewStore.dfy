/** The hold row as the store updates it, and the expiry sweep over a batch of rows. */
module ReviewStore {
  import opened GoStrings
  import opened RecipientLists
  import opened ReviewHold

  /** A store call whose transaction may fail: its answer and the row afterwards. */
  function AnswerOrFail(h: Hold, r: Resolution, now: int, fails: bool): Outcome {
    if Answer(h, r, now) == Won && fails then Failed else Answer(h, r, now)
  }

  function After(h: Hold, r: Resolution, now: int, jobId: int, fails: bool): Hold {
    if fails then h else Resolve(h, r, now, jobId)
  }

  class HoldRow {
    const direction: Direction
    const owner: string
    const agentId: string
    const draft: Draft
    var status: HoldStatus
    var deadline: int
    var trashedAt: Option<int>
    var jobs: seq<Job>
    var sendJobId: Option<int>
    var localCopies: nat

    function State(): Hold
      reads this
    {
      Hold(direction, owner, agentId, draft, status, deadline, trashedAt, jobs, sendJobId, localCopies)
    }

    constructor (direction: Direction, owner: string, agentId: string, draft: Draft, deadline: int)
      ensures State() == Hold(direction, owner, agentId, draft, PendingReview, deadline, None, [], None, 0)
      ensures Fresh(State())
    {
      this.direction, this.owner, this.agentId, this.draft := direction, owner, agentId, draft;
      status, this.deadline, trashedAt := PendingReview, deadline, None;
      jobs, sendJobId, localCopies := [], None, 0;
    }

    /** The guarded update comes first; an enqueue that fails rolls it back. */
    method ApproveAndAccept(target: HoldStatus, recipients: seq<string>, enqueued: Option<int>, now: int)
      returns (o: Outcome)
      modifies this
      ensures var r := ReviewHold.ApproveAndAccept(target, recipients);
        && o == AnswerOrFail(old(State()), r, now, enqueued.None?)
        && State() == After(old(State()), r, now, if enqueued.Some? then enqueued.value else 0, enqueued.None?)
    {
      if target != Sent && target != ReviewApproved && target != ReviewExpiredApproved {
        return InvalidTarget;
      }
      if direction != Outbound || status != PendingReview || trashedAt != None {
        return NotPending;
      }
      var before := status;
      status := target;
      if enqueued.None? {
        status := before;
        return Failed;
      }
      jobs := jobs + [Job(enqueued.value, recipients)];
      sendJobId := Some(enqueued.value);
      o := Won;
    }

    method ApproveAndDeliverLocal(user: string, fails: bool, now: int) returns (o: Outcome)
      modifies this
      ensures var r := ReviewHold.ApproveAndDeliverLocal(user);
        o == AnswerOrFail(old(State()), r, now, fails) && State() == After(old(State()), r, now, 0, fails)
    {
      if direction != Outbound || trashedAt != None {
        return NotFound;
      }
      if status != PendingReview {
        return NotPending;
      }
      if owner != user {
        return NotFound;
      }
      o := DeliverLocal(Sent, fails);
    }

    method ExpireAndDeliverLocal(fails: bool, now: int) returns (o: Outcome)
      modifies this
      ensures var r := ReviewHold.ExpireAndDeliverLocal;
        o == AnswerOrFail(old(State()), r, now, fails) && State() == After(old(State()), r, now, 0, fails)
    {
      if direction != Outbound || trashedAt != None || now <= deadline || status != PendingReview {
        return NotPending;
      }
      o := DeliverLocal(ReviewExpiredApproved, fails);
    }

    method DeliverLocal(target: HoldStatus, fails: bool) returns (o: Outcome)
      modifies this
      ensures o == if fails then Failed else Won
      ensures State() ==
        if fails then old(State()) else old(State()).(status := target, localCopies := old(localCopies) + 1)
    {
      if fails {
        return Failed;
      }
      status := target;
      localCopies := localCopies + 1;
      o := Won;
    }

    method RejectPending(user: string, fails: bool, now: int) returns (o: Outcome)
      modifies this
      ensures var r := ReviewHold.RejectPending(user);
        o == AnswerOrFail(old(State()), r, now, fails) && State() == After(old(State()), r, now, 0, fails)
    {
      if direction == Outbound && status == PendingReview && trashedAt == None && owner == user {
        if fails {
          return Failed;
        }
        status := ReviewRejected;
        return Won;
      }
      o := if owner == user then NotPending else NotFound;
    }

    method ExpireReject(fails: bool, now: int) returns (o: Outcome)
      modifies this
      ensures var r := ReviewHold.ExpireReject;
        o == AnswerOrFail(old(State()), r, now, fails) && State() == After(old(State()), r, now, 0, fails)
    {
      if direction != Outbound || status != PendingReview || trashedAt != None {
        return NotPending;
      }
      if fails {
        return Failed;
      }
      status := ReviewExpiredRejected;
      o := Won;
    }

    method TransitionReview(agent: string, target: HoldStatus, fails: bool, now: int) returns (o: Outcome)
      modifies this
      ensures var r := ReviewHold.TransitionReview(agent, target);
        o == AnswerOrFail(old(State()), r, now, fails) && State() == After(old(State()), r, now, 0, fails)
    {
      if target == PendingReview || target == Sent {
        return InvalidTarget;
      }
      if direction != Inbound || status != PendingReview || trashedAt != None || (agent != "" && agentId != agent) {
        return NotPending;
      }
      if fails {
        return Failed;
      }
      status := target;
      o := Won;
    }
  }

  // ---- The sweep ----

  /** One listed row, and how its lookups and transactions turn out. */
  datatype Candidate = Candidate(
    approve: bool, agent: AgentLookup, loadFails: bool, lookupFails: bool, issuerWired: bool, issues: bool,
    enqueued: Option<int>, localFails: bool, rejectFails: bool)

  function Seen(h: Hold, c: Candidate, queueWired: bool): Observed {
    Observed(c.agent,
      if c.loadFails then DraftFailed else if h.direction != Outbound then DraftGone else Loaded(h.status),
      c.lookupFails, queueWired, c.issuerWired, c.issues)
  }

  /** A verdict carried out. A local delivery that fails is given up. */
  function CarriedOut(h: Hold, v: Verdict, c: Candidate, now: int): Hold {
    match v
    case Expire => After(h, ReviewHold.ExpireReject, now, 0, c.rejectFails)
    case Queue(recipients) =>
      After(h, ReviewHold.ApproveAndAccept(ReviewExpiredApproved, recipients), now,
        if c.enqueued.Some? then c.enqueued.value else 0, c.enqueued.None?)
    case Loopback =>
      if AnswerOrFail(h, ReviewHold.ExpireAndDeliverLocal, now, c.localFails) == Failed
      then After(h, ReviewHold.ExpireReject, now, 0, c.rejectFails)
      else After(h, ReviewHold.ExpireAndDeliverLocal, now, 0, c.localFails)
    case _ => h
  }

  /** What one pass of the sweep makes of a row when nobody else acts on it meanwhile. */
  function Swept(env: Env, h: Hold, c: Candidate, suppressed: set<string>, queueWired: bool, now: int): Hold {
    CarriedOut(h, if c.approve then SweepVerdict(env, h.draft, suppressed, Seen(h, c, queueWired)) else Expire, c, now)
  }

  class Sweeper {
    const env: Env
    const queueWired: bool

    constructor (env: Env, queueWired: bool)
      ensures this.env == env && this.queueWired == queueWired
    {
      this.env, this.queueWired := env, queueWired;
    }

    method AutoReject(row: HoldRow, c: Candidate, now: int)
      modifies row
      ensures row.State() == CarriedOut(old(row.State()), Expire, c, now)
    {
      var _ := row.ExpireReject(c.rejectFails, now);
    }

    /** From the rebuilt request to the choice of delivery. */
    method ApproveRequest(row: HoldRow, req: SendRequest, c: Candidate, suppressed: set<string>, now: int)
      returns (handled: bool)
      modifies row
      ensures var h := old(row.State());
        var v := SweepTail(env, h.draft, req, suppressed, Seen(h, c, queueWired));
        handled == !v.Loopback? && row.State() == if handled then CarriedOut(h, v, c, now) else h
    {
      var keys := LookupKeys(env.parse, req.fields);
      if keys != {} && c.lookupFails {
        return true;
      }
      if keys * suppressed != {} {
        AutoReject(row, c, now);
        return true;
      }
      if row.draft.kind != "test" && SelfSend(env, req.fields) {
        return false;
      }
      if req.unsubscribe {
        if !OneRecipient(env, req) {
          AutoReject(row, c, now);
          return true;
        }
        if !c.issuerWired || !c.issues {
          return true;
        }
      }
      ComposeAndAccept(row, req, c, now);
      handled := true;
    }

    method ComposeAndAccept(row: HoldRow, req: SendRequest, c: Candidate, now: int)
      modifies row
      ensures var composed := Compose(env, old(row.State()).draft.kind, req);
        row.State() == CarriedOut(old(row.State()), if composed.Err? then Expire else Queue(composed.value), c, now)
    {
      var composed := Compose(env, row.draft.kind, req);
      if composed.Err? {
        AutoReject(row, c, now);
        return;
      }
      var _ := row.ApproveAndAccept(ReviewExpiredApproved, composed.value, c.enqueued, now);
    }

    /** The branches between the agent lookup and the choice of delivery. */
    method AutoApproveAsync(row: HoldRow, c: Candidate, suppressed: set<string>, now: int) returns (handled: bool)
      requires c.approve && c.agent.Found? && c.agent.verified && queueWired
      modifies row
      ensures var h := old(row.State());
        var v := SweepVerdict(env, h.draft, suppressed, Seen(h, c, queueWired));
        handled == !v.Loopback? && row.State() == if handled then CarriedOut(h, v, c, now) else h
    {
      if c.loadFails || row.direction != Outbound || row.status != PendingReview {
        return true;
      }
      var req := SendRequestFromStoredMessage(env, row.draft);
      if req.Err? {
        AutoReject(row, c, now);
        return true;
      }
      handled := ApproveRequest(row, req.value, c, suppressed, now);
    }

    method AutoApproveLoopback(row: HoldRow, c: Candidate, now: int)
      modifies row
      ensures row.State() == CarriedOut(old(row.State()), Loopback, c, now)
    {
      var o := row.ExpireAndDeliverLocal(c.localFails, now);
      if o == Failed {
        AutoReject(row, c, now);
      }
    }

    method ProcessOne(row: HoldRow, c: Candidate, suppressed: set<string>, now: int)
      modifies row
      ensures row.State() == Swept(env, old(row.State()), c, suppressed, queueWired, now)
    {
      if !c.approve {
        AutoReject(row, c, now);
        return;
      }
      if c.agent.AgentMissing? {
        return;
      }
      if c.agent.AgentFailed? || !c.agent.verified {
        AutoReject(row, c, now);
        return;
      }
      if !queueWired {
        return;
      }
      var handled := AutoApproveAsync(row, c, suppressed, now);
      if !handled {
        AutoApproveLoopback(row, c, now);
      }
    }

    /** The loop over one batch: every listed row is treated as if it were alone. */
    method Sweep(rows: seq<HoldRow>, cs: seq<Candidate>, suppressed: set<string>, now: int)
      requires |rows| == |cs| && forall i, j :: 0 <= i < j < |rows| ==> rows[i] != rows[j]
      modifies set i | 0 <= i < |rows| :: rows[i]
      ensures forall i :: 0 <= i < |rows| ==>
        rows[i].State() == Swept(env, old(rows[i].State()), cs[i], suppressed, queueWired, now)
    {
      for k := 0 to |rows|
        invariant forall i :: 0 <= i < k ==>
          rows[i].State() == Swept(env, old(rows[i].State()), cs[i], suppressed, queueWired, now)
        invariant forall i :: k <= i < |rows| ==> rows[i].State() == old(rows[i].State())
      {
        ProcessOne(rows[k], cs[k], suppressed, now);
      }
    }
  }

  /** The loop over expired inbound holds: released or dropped by policy, and a failure of one row does
      not keep the others from their turn. */
  method SweepReviews(rows: seq<HoldRow>, approve: seq<bool>, fails: seq<bool>, now: int)
    requires |rows| == |approve| == |fails| && forall i, j :: 0 <= i < j < |rows| ==> rows[i] != rows[j]
    modifies set i | 0 <= i < |rows| :: rows[i]
    ensures forall i :: 0 <= i < |rows| ==>
      var r := ReviewHold.TransitionReview("", if approve[i] then ReviewExpiredApproved else ReviewExpiredRejected);
      rows[i].State() == After(old(rows[i].State()), r, now, 0, fails[i])
  {
    for k := 0 to |rows|
      invariant forall i :: 0 <= i < k ==>
        var r := ReviewHold.TransitionReview("", if approve[i] then ReviewExpiredApproved else ReviewExpiredRejected);
      rows[i].State() == After(old(rows[i].State()), r, now, 0, fails[i])
      invariant forall i :: k <= i < |rows| ==> rows[i].State() == old(rows[i].State())
    {
      var target := if approve[k] then ReviewExpiredApproved else ReviewExpiredRejected;
      var _ := rows[k].TransitionReview("", target, fails[k], now);
    }
  }

  // ---- What the sweep leaves for later ----

  /** Only trouble that may pass keeps an expired outbound hold in review. */
  predicate Passing(env: Env, h: Hold, c: Candidate, queueWired: bool) {
    || c.agent.AgentMissing?
    || (c.agent.Found? && c.agent.verified
      && (!queueWired || c.loadFails || c.lookupFails || !c.issuerWired || !c.issues))
    || c.enqueued.None? || c.rejectFails
  }

  /** After one pass over an expired hold outside the trash that nobody else touches, the hold is
      resolved, unless something went wrong that may go right on a later pass: no hold is stuck. */
  lemma SweepDecides(env: Env, h: Hold, c: Candidate, suppressed: set<string>, queueWired: bool, now: int)
    requires Open(h, Outbound) && h.deadline < now && !Passing(env, h, c, queueWired)
    ensures Swept(env, h, c, suppressed, queueWired, now).status != PendingReview
  {
  }

  /** The sweep approves only what the policy lets it, and only with a verified agent; and an approved
      message was cleared against the suppression lists. */
  lemma SweepApprovesOnlyClear(env: Env, h: Hold, c: Candidate, suppressed: set<string>, queueWired: bool, now: int)
    requires CleanParser(env.parse) && Fresh(h)
    ensures var after := Swept(env, h, c, suppressed, queueWired, now);
      after.status == ReviewExpiredApproved ==>
        && c.approve && c.agent.Found? && c.agent.verified && h.trashedAt == None
        && Hits(env, suppressed, h.draft.fields) == {}
        && |after.jobs| + after.localCopies == 1
        && forall j :: j in after.jobs ==> Cleared(env, h.draft.fields, suppressed, j.recipients)
  {
    SweepQueuesCleared(env, h.draft, suppressed, Seen(h, c, queueWired));
  }

  /** What a store call whose transaction may fail answers and leaves: a failure is told only where the call would
      have won, and then the row is as it was. */
  lemma FailsWhole(h: Hold, r: Resolution, now: int, jobId: int)
    ensures AnswerOrFail(h, r, now, true) != Won && After(h, r, now, jobId, true) == h
    ensures AnswerOrFail(h, r, now, true) == Failed <==> Answer(h, r, now) == Won
    ensures AnswerOrFail(h, r, now, false) == Answer(h, r, now)
    ensures After(h, r, now, jobId, false) == Resolve(h, r, now, jobId)
  {
  }

  /** What one pass makes of an expired hold, verdict by verdict: a queued send becomes a job or nothing, a local
      delivery one copy or, when it fails, a rejection, and giving up a rejection unless that fails too. */
  lemma SweptMeans(env: Env, h: Hold, c: Candidate, suppressed: set<string>, queueWired: bool, now: int)
    requires Open(h, Outbound) && Fresh(h) && h.deadline < now
    ensures var v := SweepVerdict(env, h.draft, suppressed, Seen(h, c, queueWired));
      var after := Swept(env, h, c, suppressed, queueWired, now);
      var rejected := if c.rejectFails then h else h.(status := ReviewExpiredRejected);
      if !c.approve || v == Expire then after == rejected
      else
        match v
        case Queue(rs) =>
          after == if c.enqueued.None? then h else
            h.(status := ReviewExpiredApproved, jobs := [Job(c.enqueued.value, rs)], sendJobId := c.enqueued)
        case Loopback =>
          after == if c.localFails then rejected else h.(status := ReviewExpiredApproved, localCopies := 1)
        case _ => after == h
  {
  }

  /** What the sweep sees is what its lookups gave, and the row unless it could not be loaded. */
  lemma SeenMeans(h: Hold, c: Candidate, queueWired: bool)
    ensures Seen(h, c, queueWired).draft == Loaded(h.status) <==> !c.loadFails && h.direction == Outbound
    ensures var o := Seen(h, c, queueWired);
      o == Observed(c.agent, o.draft, c.lookupFails, queueWired, c.issuerWired, c.issues)
  {
  }
}
