/** A reviewer's approve and reject, from the dashboard and from a magic link, on the hold row. */
module ReviewActions {
  import opened GoStrings
  import opened RecipientLists
  import opened ReviewHold
  import opened ReviewStore

  /** How the lookups and transactions of one request turn out. */
  datatype Request = Request(
    user: string, agent: AgentLookup, loadFails: bool, lookupFails: bool, issuerWired: bool, issues: bool,
    enqueued: Option<int>, localFails: bool)

  /** A message of another owner, or an inbound one, is not found. */
  function SeenBy(h: Hold, q: Request, queueWired: bool): Observed {
    Observed(q.agent,
      if q.loadFails || h.direction != Outbound || h.owner != q.user then DraftGone else Loaded(h.status),
      q.lookupFails, queueWired, q.issuerWired, q.issues)
  }

  /** The HTTP status of a store call's answer. */
  function StatusOf(o: Outcome): int {
    match o
    case Won => 200
    case NotPending => 409
    case NotFound => 404
    case InvalidTarget => 500
    case Failed => 500
  }

  /** A verdict carried out for a reviewer: the row afterwards and the answer. */
  function Approved(h: Hold, v: Verdict, q: Request, now: int): (Hold, int) {
    match v
    case Queue(recipients) =>
      var r := ReviewHold.ApproveAndAccept(Sent, recipients);
      (After(h, r, now, if q.enqueued.Some? then q.enqueued.value else 0, q.enqueued.None?),
       StatusOf(AnswerOrFail(h, r, now, q.enqueued.None?)))
    case Loopback =>
      var r := ReviewHold.ApproveAndDeliverLocal(q.user);
      (After(h, r, now, 0, q.localFails), StatusOf(AnswerOrFail(h, r, now, q.localFails)))
    case Refuse(status) => (h, status)
    case Expire => (h, 500)
    case Leave => (h, 500)
  }

  class ReviewApi {
    const env: Env
    const queueWired: bool

    constructor (env: Env, queueWired: bool)
      ensures this.env == env && this.queueWired == queueWired
    {
      this.env, this.queueWired := env, queueWired;
    }

    /** The dashboard: checks on the stored row, the edited draft, then the shared part. */
    method ApprovePendingCore(row: HoldRow, q: Request, edits: Edits, expectedEmail: string,
      suppressed: set<string>, now: int)
      returns (status: int)
      modifies row
      ensures var h := old(row.State());
        (row.State(), status) ==
        Approved(h, DashboardVerdict(env, h.draft, edits, expectedEmail, suppressed, SeenBy(h, q, queueWired)), q, now)
    {
      if q.loadFails || row.direction != Outbound || row.owner != q.user {
        return 404;
      }
      if row.status != PendingReview {
        return 409;
      }
      if !q.agent.Found? {
        return 500;
      }
      if expectedEmail != "" && q.agent.email != expectedEmail {
        return 404;
      }
      if !q.agent.verified {
        return 403;
      }
      var merged := Apply(edits, row.draft);
      var req := BuildSendRequestFromMessage(env, merged);
      if req.Err? {
        return 400;
      }
      if env.tooLarge(req.value) {
        return 413;
      }
      status := ApproveRequest(row, merged, req.value, q, suppressed, now);
    }

    /** The magic link: no edits, and no check of the status before the compare-and-set. */
    method MagicApprove(row: HoldRow, q: Request, suppressed: set<string>, now: int) returns (status: int)
      modifies row
      ensures var h := old(row.State());
        (row.State(), status) == Approved(h, MagicVerdict(env, h.draft, suppressed, SeenBy(h, q, queueWired)), q, now)
    {
      if !q.agent.Found? {
        return 500;
      }
      if !q.agent.verified {
        return 403;
      }
      if !queueWired {
        return 500;
      }
      if q.loadFails || row.direction != Outbound || row.owner != q.user {
        return 404;
      }
      var req := BuildSendRequestFromMessage(env, row.draft);
      if req.Err? {
        return 400;
      }
      status := ApproveRequest(row, row.draft, req.value, q, suppressed, now);
    }

    /** Suppression, unsubscribe link, self-send and compose, in the human order. */
    method ApproveRequest(row: HoldRow, draft: Draft, req: SendRequest, q: Request, suppressed: set<string>, now: int)
      returns (status: int)
      modifies row
      ensures var h := old(row.State());
        (row.State(), status) == Approved(h, HumanTail(env, draft, req, suppressed, SeenBy(h, q, queueWired)), q, now)
    {
      var keys := LookupKeys(env.parse, req.fields);
      if keys != {} && q.lookupFails {
        return 500;
      }
      if keys * suppressed != {} {
        return 422;
      }
      if req.unsubscribe {
        if !OneRecipient(env, req) {
          return 400;
        }
        if !q.issuerWired || !q.issues {
          return 500;
        }
      }
      if !queueWired {
        return 500;
      }
      if draft.kind != "test" && SelfSend(env, req.fields) {
        var o := row.ApproveAndDeliverLocal(q.user, q.localFails, now);
        return StatusOf(o);
      }
      status := ComposeAndAccept(row, draft, req, q, now);
    }

    method ComposeAndAccept(row: HoldRow, draft: Draft, req: SendRequest, q: Request, now: int) returns (status: int)
      modifies row
      ensures var h := old(row.State());
        var composed := Compose(env, draft.kind, req);
        var v := if composed.Err? then Refuse(ComposeStatus(env, draft.kind, req)) else Queue(composed.value);
        (row.State(), status) == Approved(h, v, q, now)
    {
      var composed := Compose(env, draft.kind, req);
      if composed.Err? {
        return ComposeStatus(env, draft.kind, req);
      }
      var o := row.ApproveAndAccept(Sent, composed.value, q.enqueued, now);
      status := StatusOf(o);
    }

    /** The dashboard's reject; the agent is looked up only when the caller named one. */
    method RejectPendingCore(row: HoldRow, q: Request, expectedEmail: string, fails: bool, now: int)
      returns (status: int)
      modifies row
      ensures var h := old(row.State());
        var refused := expectedEmail != ""
          && (!SeenBy(h, q, queueWired).draft.Loaded? || !q.agent.Found? || q.agent.email != expectedEmail);
        var r := ReviewHold.RejectPending(q.user);
        (row.State(), status) ==
        if refused then (h, 404) else (After(h, r, now, 0, fails), StatusOf(AnswerOrFail(h, r, now, fails)))
    {
      if expectedEmail != "" {
        if q.loadFails || row.direction != Outbound || row.owner != q.user {
          return 404;
        }
        if !q.agent.Found? || q.agent.email != expectedEmail {
          return 404;
        }
      }
      var o := row.RejectPending(q.user, fails, now);
      status := StatusOf(o);
    }
  }

  /** What a reviewer is answered: only a won call is a success, a lost race is a conflict, a hold that is not
      theirs is not there, and everything else is the server's failure. */
  lemma AnswersMean(o: Outcome)
    ensures StatusOf(o) == 200 <==> o == Won
    ensures StatusOf(o) == 409 <==> o == NotPending
    ensures StatusOf(o) == 404 <==> o == NotFound
    ensures StatusOf(o) in {200, 404, 409, 500}
  {
  }

  /** A stranger is refused on either way as if the hold did not exist, and an inbound hold like one. */
  lemma StrangersAreRefused(
    env: Env, h: Hold, e: Edits, email: string, suppressed: set<string>, q: Request, queueWired: bool)
    requires q.user != h.owner || h.direction == Inbound || q.loadFails
    ensures DashboardVerdict(env, h.draft, e, email, suppressed, SeenBy(h, q, queueWired)) == Refuse(404)
    ensures MagicVerdict(env, h.draft, suppressed, SeenBy(h, q, queueWired)).Refuse?
    ensures q.agent.Found? && q.agent.verified && queueWired ==>
      MagicVerdict(env, h.draft, suppressed, SeenBy(h, q, queueWired)) == Refuse(404)
  {
  }

  /** What an approver sees besides is what the lookups gave, and the owner's own hold with its status. */
  lemma SeesItsOwn(h: Hold, q: Request, queueWired: bool)
    ensures SeenBy(h, q, queueWired).draft == Loaded(h.status) <==>
      q.user == h.owner && h.direction == Outbound && !q.loadFails
    ensures var o := SeenBy(h, q, queueWired);
      o == Observed(q.agent, o.draft, q.lookupFails, queueWired, q.issuerWired, q.issues)
  {
  }

  /** A refused approval changed nothing, and an answered one resolved the hold as sent: the reviewer is
      told of success exactly when the hold left review by this request. */
  lemma SuccessMeansSent(h: Hold, v: Verdict, q: Request, now: int)
    requires Fresh(h) && (v.Refuse? ==> v.httpStatus >= 400) && !v.Expire? && !v.Leave?
    ensures var (after, status) := Approved(h, v, q, now);
      && (status == 200 <==> after.status == Sent)
      && (status != 200 <==> after == h)
      && (status == 200 ==> |after.jobs| + after.localCopies == 1)
  {
  }

  /** Whatever a dashboard or magic approval resolves, it resolves for cleared recipients only. */
  lemma ApprovedIsCleared(
    env: Env, h: Hold, e: Edits, email: string, suppressed: set<string>, q: Request, queueWired: bool, now: int)
    requires CleanParser(env.parse) && Fresh(h)
    ensures var v := DashboardVerdict(env, h.draft, e, email, suppressed, SeenBy(h, q, queueWired));
      forall j :: j in Approved(h, v, q, now).0.jobs ==>
        Cleared(env, Apply(e, h.draft).fields, suppressed, j.recipients)
    ensures var v := MagicVerdict(env, h.draft, suppressed, SeenBy(h, q, queueWired));
      forall j :: j in Approved(h, v, q, now).0.jobs ==> Cleared(env, h.draft.fields, suppressed, j.recipients)
  {
    DashboardQueuesCleared(env, h.draft, e, email, suppressed, SeenBy(h, q, queueWired));
    MagicQueuesCleared(env, h.draft, suppressed, SeenBy(h, q, queueWired));
  }
}
