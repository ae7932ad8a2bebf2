/** The rules a hold is resolved by, as tables: which store call wins on which row and what it writes, and
    which check of an approval fails first. */
module ReviewRules {
  import opened GoStrings
  import opened RecipientLists
  import opened ReviewHold
  import opened ReviewRuns

  // ---- The compare-and-set ----

  /** A call wins exactly on a pending hold outside the trash, in its own direction, for its own reason: an
      outside approval with a sent or approved target, a local approval or reject of the owner, an expiry past
      the deadline, a review with a review target of the agent the caller named, if it named one. */
  lemma WinsMeans(h: Hold, r: Resolution, now: int)
    ensures Answer(h, r, now) == Won <==>
      && h.status == PendingReview && h.trashedAt == None
      && match r
         case ApproveAndAccept(t, _) =>
           h.direction == Outbound && (t == Sent || t == ReviewApproved || t == ReviewExpiredApproved)
         case ApproveAndDeliverLocal(user) => h.direction == Outbound && user == h.owner
         case ExpireAndDeliverLocal => h.direction == Outbound && now > h.deadline
         case RejectPending(user) => h.direction == Outbound && user == h.owner
         case ExpireReject => h.direction == Outbound
         case TransitionReview(agent, t) =>
           h.direction == Inbound && t != PendingReview && t != Sent && (agent == "" || agent == h.agentId)
  {
  }

  /** What a call that does not win answers: a stranger is told that the message is not there, a target that is
      none is refused as such, and everything else is not pending. */
  lemma LosesMeans(h: Hold, r: Resolution, now: int)
    requires Answer(h, r, now) != Won
    ensures Answer(h, r, now) == NotFound <==>
      || (r.ApproveAndDeliverLocal? && (h.direction == Inbound || h.trashedAt.Some?
            || (h.status == PendingReview && r.user != h.owner)))
      || (r.RejectPending? && r.user != h.owner)
    ensures Answer(h, r, now) == InvalidTarget <==>
      || (r.ApproveAndAccept? && r.target != Sent && r.target != ReviewApproved && r.target != ReviewExpiredApproved)
      || (r.TransitionReview? && (r.review == PendingReview || r.review == Sent))
    ensures Answer(h, r, now) in {NotFound, InvalidTarget, NotPending}
  {
  }

  /** The row a winning call leaves: its own status, its one job or copy, and nothing else moved. */
  lemma ResolvedRow(h: Hold, r: Resolution, now: int, jobId: int)
    requires Fresh(h) && Answer(h, r, now) == Won
    ensures var m := Resolve(h, r, now, jobId);
      && m.status == (match r
           case ApproveAndAccept(t, _) => t
           case ApproveAndDeliverLocal(_) => Sent
           case ExpireAndDeliverLocal => ReviewExpiredApproved
           case RejectPending(_) => ReviewRejected
           case ExpireReject => ReviewExpiredRejected
           case TransitionReview(_, t) => t)
      && m.jobs == (if r.ApproveAndAccept? then [Job(jobId, r.recipients)] else [])
      && m.sendJobId == (if r.ApproveAndAccept? then Some(jobId) else None)
      && m.localCopies == (if r.ApproveAndDeliverLocal? || r.ExpireAndDeliverLocal? then 1 else 0)
      && m.direction == h.direction && m.owner == h.owner && m.agentId == h.agentId && m.draft == h.draft
      && m.deadline == h.deadline && m.trashedAt == h.trashedAt
  {
  }

  lemma {:induction false} OwnerIsFixed(w: World, steps: seq<Step>)
    ensures var h := Exec(w, steps).hold;
      h.owner == w.hold.owner && h.direction == w.hold.direction && h.agentId == w.hold.agentId
  {
    if steps != [] {
      OwnerIsFixed(w, steps[..|steps| - 1]);
    }
  }

  /** In every run whoever rejected the hold, or had it delivered locally by hand, owns it; and whoever reviewed
      an inbound hold by hand named its agent or none. */
  lemma {:induction false} WinnersAreEntitled(w: World, steps: seq<Step>, t: Task)
    requires t in Winners(w, steps)
    ensures t.call.RejectPending? || t.call.ApproveAndDeliverLocal? ==> t.call.user == w.hold.owner
    ensures t.call.TransitionReview? ==> t.call.agent == "" || t.call.agent == w.hold.agentId
    ensures t.call.TransitionReview? <==> w.hold.direction == Inbound
  {
    var init, last := steps[..|steps| - 1], steps[|steps| - 1];
    OwnerIsFixed(w, init);
    if Wins(Exec(w, init), last) && t == last.task {
      WinsMeans(Exec(w, init).hold, t.call, Exec(w, init).now);
    } else {
      WinnersAreEntitled(w, init, t);
    }
  }

  predicate NamesAgent(t: Task) { t.call.TransitionReview? && t.actor != Sweep ==> t.call.agent != "" }

  /** A review by hand names the agent of the hold; only the sweep names none. */
  lemma {:induction false} ReviewsNameTheAgent(w: World, steps: seq<Step>)
    requires Start(w)
    ensures forall t :: t in Exec(w, steps).tasks || t in Winners(w, steps) ==> NamesAgent(t)
    ensures forall t :: t in Winners(w, steps) && t.call.TransitionReview? && t.actor != Sweep ==>
      t.call.agent == w.hold.agentId
  {
    if steps != [] {
      var init, last := steps[..|steps| - 1], steps[|steps| - 1];
      ReviewsNameTheAgent(w, init);
      forall t | t in NewTasks(Exec(w, init), last) ensures NamesAgent(t) {
        NewTasksNameAgents(Exec(w, init), last, t);
      }
    }
    forall t | t in Winners(w, steps) && t.call.TransitionReview? && t.actor != Sweep
      ensures t.call.agent == w.hold.agentId
    {
      WinnersAreEntitled(w, steps, t);
      assert NamesAgent(t);
    }
  }

  lemma NewTasksNameAgents(w: World, s: Step, t: Task)
    requires t in NewTasks(w, s)
    ensures NamesAgent(t)
  {
  }

  /** The event is that of the call: approved exactly when the call leaves the hold sent, approved or approved by
      expiry; a magic link has none. */
  predicate TellsOf(e: ReviewEvent, t: Task) {
    t.actor != MagicLink && (e == ReviewApprovedEvent <==>
      Target(t.call) == Sent || Target(t.call) == ReviewApproved || Target(t.call) == ReviewExpiredApproved)
  }

  /** What is published tells of the call that won and of the status it left. */
  lemma PublishedIsTrue(w: World, steps: seq<Step>, e: ReviewEvent)
    requires Start(w) && e in Exec(w, steps).events
    ensures exists t :: t in Winners(w, steps) && TellsOf(e, t) && Exec(w, steps).hold.status == Target(t.call)
  {
    AtMostOneEvent(w, steps);
    ResolvedOnce(w, steps);
    var wins := Winners(w, steps);
    assert wins[0] in wins && TellsOf(e, wins[0]);
  }

  /** And a won call can publish its event until a crash. */
  lemma WonCanPublish(w: World, s: Step, e: ReviewEvent)
    requires Wins(w, s) && TellsOf(e, s.task)
    ensures e in Next(Next(w, s), Publish(e)).events
  {
  }

  // ---- Every call was decided ----

  predicate SweepSees(w: World, d: Direction) { w.listed && w.hold.direction == d }

  /** The step makes exactly this call due: its actor's verdict at this moment, or the policy, asks for it. */
  ghost predicate Asks(w: World, s: Step, t: Task) {
    match t.call
    case ApproveAndAccept(target, rs) =>
      || (s.DashboardApprove? && t.actor == Dashboard && target == Sent
          && DashboardVerdict(w.env, w.hold.draft, s.edits, s.email, w.suppressed, s.seen) == Queue(rs))
      || (s.MagicApprove? && t.actor == MagicLink && target == Sent
          && MagicVerdict(w.env, w.hold.draft, w.suppressed, s.seen) == Queue(rs))
      || (s.SweepOutbound? && s.approve && SweepSees(w, Outbound) && t.actor == Sweep && target == ReviewExpiredApproved
          && SweepVerdict(w.env, w.hold.draft, w.suppressed, s.seen) == Queue(rs))
    case ApproveAndDeliverLocal(user) =>
      || (s.DashboardApprove? && t.actor == Dashboard && s.user == user
          && DashboardVerdict(w.env, w.hold.draft, s.edits, s.email, w.suppressed, s.seen) == Loopback)
      || (s.MagicApprove? && t.actor == MagicLink && s.user == user
          && MagicVerdict(w.env, w.hold.draft, w.suppressed, s.seen) == Loopback)
    case ExpireAndDeliverLocal =>
      s.SweepOutbound? && s.approve && SweepSees(w, Outbound) && t.actor == Sweep
      && SweepVerdict(w.env, w.hold.draft, w.suppressed, s.seen) == Loopback
    case RejectPending(user) => t.actor != Sweep && s == Reject(t.actor, user)
    case ExpireReject =>
      || (s.SweepOutbound? && SweepSees(w, Outbound) && t.actor == Sweep
          && (!s.approve || SweepVerdict(w.env, w.hold.draft, w.suppressed, s.seen) == Expire))
      || (s.Run? && s.task in w.tasks && s.fails && s.task.call == ExpireAndDeliverLocal && t.actor == s.task.actor
          && Answer(w.hold, ExpireAndDeliverLocal, w.now) == Won)
    case TransitionReview(agent, target) =>
      || (s.InboundReview? && t.actor == Dashboard && agent != "" && s.agent == agent
          && target == (if s.approve then ReviewApproved else ReviewRejected))
      || (s.SweepInbound? && SweepSees(w, Inbound) && t.actor == Sweep && agent == ""
          && target == (if s.approve then ReviewExpiredApproved else ReviewExpiredRejected))
  }

  lemma HumansAreAsked(w: World, s: Step, t: Task)
    requires s.DashboardApprove? || s.MagicApprove? || s.Reject? || s.InboundReview?
    ensures t in NewTasks(w, s) <==> Asks(w, s, t)
  {
  }

  lemma SweepsAreAsked(w: World, s: Step, t: Task)
    requires s.SweepOutbound? || s.SweepInbound?
    ensures t in NewTasks(w, s) <==> Asks(w, s, t)
  {
  }

  lemma OthersAreAsked(w: World, s: Step, t: Task)
    requires !s.DashboardApprove? && !s.MagicApprove? && !s.Reject? && !s.InboundReview?
    requires !s.SweepOutbound? && !s.SweepInbound?
    ensures t in NewTasks(w, s) <==> Asks(w, s, t)
  {
  }

  lemma NewTasksAreAsked(w: World, s: Step, t: Task)
    ensures t in NewTasks(w, s) <==> Asks(w, s, t)
  {
    if s.DashboardApprove? || s.MagicApprove? || s.Reject? || s.InboundReview? {
      HumansAreAsked(w, s, t);
    } else if s.SweepOutbound? || s.SweepInbound? {
      SweepsAreAsked(w, s, t);
    } else {
      OthersAreAsked(w, s, t);
    }
  }

  predicate AskedAt(w: World, steps: seq<Step>, k: nat, t: Task) {
    k < |steps| && t in NewTasks(Exec(w, steps[..k]), steps[k])
  }

  lemma AskedEarlier(w: World, init: seq<Step>, steps: seq<Step>, t: Task)
    requires steps != [] && init == steps[..|steps| - 1] && exists k: nat :: AskedAt(w, init, k, t)
    ensures exists k: nat :: AskedAt(w, steps, k, t)
  {
    var k: nat :| AskedAt(w, init, k, t);
    assert init[..k] == steps[..k] && init[k] == steps[k];
    assert AskedAt(w, steps, k, t);
  }

  lemma {:induction false} TasksWereAsked(w: World, steps: seq<Step>, t: Task)
    requires Start(w) && (t in Exec(w, steps).tasks || t in Winners(w, steps))
    ensures exists k: nat :: AskedAt(w, steps, k, t)
  {
    var init, last := steps[..|steps| - 1], steps[|steps| - 1];
    if t in Exec(w, init).tasks || t in Winners(w, init) {
      TasksWereAsked(w, init, t);
      AskedEarlier(w, init, steps, t);
    } else {
      assert AskedAt(w, steps, |init|, t);
    }
  }

  ghost predicate AsksAt(w: World, steps: seq<Step>, k: nat, t: Task) {
    k < |steps| && Asks(Exec(w, steps[..k]), steps[k], t)
  }

  /** In every run the call that resolved the hold was asked for by some step of the run: by the verdict of the
      actor at that moment, or by the policy. */
  lemma WinnersWereAsked(w: World, steps: seq<Step>, t: Task)
    requires Start(w) && t in Winners(w, steps)
    ensures exists k: nat :: AsksAt(w, steps, k, t)
  {
    TasksWereAsked(w, steps, t);
    var k: nat :| AskedAt(w, steps, k, t);
    NewTasksAreAsked(Exec(w, steps[..k]), steps[k], t);
    assert AsksAt(w, steps, k, t);
  }

  // ---- Undisturbed ----

  /** What a step does to the calls that are due and to the row: a call stays due until it is run or a crash loses
      it, and only a due call that does not fail touches the row beside the trash. */
  lemma StepMeans(w: World, s: Step, t: Task)
    ensures t in Next(w, s).tasks <==>
      t in NewTasks(w, s) || (t in w.tasks && s != Crash && !(s.Run? && s.task == t))
    ensures var fails := !s.Run? || s.task !in w.tasks || s.fails;
      s != Trash && s != Restore ==>
        Next(w, s).hold == if fails then w.hold else Resolve(w.hold, s.task.call, w.now, s.jobId)
    ensures Next(w, Trash).hold ==
      w.hold.(trashedAt := if w.hold.trashedAt.Some? then w.hold.trashedAt else Some(w.now))
  {
  }

  /** The clock only goes forward, a changed list is the new one, and the sweep lists what has expired. */
  lemma WorldMoves(w: World, to: int, lists: set<string>)
    ensures Next(w, Advance(to)) == w.(now := if to > w.now then to else w.now)
    ensures Next(w, ListsChange(lists)) == w.(suppressed := lists)
    ensures var expired := w.hold.status == PendingReview && w.hold.trashedAt == None && w.hold.deadline < w.now;
      Next(w, ListExpired).listed <==> w.listed || expired
    ensures Next(w, Crash).tasks == {} && Next(w, Crash).owed == {} && Next(w, Crash).hold == w.hold
  {
  }

  /** A stay in the trash gives a pending hold back exactly the time it took, and nothing to any other. */
  lemma TrashGivesBack(w: World, to: int)
    requires w.hold.trashedAt == None && to >= w.now
    ensures Next(Next(Next(w, Trash), Advance(to)), Restore).hold ==
      w.hold.(deadline := w.hold.deadline + if w.hold.status == PendingReview then to - w.now else 0)
  {
  }

  /** An approval from the dashboard that nothing disturbs queues the send it decided on. */
  lemma UndisturbedApproval(w: World, user: string, e: Edits, email: string, seen: Observed, rs: seq<string>, job: int)
    requires Fresh(w.hold) && Open(w.hold, Outbound)
    requires DashboardVerdict(w.env, w.hold.draft, e, email, w.suppressed, seen) == Queue(rs)
    ensures var call := Task(Dashboard, ApproveAndAccept(Sent, rs));
      var v := Next(Next(w, DashboardApprove(user, e, email, seen)), Run(call, job, false));
      v.hold == w.hold.(status := Sent, jobs := [Job(job, rs)], sendJobId := Some(job))
  {
    var call := Task(Dashboard, ApproveAndAccept(Sent, rs));
    NewTasksAreAsked(w, DashboardApprove(user, e, email, seen), call);
  }

  /** And one by the sweep, from a hold that is only past its deadline. */
  lemma UndisturbedSweep(w: World, seen: Observed, rs: seq<string>, job: int)
    requires Fresh(w.hold) && Open(w.hold, Outbound) && w.hold.deadline < w.now
    requires SweepVerdict(w.env, w.hold.draft, w.suppressed, seen) == Queue(rs)
    ensures var call := Task(Sweep, ApproveAndAccept(ReviewExpiredApproved, rs));
      var v := Next(Next(Next(w, ListExpired), SweepOutbound(true, seen)), Run(call, job, false));
      v.hold == w.hold.(status := ReviewExpiredApproved, jobs := [Job(job, rs)], sendJobId := Some(job))
  {
    var call := Task(Sweep, ApproveAndAccept(ReviewExpiredApproved, rs));
    NewTasksAreAsked(Next(w, ListExpired), SweepOutbound(true, seen), call);
  }

  // ---- The checks of an approval ----

  /** A check, and the verdict of its failure. */
  datatype Check = Check(ok: bool, otherwise: Verdict)

  /** The first check that fails decides, and when none does `last`. */
  function FirstFailing(checks: seq<Check>, last: Verdict): Verdict {
    if checks == [] then last
    else if !checks[0].ok then checks[0].otherwise else FirstFailing(checks[1..], last)
  }

  lemma FirstOfTwo(c: Check, rest: seq<Check>, last: Verdict)
    ensures FirstFailing([c] + rest, last) == if c.ok then FirstFailing(rest, last) else c.otherwise
  {
    assert ([c] + rest)[1..] == rest;
  }

  predicate IsSelfSend(env: Env, kind: string, f: Fields) {
    kind != "test" && f.cc == [] && f.bcc == [] && |f.to| == 1
    && ToLower(TrimSpace(f.to[0])) == ToLower(env.agentAddress)
  }

  /** The addresses asked about, as the suppression lists store them. */
  ghost predicate AskedAbout(env: Env, f: Fields, key: string) {
    exists raw :: (raw in f.to || raw in f.cc || raw in f.bcc) && StoredAs(env, raw, key)
  }

  predicate StoredAs(env: Env, raw: string, key: string) {
    match env.parse(TrimSpace(raw))
    case Some(a) => key == ToLower(TrimSpace(a))
    case None => key == ToLower(TrimSpace(raw))
  }

  lemma KeysAreAskedAbout(env: Env, f: Fields, key: string)
    ensures key in LookupKeys(env.parse, f) <==> AskedAbout(env, f, key)
  {
    var all := Envelope(f);
    if AskedAbout(env, f, key) {
      var raw :| (raw in f.to || raw in f.cc || raw in f.bcc) && StoredAs(env, raw, key);
      assert raw in all;
      var i :| 0 <= i < |all| && all[i] == raw;
      assert MailboxKey(env.parse, all[i]) == key;
    }
    if key in LookupKeys(env.parse, f) {
      var i :| 0 <= i < |all| && MailboxKey(env.parse, all[i]) == key;
      assert all[i] in f.to || all[i] in f.cc || all[i] in f.bcc;
    }
  }

  /** The lookup that every approval makes finds a suppressed address exactly when one it asks about is on the
      lists, and asks about somebody exactly when some field has an entry. */
  lemma HitsMean(env: Env, f: Fields, suppressed: set<string>)
    ensures Hits(env, suppressed, f) == {} <==> forall key :: AskedAbout(env, f, key) ==> key !in suppressed
    ensures LookupKeys(env.parse, f) == {} <==> f.to == [] && f.cc == [] && f.bcc == []
  {
    forall key ensures key in LookupKeys(env.parse, f) <==> AskedAbout(env, f, key) {
      KeysAreAskedAbout(env, f, key);
    }
    if f.to != [] || f.cc != [] || f.bcc != [] {
      assert MailboxKey(env.parse, Envelope(f)[0]) in LookupKeys(env.parse, f);
    }
    assert forall key :: key in Hits(env, suppressed, f) <==> AskedAbout(env, f, key) && key in suppressed;
  }

  /** A composing failure is the caller's, but for what the composer itself calls otherwise. */
  lemma ComposeFails(env: Env, kind: string, req: SendRequest)
    ensures var rs := Recipients(env.parse, if kind == "test" then {} else Aliases(env), req.fields);
      && (Compose(env, kind, req).Ok? <==> rs.Ok? && env.mimeError(req).None?)
      && (rs.Err? ==> ComposeStatus(env, kind, req) == 400)
      && (rs.Ok? && env.mimeError(req).Some? ==> ComposeStatus(env, kind, req) == env.mimeError(req).value)
  {
  }

  /** Either rebuild carries the draft over field by field and fails only on unreadable attachments; they thread
      differently. */
  lemma RequestCarries(env: Env, d: Draft)
    ensures var human, sweep := BuildSendRequestFromMessage(env, d), SendRequestFromStoredMessage(env, d);
      var readable := d.attachments == "" || env.decode(d.attachments).Some?;
      && (human.Ok? <==> readable) && (sweep.Ok? <==> readable)
      && (readable ==>
           && human.value == sweep.value.(replyToMessageId := if d.kind == "reply" then d.emailMessageId else "")
           && sweep.value.replyToMessageId == d.emailMessageId && sweep.value.fields == d.fields
           && sweep.value.subject == d.subject && sweep.value.body == d.bodyText && sweep.value.htmlBody == d.bodyHtml
           && sweep.value.replyTo == (if d.replyTo == [] then "" else d.replyTo[0])
           && sweep.value.conversationId == d.conversationId && sweep.value.unsubscribe == d.managedUnsubscribe
           && sweep.value.attachments == if d.attachments == "" then "" else env.decode(d.attachments).value)
  {
  }

  /** A reviewer's edits replace what they give and leave the rest of the draft. */
  lemma EditsReplace(e: Edits, d: Draft)
    ensures var m := Apply(e, d);
      && m.subject == (match e.subject case Some(s) => s case None => d.subject)
      && m.bodyText == (match e.bodyText case Some(s) => s case None => d.bodyText)
      && m.bodyHtml == (match e.bodyHtml case Some(s) => s case None => d.bodyHtml)
      && m.attachments == (match e.attachments case Some(s) => s case None => d.attachments)
      && m.fields.to == (match e.to case Some(s) => s case None => d.fields.to)
      && m.fields.cc == (match e.cc case Some(s) => s case None => d.fields.cc)
      && m.fields.bcc == (match e.bcc case Some(s) => s case None => d.fields.bcc)
      && m.kind == d.kind && m.emailMessageId == d.emailMessageId && m.replyTo == d.replyTo
      && m.conversationId == d.conversationId && m.managedUnsubscribe == d.managedUnsubscribe
  {
  }

  lemma SixChecks(a: Check, b: Check, c: Check, d: Check, e: Check, f: Check, last: Verdict)
    ensures FirstFailing([a] + [b] + [c] + [d] + [e] + [f], last) ==
      if !a.ok then a.otherwise else if !b.ok then b.otherwise else if !c.ok then c.otherwise
      else if !d.ok then d.otherwise else if !e.ok then e.otherwise else if !f.ok then f.otherwise else last
  {
    var all := [a] + [b] + [c] + [d] + [e] + [f];
    assert all == [a] + ([b] + ([c] + ([d] + ([e] + ([f] + [])))));
    FirstOfTwo(f, [], last);
    FirstOfTwo(e, [f] + [], last);
    FirstOfTwo(d, [e] + ([f] + []), last);
    FirstOfTwo(c, [d] + ([e] + ([f] + [])), last);
    FirstOfTwo(b, [c] + ([d] + ([e] + ([f] + []))), last);
    FirstOfTwo(a, [b] + ([c] + ([d] + ([e] + ([f] + [])))), last);
  }

  lemma FiveChecks(a: Check, b: Check, c: Check, d: Check, e: Check, last: Verdict)
    ensures FirstFailing([a] + [b] + [c] + [d] + [e], last) ==
      if !a.ok then a.otherwise else if !b.ok then b.otherwise else if !c.ok then c.otherwise
      else if !d.ok then d.otherwise else if !e.ok then e.otherwise else last
  {
    assert [a] + [b] + [c] + [d] + [e] == [a] + ([b] + ([c] + ([d] + ([e] + []))));
    FirstOfTwo(e, [], last);
    FirstOfTwo(d, [e] + [], last);
    FirstOfTwo(c, [d] + ([e] + []), last);
    FirstOfTwo(b, [c] + ([d] + ([e] + [])), last);
    FirstOfTwo(a, [b] + ([c] + ([d] + ([e] + []))), last);
  }

  /** What a send is queued for, once all checks passed. */
  function Queued(env: Env, kind: string, req: SendRequest): Verdict {
    match Compose(env, kind, req) case Ok(recipients) => Queue(recipients) case Err(_) => Leave
  }

  /** From the merged draft on a reviewer's approval makes these checks in this order. */
  lemma SharedDecides(env: Env, d: Draft, req: SendRequest, suppressed: set<string>, o: Observed)
    ensures var selfSend := IsSelfSend(env, d.kind, req.fields);
      HumanTail(env, d, req, suppressed, o) == FirstFailing(
        [Check(LookupKeys(env.parse, req.fields) == {} || !o.lookupFails, Refuse(500))]
        + [Check(Hits(env, suppressed, req.fields) == {}, Refuse(422))]
        + [Check(!req.unsubscribe || OneRecipient(env, req), Refuse(400))]
        + [Check(!req.unsubscribe || (o.issuerWired && o.issues), Refuse(500))]
        + [Check(o.queueWired, Refuse(500))]
        + [Check(selfSend || Compose(env, d.kind, req).Ok?, Refuse(ComposeStatus(env, d.kind, req)))],
        if selfSend then Loopback else Queued(env, d.kind, req))
  {
    SixChecks(
      Check(LookupKeys(env.parse, req.fields) == {} || !o.lookupFails, Refuse(500)),
      Check(Hits(env, suppressed, req.fields) == {}, Refuse(422)),
      Check(!req.unsubscribe || OneRecipient(env, req), Refuse(400)),
      Check(!req.unsubscribe || (o.issuerWired && o.issues), Refuse(500)),
      Check(o.queueWired, Refuse(500)),
      Check(IsSelfSend(env, d.kind, req.fields) || Compose(env, d.kind, req).Ok?,
        Refuse(ComposeStatus(env, d.kind, req))),
      if IsSelfSend(env, d.kind, req.fields) then Loopback else Queued(env, d.kind, req));
  }

  /** The dashboard checks the stored row, the agent and the edited draft before that. */
  lemma DashboardDecides(env: Env, d: Draft, e: Edits, email: string, suppressed: set<string>, o: Observed)
    ensures var merged := BuildSendRequestFromMessage(env, Apply(e, d));
      DashboardVerdict(env, d, e, email, suppressed, o) == FirstFailing(
        [Check(o.draft.Loaded?, Refuse(404))]
        + [Check(o.draft == Loaded(PendingReview), Refuse(409))]
        + [Check(o.agent.Found?, Refuse(500))]
        + [Check(email == "" || (o.agent.Found? && o.agent.email == email), Refuse(404))]
        + [Check(o.agent.Found? && o.agent.verified, Refuse(403))]
        + [Check(merged.Ok?, Refuse(400))],
        if merged.Err? then Leave
        else if env.tooLarge(merged.value) then Refuse(413)
        else HumanTail(env, Apply(e, d), merged.value, suppressed, o))
  {
    var merged := BuildSendRequestFromMessage(env, Apply(e, d));
    SixChecks(
      Check(o.draft.Loaded?, Refuse(404)), Check(o.draft == Loaded(PendingReview), Refuse(409)),
      Check(o.agent.Found?, Refuse(500)),
      Check(email == "" || (o.agent.Found? && o.agent.email == email), Refuse(404)),
      Check(o.agent.Found? && o.agent.verified, Refuse(403)), Check(merged.Ok?, Refuse(400)),
      if merged.Err? then Leave
      else if env.tooLarge(merged.value) then Refuse(413)
      else HumanTail(env, Apply(e, d), merged.value, suppressed, o));
  }

  /** A magic link checks the agent and the queue first, and the row only for being there. */
  lemma MagicDecides(env: Env, d: Draft, suppressed: set<string>, o: Observed)
    ensures var req := BuildSendRequestFromMessage(env, d);
      MagicVerdict(env, d, suppressed, o) == FirstFailing(
        [Check(o.agent.Found?, Refuse(500))]
        + [Check(o.agent.Found? && o.agent.verified, Refuse(403))]
        + [Check(o.queueWired, Refuse(500))]
        + [Check(o.draft.Loaded?, Refuse(404))]
        + [Check(req.Ok?, Refuse(400))],
        if req.Err? then Leave else HumanTail(env, d, req.value, suppressed, o))
  {
    var req := BuildSendRequestFromMessage(env, d);
    FiveChecks(Check(o.agent.Found?, Refuse(500)),
      Check(o.agent.Found? && o.agent.verified, Refuse(403)), Check(o.queueWired, Refuse(500)),
      Check(o.draft.Loaded?, Refuse(404)), Check(req.Ok?, Refuse(400)),
      if req.Err? then Leave else HumanTail(env, d, req.value, suppressed, o));
  }

  /** The sweep leaves what may pass, gives up what will not, and looks for a self-send before anything that
      concerns recipients. */
  lemma SweepDecidesBy(env: Env, d: Draft, suppressed: set<string>, o: Observed)
    ensures var req := SendRequestFromStoredMessage(env, d);
      SweepVerdict(env, d, suppressed, o) == FirstFailing(
        [Check(!o.agent.AgentMissing?, Leave)]
        + [Check(o.agent.Found? && o.agent.verified, Expire)]
        + [Check(o.queueWired, Leave)]
        + [Check(o.draft == Loaded(PendingReview), Leave)]
        + [Check(req.Ok?, Expire)],
        if req.Err? then Leave else SweepTail(env, d, req.value, suppressed, o))
  {
    var req := SendRequestFromStoredMessage(env, d);
    FiveChecks(Check(!o.agent.AgentMissing?, Leave), Check(o.agent.Found? && o.agent.verified, Expire),
      Check(o.queueWired, Leave), Check(o.draft == Loaded(PendingReview), Leave),
      Check(req.Ok?, Expire),
      if req.Err? then Leave else SweepTail(env, d, req.value, suppressed, o));
  }

  lemma SweepTailDecides(env: Env, d: Draft, req: SendRequest, suppressed: set<string>, o: Observed)
    ensures var selfSend := IsSelfSend(env, d.kind, req.fields);
      SweepTail(env, d, req, suppressed, o) == FirstFailing(
        [Check(LookupKeys(env.parse, req.fields) == {} || !o.lookupFails, Leave)]
        + [Check(Hits(env, suppressed, req.fields) == {}, Expire)]
        + [Check(!selfSend, Loopback)]
        + [Check(!req.unsubscribe || OneRecipient(env, req), Expire)]
        + [Check(!req.unsubscribe || (o.issuerWired && o.issues), Leave)]
        + [Check(Compose(env, d.kind, req).Ok?, Expire)],
        Queued(env, d.kind, req))
  {
    SixChecks(
      Check(LookupKeys(env.parse, req.fields) == {} || !o.lookupFails, Leave),
      Check(Hits(env, suppressed, req.fields) == {}, Expire),
      Check(!IsSelfSend(env, d.kind, req.fields), Loopback),
      Check(!req.unsubscribe || OneRecipient(env, req), Expire),
      Check(!req.unsubscribe || (o.issuerWired && o.issues), Leave),
      Check(Compose(env, d.kind, req).Ok?, Expire),
      Queued(env, d.kind, req));
  }

  /** The only address to be reached. */
  ghost predicate OnlyOne(env: Env, f: Fields, a: string) {
    ToBeReached(env, "", f.to, f.cc, f.bcc, a) && forall b :: ToBeReached(env, "", f.to, f.cc, f.bcc, b) ==> b == a
  }

  /** A managed unsubscribe link goes to exactly one address: the fields, read with success, name one besides the
      agent's own. */
  lemma OneRecipientMeans(env: Env, req: SendRequest)
    requires Recipients(env.parse, Aliases(env), req.fields).Ok?
    ensures OneRecipient(env, req) <==> exists a :: OnlyOne(env, req.fields, a)
  {
    var e := Envelope(Recipients(env.parse, Aliases(env), req.fields).value);
    EnvelopeReachesAll(env, "", req.fields);
    if |e| == 1 {
      assert OnlyOne(env, req.fields, e[0]);
    }
    if a :| OnlyOne(env, req.fields, a) {
      assert a in e;
      OnlyElement(e, a);
    }
  }
}
