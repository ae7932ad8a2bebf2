/** Every interleaving of reviewers, magic links and the expiry sweep over one hold: each actor
    decides, later runs its transaction, and later still publishes, and may stop in between. */
module ReviewRuns {
  import opened GoStrings
  import opened RecipientLists
  import opened ReviewHold

  datatype Actor = Dashboard | MagicLink | Sweep

  /** A store call an actor is about to make. */
  datatype Task = Task(actor: Actor, call: Resolution)

  datatype ReviewEvent = ReviewApprovedEvent | ReviewRejectedEvent

  datatype World = World(
    env: Env, hold: Hold, suppressed: set<string>, now: int, listed: bool, tasks: set<Task>,
    owed: set<ReviewEvent>, events: set<ReviewEvent>)

  datatype Step =
    | Advance(to: int)
    | Trash
    | Restore
    | ListsChange(suppressed: set<string>)
    | Crash
    | ListExpired
    | DashboardApprove(user: string, edits: Edits, email: string, seen: Observed)
    | MagicApprove(user: string, seen: Observed)
    | Reject(actor: Actor, user: string)
    | SweepOutbound(approve: bool, seen: Observed)
    | InboundReview(user: string, agent: string, approve: bool)
    | SweepInbound(approve: bool)
    | Run(task: Task, jobId: int, fails: bool)
    | Publish(event: ReviewEvent)

  predicate Approves(s: HoldStatus) { s == Sent || s == ReviewApproved || s == ReviewExpiredApproved }

  function EventOf(r: Resolution): ReviewEvent {
    if Approves(Target(r)) then ReviewApprovedEvent else ReviewRejectedEvent
  }

  /** A magic link publishes no review event. */
  function EventsOf(t: Task): set<ReviewEvent> {
    if t.actor == MagicLink then {} else {EventOf(t.call)}
  }

  /** The store call a verdict leads to. */
  function HumanTasks(actor: Actor, user: string, v: Verdict): set<Task> {
    match v
    case Queue(recipients) => {Task(actor, ApproveAndAccept(Sent, recipients))}
    case Loopback => {Task(actor, ApproveAndDeliverLocal(user))}
    case _ => {}
  }

  function SweepTasks(v: Verdict): set<Task> {
    match v
    case Queue(recipients) => {Task(Sweep, ApproveAndAccept(ReviewExpiredApproved, recipients))}
    case Loopback => {Task(Sweep, ExpireAndDeliverLocal)}
    case Expire => {Task(Sweep, ExpireReject)}
    case _ => {}
  }

  /** The store calls a step makes due. */
  function NewTasks(w: World, s: Step): set<Task> {
    match s
    case DashboardApprove(user, edits, email, seen) =>
      HumanTasks(Dashboard, user, DashboardVerdict(w.env, w.hold.draft, edits, email, w.suppressed, seen))
    case MagicApprove(user, seen) => HumanTasks(MagicLink, user, MagicVerdict(w.env, w.hold.draft, w.suppressed, seen))
    case Reject(actor, user) => if actor == Sweep then {} else {Task(actor, RejectPending(user))}
    case SweepOutbound(approve, seen) =>
      if !w.listed || w.hold.direction != Outbound then {}
      else if approve then SweepTasks(SweepVerdict(w.env, w.hold.draft, w.suppressed, seen))
      else {Task(Sweep, ExpireReject)}
    case InboundReview(user, agent, approve) =>
      if agent == "" then {}
      else {Task(Dashboard, TransitionReview(agent, if approve then ReviewApproved else ReviewRejected))}
    case SweepInbound(approve) =>
      if !w.listed || w.hold.direction != Inbound then {}
      else {Task(Sweep, TransitionReview("", if approve then ReviewExpiredApproved else ReviewExpiredRejected))}
    case Run(task, _, fails) =>
      // A local delivery that fails for any reason but a lost race is given up.
      if task in w.tasks && fails && task.call == ExpireAndDeliverLocal && Answer(w.hold, task.call, w.now) == Won
      then {Task(task.actor, ExpireReject)} else {}
    case _ => {}
  }

  predicate Wins(w: World, s: Step) {
    s.Run? && s.task in w.tasks && !s.fails && Answer(w.hold, s.task.call, w.now) == Won
  }

  predicate Expired(w: World) { w.hold.status == PendingReview && w.hold.trashedAt == None && w.hold.deadline < w.now }

  function NextHold(w: World, s: Step): Hold {
    match s
    case Trash => if w.hold.trashedAt == None then w.hold.(trashedAt := Some(w.now)) else w.hold
    case Restore =>
      // A pending hold gets its time in the trash back.
      if w.hold.trashedAt == None then w.hold
      else if w.hold.status != PendingReview then w.hold.(trashedAt := None)
      else w.hold.(trashedAt := None, deadline := w.hold.deadline + (w.now - w.hold.trashedAt.value))
    case Run(task, jobId, _) => if Wins(w, s) then Resolve(w.hold, task.call, w.now, jobId) else w.hold
    case _ => w.hold
  }

  function Next(w: World, s: Step): World {
    var tasks := (if s.Crash? then {} else if s.Run? then w.tasks - {s.task} else w.tasks) + NewTasks(w, s);
    w.(hold := NextHold(w, s),
       now := if s.Advance? && s.to > w.now then s.to else w.now,
       suppressed := if s.ListsChange? then s.suppressed else w.suppressed,
       listed := if s.ListExpired? then w.listed || Expired(w) else w.listed,
       tasks := tasks,
       owed := if s.Crash? then {} else if Wins(w, s) then w.owed + EventsOf(s.task) else w.owed,
       events := if s.Publish? && s.event in w.owed then w.events + {s.event} else w.events)
  }

  function Exec(w: World, steps: seq<Step>): World {
    if steps == [] then w else Next(Exec(w, steps[..|steps| - 1]), steps[|steps| - 1])
  }

  /** The calls that won, in order. */
  function Winners(w: World, steps: seq<Step>): seq<Task> {
    if steps == [] then []
    else
      var init, last := steps[..|steps| - 1], steps[|steps| - 1];
      Winners(w, init) + if Wins(Exec(w, init), last) then [last.task] else []
  }

  predicate Start(w: World) {
    Fresh(w.hold) && !w.listed && w.tasks == {} && w.owed == {} && w.events == {} && w.hold.trashedAt == None
  }

  // ---- One resolution ----

  /** The hold is exactly what its single winning call, if any, made of it. */
  predicate Tells(h: Hold, wins: seq<Task>) {
    if wins == [] then Fresh(h)
    else
      && |wins| == 1
      && h.status == Target(wins[0].call) != PendingReview
      && |h.jobs| == |JobsOf(wins[0].call)|
      && (forall i :: 0 <= i < |h.jobs| ==> h.jobs[i].recipients == JobsOf(wins[0].call)[i])
      && h.sendJobId == (if h.jobs == [] then None else Some(h.jobs[0].id))
      && h.localCopies == CopiesOf(wins[0].call)
  }

  lemma WonResolves(h: Hold, r: Resolution, now: int, jobId: int)
    requires Answer(h, r, now) == Won
    ensures h.status == PendingReview && h.trashedAt == None && Target(r) != PendingReview && TargetOk(r)
    ensures h.direction == (if r.TransitionReview? then Inbound else Outbound)
  {
  }

  /** In every run at most one call wins: the hold leaves review at most once, and its status, send
      jobs, stamped job id and local copies are those of the winner. */
  lemma {:induction false} ResolvedOnce(w: World, steps: seq<Step>)
    requires Start(w)
    ensures Tells(Exec(w, steps).hold, Winners(w, steps))
  {
    if steps != [] {
      var init, last := steps[..|steps| - 1], steps[|steps| - 1];
      ResolvedOnce(w, init);
      var v := Exec(w, init);
      if Wins(v, last) {
        WonResolves(v.hold, last.task.call, v.now, last.jobId);
        TellsTheWinner(v.hold, last.task, v.now, last.jobId);
      } else {
        TellsUnlessWon(v, last, Winners(w, init));
      }
    }
  }

  lemma TellsTheWinner(h: Hold, t: Task, now: int, jobId: int)
    requires Fresh(h) && Answer(h, t.call, now) == Won
    ensures Tells(Resolve(h, t.call, now, jobId), [t])
  {
    WonResolves(h, t.call, now, jobId);
  }

  lemma TellsUnlessWon(w: World, s: Step, wins: seq<Task>)
    requires Tells(w.hold, wins) && !Wins(w, s)
    ensures Tells(NextHold(w, s), wins)
  {
  }

  /** A send job exists exactly when an approval for outside delivery won, and then only one. */
  lemma OneJobPerExternalApproval(w: World, steps: seq<Step>)
    requires Start(w)
    ensures var h := Exec(w, steps).hold;
      && |h.jobs| <= 1
      && (|h.jobs| == 1 <==> exists t :: t in Winners(w, steps) && t.call.ApproveAndAccept?)
      && (h.localCopies == 1 <==> exists t :: t in Winners(w, steps) && CopiesOf(t.call) == 1)
      && (h.status == PendingReview <==> Winners(w, steps) == [])
      && |h.jobs| + h.localCopies <= 1
  {
    ResolvedOnce(w, steps);
    var wins := Winners(w, steps);
    if wins != [] {
      assert wins == [wins[0]];
    }
  }

  lemma {:induction false} ResolvedRowStays(w: World, steps: seq<Step>)
    requires w.hold.status != PendingReview
    ensures var h := Exec(w, steps).hold;
      && h.status == w.hold.status && h.jobs == w.hold.jobs && h.sendJobId == w.hold.sendJobId
      && h.localCopies == w.hold.localCopies
  {
    if steps != [] {
      var init, last := steps[..|steps| - 1], steps[|steps| - 1];
      ResolvedRowStays(w, init);
      var v := Exec(w, init);
      if Wins(v, last) {
        WonResolves(v.hold, last.task.call, v.now, last.jobId);
      }
    }
  }

  lemma {:induction false} ExecConcat(w: World, a: seq<Step>, b: seq<Step>)
    ensures Exec(w, a + b) == Exec(Exec(w, a), b)
  {
    if b == [] {
      assert a + b == a;
    } else {
      var init, last := b[..|b| - 1], b[|b| - 1];
      ExecConcat(w, a, init);
      assert (a + b)[..|a + b| - 1] == a + init && (a + b)[|a + b| - 1] == last;
    }
  }

  /** Once out of review, a hold keeps its status, its jobs and its copies for the rest of the run. */
  lemma ResolvedForGood(w: World, steps: seq<Step>, k: nat)
    requires k <= |steps| && Exec(w, steps[..k]).hold.status != PendingReview
    ensures var before, after := Exec(w, steps[..k]).hold, Exec(w, steps).hold;
      && after.status == before.status && after.jobs == before.jobs && after.sendJobId == before.sendJobId
      && after.localCopies == before.localCopies
  {
    ExecConcat(w, steps[..k], steps[k..]);
    assert steps == steps[..k] + steps[k..];
    ResolvedRowStays(Exec(w, steps[..k]), steps[k..]);
  }

  // ---- Events ----

  predicate Announces(w: World, wins: seq<Task>) {
    w.owed + w.events <= if wins == [] then {} else EventsOf(wins[0])
  }

  /** Only the winner's event is ever published: at most one resolution event, none after a magic link. */
  lemma {:induction false} AtMostOneEvent(w: World, steps: seq<Step>)
    requires Start(w)
    ensures Announces(Exec(w, steps), Winners(w, steps))
    ensures |Exec(w, steps).events| <= 1
  {
    if steps != [] {
      var init, last := steps[..|steps| - 1], steps[|steps| - 1];
      AtMostOneEvent(w, init);
      ResolvedOnce(w, init);
      ResolvedOnce(w, steps);
      if Wins(Exec(w, init), last) {
        assert Winners(w, steps) == Winners(w, init) + [last.task];
        assert Winners(w, init) == [];
      } else {
        assert Winners(w, steps) == Winners(w, init);
      }
    }
    FewEvents(Exec(w, steps).events, Winners(w, steps));
  }

  lemma FewEvents(events: set<ReviewEvent>, wins: seq<Task>)
    requires events <= if wins == [] then {} else EventsOf(wins[0])
    ensures |events| <= 1
  {
    if wins == [] || wins[0].actor == MagicLink {
      assert events == {};
    } else {
      assert events == {} || events == {EventOf(wins[0].call)};
    }
  }

  // ---- Suppression ----

  /** Step `k` decided to queue a send to `recipients`, having looked them up with success at a
      moment when none of them was suppressed. */
  predicate DecidedAt(w: World, s: Step, recipients: seq<string>) {
    match s
    case DashboardApprove(_, edits, _, seen) =>
      !seen.lookupFails && Cleared(w.env, Apply(edits, w.hold.draft).fields, w.suppressed, recipients)
    case MagicApprove(_, seen) => !seen.lookupFails && Cleared(w.env, w.hold.draft.fields, w.suppressed, recipients)
    case SweepOutbound(_, seen) => !seen.lookupFails && Cleared(w.env, w.hold.draft.fields, w.suppressed, recipients)
    case _ => false
  }

  predicate ClearedIn(w: World, steps: seq<Step>, recipients: seq<string>) {
    exists k :: 0 <= k < |steps| && DecidedAt(Exec(w, steps[..k]), steps[k], recipients)
  }

  predicate AllCleared(w: World, steps: seq<Step>, tasks: set<Task>) {
    forall t :: t in tasks && t.call.ApproveAndAccept? ==> ClearedIn(w, steps, t.call.recipients)
  }

  lemma ClearedStays(w: World, steps: seq<Step>, recipients: seq<string>)
    requires steps != [] && ClearedIn(w, steps[..|steps| - 1], recipients)
    ensures ClearedIn(w, steps, recipients)
  {
    var init := steps[..|steps| - 1];
    var k :| 0 <= k < |init| && DecidedAt(Exec(w, init[..k]), init[k], recipients);
    assert init[..k] == steps[..k] && init[k] == steps[k];
  }

  lemma NewTasksAreDecided(w: World, s: Step, t: Task)
    requires CleanParser(w.env.parse) && t in NewTasks(w, s) && t.call.ApproveAndAccept?
    ensures DecidedAt(w, s, t.call.recipients)
  {
    match s
    case DashboardApprove(user, edits, email, seen) =>
      DashboardQueuesCleared(w.env, w.hold.draft, edits, email, w.suppressed, seen);
    case MagicApprove(user, seen) => MagicQueuesCleared(w.env, w.hold.draft, w.suppressed, seen);
    case SweepOutbound(approve, seen) => SweepQueuesCleared(w.env, w.hold.draft, w.suppressed, seen);
    case _ =>
  }

  lemma {:induction false} DraftIsFixed(w: World, steps: seq<Step>)
    ensures Exec(w, steps).env == w.env && Exec(w, steps).hold.draft == w.hold.draft
  {
    if steps != [] {
      DraftIsFixed(w, steps[..|steps| - 1]);
    }
  }

  lemma {:induction false} TasksAreCleared(w: World, steps: seq<Step>)
    requires Start(w) && CleanParser(w.env.parse)
    ensures AllCleared(w, steps, Exec(w, steps).tasks)
    ensures forall i :: 0 <= i < |Winners(w, steps)| && Winners(w, steps)[i].call.ApproveAndAccept? ==>
      ClearedIn(w, steps, Winners(w, steps)[i].call.recipients)
  {
    if steps != [] {
      var init, last := steps[..|steps| - 1], steps[|steps| - 1];
      TasksAreCleared(w, init);
      DraftIsFixed(w, init);
      var v := Exec(w, init);
      forall t | t in Next(v, last).tasks && t.call.ApproveAndAccept? ensures ClearedIn(w, steps, t.call.recipients) {
        if t in NewTasks(v, last) {
          NewTasksAreDecided(v, last, t);
          assert steps[..|steps| - 1] == init && steps[|steps| - 1] == last;
        } else {
          assert t in v.tasks;
          ClearedStays(w, steps, t.call.recipients);
        }
      }
      var wins := Winners(w, steps);
      forall i | 0 <= i < |wins| && wins[i].call.ApproveAndAccept?
        ensures ClearedIn(w, steps, wins[i].call.recipients)
      {
        if i < |Winners(w, init)| {
          assert wins[i] == Winners(w, init)[i];
        } else {
          assert wins[i] in v.tasks;
        }
        ClearedStays(w, steps, wins[i].call.recipients);
      }
    }
  }

  /** Every address a send job goes to was looked up, with success, by the approval that queued it, at
      a moment of the run when it was not suppressed. */
  lemma JobsWereCleared(w: World, steps: seq<Step>, j: Job)
    requires Start(w) && CleanParser(w.env.parse) && j in Exec(w, steps).hold.jobs
    ensures ClearedIn(w, steps, j.recipients)
  {
    ResolvedOnce(w, steps);
    TasksAreCleared(w, steps);
    var wins := Winners(w, steps);
    assert wins[0].call.ApproveAndAccept? && wins[0].call.recipients == j.recipients;
  }

  /** The step approved this draft, with the reviewer's fields in place of its own where given, for
      everybody it names. */
  ghost predicate ReachedBy(env: Env, d: Draft, s: Step, recipients: seq<string>) {
    match s
    case DashboardApprove(_, e, _, _) =>
      ReachesAll(env, d.kind, if e.to.Some? then e.to.value else d.fields.to,
        if e.cc.Some? then e.cc.value else d.fields.cc, if e.bcc.Some? then e.bcc.value else d.fields.bcc, recipients)
    case MagicApprove(_, _) => ReachesAll(env, d.kind, d.fields.to, d.fields.cc, d.fields.bcc, recipients)
    case SweepOutbound(_, _) => ReachesAll(env, d.kind, d.fields.to, d.fields.cc, d.fields.bcc, recipients)
    case _ => false
  }

  ghost predicate Reached(env: Env, d: Draft, steps: seq<Step>, t: Task) {
    t.call.ApproveAndAccept? ==> exists s :: s in steps && ReachedBy(env, d, s, t.call.recipients)
  }

  lemma NewTasksReach(w: World, s: Step, t: Task)
    requires t in NewTasks(w, s) && t.call.ApproveAndAccept?
    ensures ReachedBy(w.env, w.hold.draft, s, t.call.recipients)
  {
    match s
    case DashboardApprove(user, edits, email, seen) =>
      EditedQueuesForAll(w.env, w.hold.draft, edits, email, w.suppressed, seen);
    case MagicApprove(user, seen) => QueuesForAll(w.env, w.hold.draft, w.suppressed, seen);
    case SweepOutbound(approve, seen) => QueuesForAll(w.env, w.hold.draft, w.suppressed, seen);
    case _ =>
  }

  lemma {:induction false} TasksReachAll(w: World, steps: seq<Step>)
    requires Start(w)
    ensures forall t :: t in Exec(w, steps).tasks || t in Winners(w, steps) ==> Reached(w.env, w.hold.draft, steps, t)
  {
    if steps != [] {
      var init, last := steps[..|steps| - 1], steps[|steps| - 1];
      TasksReachAll(w, init);
      DraftIsFixed(w, init);
      var v := Exec(w, init);
      assert steps == init + [last] && last in steps;
      forall t | t in Exec(w, steps).tasks || t in Winners(w, steps)
        ensures Reached(w.env, w.hold.draft, steps, t)
      {
        if t in v.tasks || t in Winners(w, init) {
          assert Reached(w.env, w.hold.draft, init, t);
        } else if t.call.ApproveAndAccept? {
          NewTasksReach(v, last, t);
        }
      }
    }
  }

  /** The recipients of a send job are, each once, exactly the addresses named by the draft as the approving
      step had it: nobody on To, CC or BCC is forgotten. */
  lemma JobsReachEverybody(w: World, steps: seq<Step>, j: Job)
    requires Start(w) && j in Exec(w, steps).hold.jobs
    ensures exists s :: s in steps && ReachedBy(w.env, w.hold.draft, s, j.recipients)
  {
    ResolvedOnce(w, steps);
    TasksReachAll(w, steps);
    var wins := Winners(w, steps);
    assert wins[0] in wins && wins[0].call.ApproveAndAccept? && wins[0].call.recipients == j.recipients;
  }

  // ---- Expiry ----

  predicate WasExpired(w: World, steps: seq<Step>) {
    exists k :: 0 <= k < |steps| && Expired(Exec(w, steps[..k]))
  }

  lemma ExpiredStays(w: World, steps: seq<Step>)
    requires steps != [] && WasExpired(w, steps[..|steps| - 1])
    ensures WasExpired(w, steps)
  {
    var init := steps[..|steps| - 1];
    var k :| 0 <= k < |init| && Expired(Exec(w, init[..k]));
    assert init[..k] == steps[..k];
  }

  predicate SweepActs(w: World) { w.listed || exists t :: t in w.tasks && t.actor == Sweep }

  /** The sweep resolves a hold only after it was seen pending, out of the trash and past its deadline. */
  lemma {:induction false} SweepNeedsExpiry(w: World, steps: seq<Step>)
    requires Start(w)
    ensures SweepActs(Exec(w, steps)) ==> WasExpired(w, steps)
    ensures forall t :: t in Winners(w, steps) && t.actor == Sweep ==> WasExpired(w, steps)
  {
    if steps != [] {
      var init, last := steps[..|steps| - 1], steps[|steps| - 1];
      SweepNeedsExpiry(w, init);
      var v := Exec(w, init);
      if WasExpired(w, init) {
        ExpiredStays(w, steps);
      } else if last.ListExpired? && Expired(v) {
        assert steps[..|steps| - 1] == init;
      } else {
        assert !SweepActs(v);
        NoSweepAppears(v, last);
        assert forall t :: t in Winners(w, steps) ==> t in Winners(w, init) || t in v.tasks;
      }
    }
  }

  lemma NoSweepAppears(w: World, s: Step)
    requires !SweepActs(w) && !(s.ListExpired? && Expired(w))
    ensures !SweepActs(Next(w, s))
  {
    forall t | t in NewTasks(w, s) ensures t.actor != Sweep {
    }
  }

  /** The clock of a hold in the trash stands still. */
  function Clock(w: World): int { if w.hold.trashedAt == None then w.now else w.hold.trashedAt.value }

  lemma ClockRuns(w: World, s: Step)
    requires w.hold.status == PendingReview && w.hold.deadline < Clock(w)
    ensures Next(w, s).hold.deadline < Clock(Next(w, s))
  {
    if s.Run? && Wins(w, s) {
      assert Resolve(w.hold, s.task.call, w.now, s.jobId).deadline == w.hold.deadline;
    }
  }

  lemma {:induction false} ExpiryIsFinal(w: World, steps: seq<Step>)
    requires Start(w) && WasExpired(w, steps) && Exec(w, steps).hold.status == PendingReview
    ensures Exec(w, steps).hold.deadline < Clock(Exec(w, steps))
  {
    var init, last := steps[..|steps| - 1], steps[|steps| - 1];
    var v := Exec(w, init);
    assert v.hold.status == PendingReview by {
      if v.hold.status != PendingReview {
        ResolvedForGood(w, steps, |init|);
      }
    }
    if WasExpired(w, init) {
      ExpiryIsFinal(w, init);
    } else {
      var k :| 0 <= k < |steps| && Expired(Exec(w, steps[..k]));
      NotEarlier(w, steps, k);
    }
    ClockRuns(v, last);
  }

  lemma NotEarlier(w: World, steps: seq<Step>, k: nat)
    requires k < |steps| && Expired(Exec(w, steps[..k]))
    ensures WasExpired(w, steps[..|steps| - 1]) || steps[..k] == steps[..|steps| - 1]
  {
    var init := steps[..|steps| - 1];
    if k < |init| {
      assert init[..k] == steps[..k];
    }
  }

  /** Whatever the sweep wins it wins past the deadline of a hold outside the trash, although most of
      its compare-and-sets do not look at the clock: a stay in the trash gives back exactly its time. */
  lemma SweepWinsPastDeadline(w: World, steps: seq<Step>, last: Step)
    requires Start(w) && Wins(Exec(w, steps), last) && last.task.actor == Sweep
    ensures Expired(Exec(w, steps))
  {
    SweepNeedsExpiry(w, steps);
    assert SweepActs(Exec(w, steps));
    WonResolves(Exec(w, steps).hold, last.task.call, Exec(w, steps).now, last.jobId);
    ExpiryIsFinal(w, steps);
  }
}
