/** Accepting a send under an idempotency key: claims, the accept transaction, and every way a
    request can end, interleaved over one key. */
module QueueAccept {
  import opened GoStrings
  import opened IdempotencyKey

  /** What a send turns into: queued for the provider, delivered locally, or held for review. */
  datatype Kind = Accepted | Local | Held

  datatype MessageRow = MessageRow(id: nat, kind: Kind, sendJobId: Option<nat>)

  datatype SendJob = SendJob(id: nat, messageId: nat)

  datatype Phase =
    | Running(hash: string, since: int)
    | Committed(hash: string, since: int, kind: Kind, messageId: nat)

  datatype World = World(
    key: KeyRow<Reply>, messages: seq<MessageRow>, jobs: seq<SendJob>, now: int, active: map<int, Phase>)

  datatype Step =
    | Advance(to: int)
    | Arrive(request: int, hash: string)
    /** An error before the side effect, a transaction that rolled back, or a panic: the claim is released. */
    | Abort(request: int)
    | Crash(request: int)
    | Commit(request: int, kind: Kind)
    | Finish(request: int)

  /** What the reply to a send says. */
  datatype Reply = Reply(code: int, kind: Kind, messageId: nat)

  function ReplyTo(kind: Kind, messageId: nat): Reply { Reply(if kind == Local then 200 else 202, kind, messageId) }

  // ---- The accept transaction ----

  /** Message, job, stamped job id and cached reply commit together. A held draft's reply is not part
      of its transaction. */
  function Accept(key: KeyRow<Reply>, messages: seq<MessageRow>, jobs: seq<SendJob>, kind: Kind)
    : (KeyRow<Reply>, seq<MessageRow>, seq<SendJob>)
  {
    var id := |messages|;
    match kind
    case Accepted =>
      var row, job := MessageRow(id, kind, Some(|jobs|)), SendJob(|jobs|, id);
      (CompletedWith(key, ReplyTo(kind, id)), messages + [row], jobs + [job])
    case Local => (CompletedWith(key, ReplyTo(kind, id)), messages + [MessageRow(id, kind, None)], jobs)
    case Held => (key, messages + [MessageRow(id, kind, None)], jobs)
  }

  /** Where a transaction may fail: at one of its statements, or at commit. */
  datatype Failure = NoFailure | AtInsert | AtEnqueue | AtStamp | AtComplete | AtCommit

  class Database {
    var key: KeyRow<Reply>
    var messages: seq<MessageRow>
    var jobs: seq<SendJob>

    constructor ()
      ensures key == Absent && messages == [] && jobs == []
    {
      key, messages, jobs := Absent, [], [];
    }

    /** The queue-first accept: whatever fails, nothing of it stays behind. */
    method AcceptTx(failure: Failure) returns (accepted: Option<nat>)
      modifies this
      ensures accepted == if failure.NoFailure? then Some(|old(messages)|) else None
      ensures (key, messages, jobs) ==
        if failure.NoFailure? then Accept(old(key), old(messages), old(jobs), Accepted)
        else (old(key), old(messages), old(jobs))
    {
      var before := (key, messages, jobs);
      accepted := None;
      if failure.AtInsert? {
        return;
      }
      var id := |messages|;
      messages := messages + [MessageRow(id, Accepted, None)];
      if failure.AtEnqueue? {
        key, messages, jobs := before.0, before.1, before.2;
        return;
      }
      var jobId := |jobs|;
      jobs := jobs + [SendJob(jobId, id)];
      if failure.AtStamp? {
        key, messages, jobs := before.0, before.1, before.2;
        return;
      }
      messages := messages[id := messages[id].(sendJobId := Some(jobId))];
      if failure.AtComplete? {
        key, messages, jobs := before.0, before.1, before.2;
        return;
      }
      assert messages == before.1 + [MessageRow(id, Accepted, Some(jobId))];
      if key.InProgress? {
        key := Completed(key.hash, key.createdAt, ReplyTo(Accepted, id));
      }
      if failure.AtCommit? {
        key, messages, jobs := before.0, before.1, before.2;
        return;
      }
      accepted := Some(id);
    }
  }

  // ---- Steps ----

  function Next(w: World, s: Step): World {
    match s
    case Advance(to) => if to > w.now then w.(now := to) else w
    case Arrive(r, hash) =>
      if r in w.active then w
      else if ClaimOutcome(w.key, hash, w.now).Acquired?
      then w.(key := Claimed(w.key, hash, w.now), active := w.active[r := Running(hash, w.now)])
      else w
    case Abort(r) => if r in w.active then w.(key := Released(w.key), active := w.active - {r}) else w
    case Crash(r) => if r in w.active then w.(active := w.active - {r}) else w
    case Commit(r, kind) =>
      if r !in w.active || !w.active[r].Running? then w
      else
        var (key, messages, jobs) := Accept(w.key, w.messages, w.jobs, kind);
        w.(key := key, messages := messages, jobs := jobs,
           active := w.active[r := Committed(w.active[r].hash, w.active[r].since, kind, |w.messages|)])
    case Finish(r) =>
      if r !in w.active || !w.active[r].Committed? then w
      else w.(key := CompletedWith(w.key, ReplyTo(w.active[r].kind, w.active[r].messageId)), active := w.active - {r})
  }

  function Exec(w: World, steps: seq<Step>): World {
    if steps == [] then w else Next(Exec(w, steps[..|steps| - 1]), steps[|steps| - 1])
  }

  predicate Start(w: World) { w.key == Absent && w.messages == [] && w.jobs == [] && w.active == map[] }

  // ---- Jobs ----

  predicate RowMatches(ms: seq<MessageRow>, js: seq<SendJob>, i: nat)
    requires i < |ms|
  {
    && ms[i].id == i
    && (ms[i].kind == Accepted <==> ms[i].sendJobId.Some?)
    && (ms[i].sendJobId.Some? ==> ms[i].sendJobId.value < |js| && js[ms[i].sendJobId.value].messageId == i)
  }

  predicate JobMatches(ms: seq<MessageRow>, js: seq<SendJob>, j: nat)
    requires j < |js|
  {
    js[j].id == j && js[j].messageId < |ms| && ms[js[j].messageId].sendJobId == Some(j)
  }

  /** Message ids are the positions; each accepted row carries the id of its own job and no other row
      has one, and every job belongs to the accepted row that carries it. */
  predicate JobsMatch(ms: seq<MessageRow>, js: seq<SendJob>) {
    (forall i :: 0 <= i < |ms| ==> RowMatches(ms, js, i)) && forall j :: 0 <= j < |js| ==> JobMatches(ms, js, j)
  }

  lemma AcceptKeepsJobs(key: KeyRow<Reply>, ms: seq<MessageRow>, js: seq<SendJob>, kind: Kind)
    requires JobsMatch(ms, js)
    ensures var (_, ms', js') := Accept(key, ms, js, kind); JobsMatch(ms', js')
  {
    var (_, ms', js') := Accept(key, ms, js, kind);
    forall i | 0 <= i < |ms'| ensures RowMatches(ms', js', i) {
      assert i < |ms| ==> RowMatches(ms, js, i);
    }
    forall j | 0 <= j < |js'| ensures JobMatches(ms', js', j) {
      assert j < |js| ==> JobMatches(ms, js, j);
    }
  }

  /** No accepted row is ever without its job, nor a job without its row, whatever crashes. */
  lemma {:induction false} EveryAcceptedRowHasItsJob(w: World, steps: seq<Step>)
    requires Start(w)
    ensures JobsMatch(Exec(w, steps).messages, Exec(w, steps).jobs)
  {
    if steps != [] {
      var init, last := steps[..|steps| - 1], steps[|steps| - 1];
      EveryAcceptedRowHasItsJob(w, init);
      var v := Exec(w, init);
      if last.Commit? {
        AcceptKeepsJobs(v.key, v.messages, v.jobs, last.kind);
      }
    }
  }

  // ---- Replay ----

  /** A completed key keeps its reply in every continuation. */
  lemma {:induction false} CompletedStays(w: World, steps: seq<Step>)
    requires w.key.Completed?
    ensures Exec(w, steps).key == w.key
  {
    if steps != [] {
      CompletedStays(w, steps[..|steps| - 1]);
    }
  }

  // ---- What a reply says ----

  /** The reply names a message that exists, with its kind and the status code of that kind. */
  predicate Truthful(ms: seq<MessageRow>, r: Reply) {
    && r.messageId < |ms| && ms[r.messageId].id == r.messageId && ms[r.messageId].kind == r.kind
    && (r.code == 200 || r.code == 202) && (r.code == 200 <==> r.kind == Local)
  }

  /** What is stored and what is still to be stored tells of messages that exist. */
  ghost predicate AllTruthful(w: World) {
    && (forall i :: 0 <= i < |w.messages| ==> w.messages[i].id == i)
    && (w.key.Completed? ==> Truthful(w.messages, w.key.response))
    && forall r :: r in w.active && w.active[r].Committed? ==>
      w.active[r].messageId < |w.messages| && w.messages[w.active[r].messageId].kind == w.active[r].kind
  }

  lemma NextIsTruthful(w: World, s: Step)
    requires AllTruthful(w)
    ensures AllTruthful(Next(w, s)) && w.messages <= Next(w, s).messages
  {
  }

  /** In every run the reply a completed key replays names an existing row, with that row's kind and code. */
  lemma {:induction false} RepliesAreTruthful(w: World, steps: seq<Step>)
    requires Start(w)
    ensures AllTruthful(Exec(w, steps))
  {
    if steps != [] {
      RepliesAreTruthful(w, steps[..|steps| - 1]);
      NextIsTruthful(Exec(w, steps[..|steps| - 1]), steps[|steps| - 1]);
    }
  }

  lemma {:induction false} MessagesStay(w: World, steps: seq<Step>)
    ensures w.messages <= Exec(w, steps).messages
  {
    if steps != [] {
      MessagesStay(w, steps[..|steps| - 1]);
    }
  }

  /** The answer to a request is the reply about this row, or a refusal of another body. */
  predicate Replays(answer: Claim<Reply>, sameBody: bool, row: MessageRow) {
    if sameBody
    then answer.Replay? && answer.response.messageId == row.id && answer.response.kind == row.kind
      && answer.response.code == (match row.kind case Accepted => 202 case Local => 200 case Held => 202)
    else answer == Mismatch
  }

  /** Once a request has committed an accepted or local send while it still held the key, any later
      request, however the rest of the run goes, is told of the very row that commit appended if its
      body is the same and refused if it is not; it never runs again. */
  lemma RetriesReplay(w: World, r: int, kind: Kind, later: seq<Step>, hash: string)
    requires r in w.active && w.active[r].Running? && kind != Held
    requires w.key == InProgress(w.active[r].hash, w.active[r].since)
    ensures var committed := Next(w, Commit(r, kind));
      var row := committed.messages[|w.messages|];
      var v := Exec(committed, later);
      && |committed.messages| == |w.messages| + 1 && row.kind == kind && row.id == |w.messages|
      && |v.messages| > row.id && v.messages[row.id] == row
      && Replays(ClaimOutcome(v.key, hash, v.now), hash == w.active[r].hash, row)
  {
    CompletedStays(Next(w, Commit(r, kind)), later);
    MessagesStay(Next(w, Commit(r, kind)), later);
  }

  /** The same for a held draft, from the moment its reply is stored. */
  lemma HeldRetriesReplay(w: World, steps: seq<Step>, r: int, later: seq<Step>, hash: string)
    requires Start(w)
    requires var v := Exec(w, steps);
      r in v.active && v.active[r].Committed? && v.key == InProgress(v.active[r].hash, v.active[r].since)
    ensures var v := Exec(w, steps);
      var after := Exec(Next(v, Finish(r)), later);
      && v.active[r].messageId < |v.messages|
      && Replays(ClaimOutcome(after.key, hash, after.now), hash == v.active[r].hash, v.messages[v.active[r].messageId])
  {
    RepliesAreTruthful(w, steps);
    CompletedStays(Next(Exec(w, steps), Finish(r)), later);
  }

  // ---- At most one ----

  predicate InWindow(w: World, p: Phase) { w.now <= p.since + STALE_CLAIM_SECONDS }

  /** A holder of the key that still acts does so within some time of its claim. */
  predicate ActsWithin(w: World, s: Step, seconds: int) {
    (s.Abort? || s.Commit? || s.Finish?) && s.request in w.active ==> w.now <= w.active[s.request].since + seconds
  }

  predicate AllActWithin(w: World, steps: seq<Step>, seconds: int) {
    forall k :: 0 <= k < |steps| ==> ActsWithin(Exec(w, steps[..k]), steps[k], seconds)
  }

  /** Before the claim can be taken over. */
  predicate Timely(w: World, s: Step) { ActsWithin(w, s, STALE_CLAIM_SECONDS) }

  predicate AllTimely(w: World, steps: seq<Step>) { AllActWithin(w, steps, STALE_CLAIM_SECONDS) }

  lemma ExecSnoc(w: World, steps: seq<Step>, s: Step)
    ensures Exec(w, steps + [s]) == Next(Exec(w, steps), s)
  {
    assert (steps + [s])[..|steps|] == steps;
  }

  lemma ActSnoc(w: World, steps: seq<Step>, s: Step, seconds: int)
    requires AllActWithin(w, steps, seconds) && ActsWithin(Exec(w, steps), s, seconds)
    ensures AllActWithin(w, steps + [s], seconds)
  {
    var all := steps + [s];
    forall k | 0 <= k < |all| ensures ActsWithin(Exec(w, all[..k]), all[k], seconds) {
      assert all[..k] == if k < |steps| then steps[..k] else steps;
    }
  }

  lemma RunsSplit(w: World, steps: seq<Step>)
    requires steps != []
    ensures var init, last := steps[..|steps| - 1], steps[|steps| - 1];
      AllTimely(w, steps) ==> AllTimely(w, init) && Timely(Exec(w, init), last)
  {
    var init := steps[..|steps| - 1];
    forall k | 0 <= k < |init| ensures init[..k] == steps[..k] && init[k] == steps[k] {
    }
  }

  /** The holder of an unfinished claim. */
  predicate Holds(w: World, r: int) {
    r in w.active && InWindow(w, w.active[r]) && (w.active[r].Running? || w.active[r].kind == Held)
  }

  function Queued(ms: seq<MessageRow>): nat {
    if ms == [] then 0 else Queued(ms[..|ms| - 1]) + if ms[|ms| - 1].kind == Held then 0 else 1
  }

  lemma QueuedSnoc(ms: seq<MessageRow>, m: MessageRow)
    ensures Queued(ms + [m]) == Queued(ms) + if m.kind == Held then 0 else 1
  {
    assert (ms + [m])[..|ms|] == ms;
  }

  /** Whoever holds the key within the window owns the row, alone; and a queued message completed the key. */
  ghost predicate Exclusive(w: World) {
    && (forall r :: Holds(w, r) ==> w.key == InProgress(w.active[r].hash, w.active[r].since))
    && (forall r, q :: Holds(w, r) && Holds(w, q) ==> r == q)
    && (forall r :: r in w.active ==> w.active[r].since <= w.now)
    && (w.key.InProgress? ==> w.key.createdAt <= w.now)
    && (Queued(w.messages) > 0 ==> w.key.Completed?)
    && Queued(w.messages) <= 1
  }

  lemma CommitStaysExclusive(w: World, s: Step)
    requires Exclusive(w) && Timely(w, s) && s.Commit?
    ensures Exclusive(Next(w, s))
  {
    if s.request in w.active && w.active[s.request].Running? {
      assert Holds(w, s.request);
      var m := Next(w, s).messages[|w.messages|];
      QueuedSnoc(w.messages, m);
      forall r | Holds(Next(w, s), r) ensures r == s.request && s.kind == Held {
        if r != s.request {
          assert Holds(w, r);
        }
      }
    }
  }

  lemma HoldersBlock(w: World)
    requires Exclusive(w)
    ensures Claimable(w.key, w.now) ==> forall r :: !Holds(w, r)
  {
  }

  lemma ArriveStaysExclusive(w: World, s: Step)
    requires Exclusive(w) && s.Arrive?
    ensures Exclusive(Next(w, s))
  {
    HoldersBlock(w);
    if s.request !in w.active && Claimable(w.key, w.now) {
      forall r | Holds(Next(w, s), r) ensures r == s.request {
        if r != s.request {
          assert Holds(w, r);
        }
      }
    }
  }

  lemma OtherStaysExclusive(w: World, s: Step)
    requires Exclusive(w) && Done(w) && Timely(w, s) && !s.Commit? && !s.Arrive?
    ensures Exclusive(Next(w, s))
  {
    var v := Next(w, s);
    forall r | Holds(v, r) ensures Holds(w, r) {
    }
    if (s.Abort? || s.Finish?) && s.request in w.active {
      assert w.active[s.request].Running? || w.active[s.request].kind == Held ==> Holds(w, s.request);
    }
  }

  /** Committed accepted and local sends have completed the key, so their endings leave it alone. */
  predicate Done(w: World) {
    forall r :: r in w.active && w.active[r].Committed? && w.active[r].kind != Held ==> w.key.Completed?
  }

  lemma DoneStays(w: World, s: Step)
    requires Exclusive(w) && Done(w) && Timely(w, s)
    ensures Done(Next(w, s))
  {
    if s.Commit? && s.request in w.active && w.active[s.request].Running? {
      assert Holds(w, s.request);
    }
  }

  /** From any state in which claims are held properly, runs with holders on time keep it so. */
  lemma {:induction false} StaysExclusive(w: World, steps: seq<Step>)
    requires Exclusive(w) && Done(w) && AllTimely(w, steps)
    ensures Exclusive(Exec(w, steps)) && Done(Exec(w, steps))
  {
    if steps != [] {
      var init, last := steps[..|steps| - 1], steps[|steps| - 1];
      RunsSplit(w, steps);
      StaysExclusive(w, init);
      var v := Exec(w, init);
      DoneStays(v, last);
      if last.Commit? {
        CommitStaysExclusive(v, last);
      } else if last.Arrive? {
        ArriveStaysExclusive(v, last);
      } else {
        OtherStaysExclusive(v, last);
      }
    }
  }

  /** However often a request is retried under one key, and wherever the attempts crash, at most one
      message is queued or delivered, as long as no holder acts after its claim may have been taken over. */
  lemma AtMostOneSend(w: World, steps: seq<Step>)
    requires Start(w) && AllTimely(w, steps)
    ensures Queued(Exec(w, steps).messages) <= 1 && |Exec(w, steps).jobs| <= 1
  {
    StaysExclusive(w, steps);
    EveryAcceptedRowHasItsJob(w, steps);
    JobsAreQueued(Exec(w, steps));
  }

  lemma {:induction false} QueuedAtLeast(ms: seq<MessageRow>, i: nat, j: nat)
    requires i < |ms| && j < |ms| && ms[i].kind != Held && ms[j].kind != Held
    ensures Queued(ms) >= if i == j then 1 else 2
  {
    var n := |ms| - 1;
    if i < n && j < n {
      QueuedAtLeast(ms[..n], i, j);
    } else if i < n {
      QueuedAtLeast(ms[..n], i, i);
    } else if j < n {
      QueuedAtLeast(ms[..n], j, j);
    }
  }

  lemma JobsAreQueued(w: World)
    requires JobsMatch(w.messages, w.jobs) && Queued(w.messages) <= 1
    ensures |w.jobs| <= 1
  {
    if |w.jobs| > 1 {
      assert JobMatches(w.messages, w.jobs, 0) && JobMatches(w.messages, w.jobs, 1);
      assert RowMatches(w.messages, w.jobs, w.jobs[0].messageId) && RowMatches(w.messages, w.jobs, w.jobs[1].messageId);
      QueuedAtLeast(w.messages, w.jobs[0].messageId, w.jobs[1].messageId);
    }
  }
}
