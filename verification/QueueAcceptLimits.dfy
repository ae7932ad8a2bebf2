/** Where at-most-once ends on the accept path, exactly: holders slower than the stale window, and held
    drafts whose request is lost before its reply is stored. */
module QueueAcceptLimits {
  import opened GoStrings
  import opened IdempotencyKey
  import opened QueueAccept

  // ---- Slow holders ----

  /** A claim left for longer than the window goes to the next request. */
  lemma TakeOver(w: World, w1: World, w2: World, w3: World, hash: string)
    requires Start(w) && w1 == Next(w, Arrive(1, hash))
    requires w2 == Next(w1, Advance(w.now + STALE_CLAIM_SECONDS + 1)) && w3 == Next(w2, Arrive(2, hash))
    ensures w3.messages == [] && w3.jobs == [] && w3.now == w.now + STALE_CLAIM_SECONDS + 1
    ensures w3.active == map[1 := Running(hash, w.now), 2 := Running(hash, w3.now)]
  {
  }

  /** The run: a request claims the key and stalls, another takes the claim over and sends, and the
      first one sends too. */
  function TakenOver(w: World, hash: string): seq<Step> {
    [Arrive(1, hash)] + [Advance(w.now + STALE_CLAIM_SECONDS + 1)] + [Arrive(2, hash)]
  }

  function LateHolder(w: World, hash: string): seq<Step> {
    TakenOver(w, hash) + [Commit(2, Accepted)] + [Commit(1, Accepted)]
  }

  lemma TakenOverEnds(w: World, hash: string, seconds: int)
    requires Start(w)
    ensures var v := Exec(w, TakenOver(w, hash));
      && v.messages == [] && v.jobs == [] && v.now == w.now + STALE_CLAIM_SECONDS + 1
      && v.active == map[1 := Running(hash, w.now), 2 := Running(hash, v.now)]
    ensures AllActWithin(w, TakenOver(w, hash), seconds)
  {
    var late := w.now + STALE_CLAIM_SECONDS + 1;
    var s1 := [Arrive(1, hash)];
    var s2 := s1 + [Advance(late)];
    ExecSnoc(w, [], Arrive(1, hash));
    ActSnoc(w, [], Arrive(1, hash), seconds);
    assert [] + [Arrive(1, hash)] == s1;
    ExecSnoc(w, s1, Advance(late));
    ActSnoc(w, s1, Advance(late), seconds);
    ExecSnoc(w, s2, Arrive(2, hash));
    ActSnoc(w, s2, Arrive(2, hash), seconds);
    TakeOver(w, Exec(w, s1), Exec(w, s2), Exec(w, s2 + [Arrive(2, hash)]), hash);
  }

  /** A holder that is slower than the window by a second: its claim is taken over, and both send. */
  lemma LateHolderSendsTwice(w: World, hash: string)
    requires Start(w)
    ensures Exec(w, LateHolder(w, hash)).messages ==
      [MessageRow(0, Accepted, Some(0)), MessageRow(1, Accepted, Some(1))]
    ensures AllActWithin(w, LateHolder(w, hash), STALE_CLAIM_SECONDS + 1)
  {
    var s3 := TakenOver(w, hash);
    var s4 := s3 + [Commit(2, Accepted)];
    TakenOverEnds(w, hash, STALE_CLAIM_SECONDS + 1);
    ExecSnoc(w, s3, Commit(2, Accepted));
    ActSnoc(w, s3, Commit(2, Accepted), STALE_CLAIM_SECONDS + 1);
    ExecSnoc(w, s4, Commit(1, Accepted));
    ActSnoc(w, s4, Commit(1, Accepted), STALE_CLAIM_SECONDS + 1);
  }

  lemma ActSooner(w: World, steps: seq<Step>, seconds: int, more: int)
    requires AllActWithin(w, steps, seconds) && seconds <= more
    ensures AllActWithin(w, steps, more)
  {
    forall k | 0 <= k < |steps| ensures ActsWithin(Exec(w, steps[..k]), steps[k], more) {
      assert ActsWithin(Exec(w, steps[..k]), steps[k], seconds);
    }
  }

  lemma TwoQueued(ms: seq<MessageRow>)
    requires |ms| == 2 && ms[0].kind == Accepted && ms[1].kind == Accepted
    ensures Queued(ms) == 2
  {
    QueuedSnoc([], ms[0]);
    QueuedSnoc([ms[0]], ms[1]);
    assert ms == [ms[0]] + [ms[1]] && [ms[0]] == [] + [ms[0]];
  }

  /** When holders promise to act within so many seconds of their claim, all runs queue or deliver at
      most one message exactly when that is no more than the stale window. */
  lemma AtMostOneSendIff(w: World, seconds: int)
    requires Start(w)
    ensures seconds <= 300 <==>
      forall steps :: AllActWithin(w, steps, seconds) ==> Queued(Exec(w, steps).messages) <= 1
  {
    if seconds <= STALE_CLAIM_SECONDS {
      forall steps | AllActWithin(w, steps, seconds) ensures Queued(Exec(w, steps).messages) <= 1 {
        ActSooner(w, steps, seconds, STALE_CLAIM_SECONDS);
        AtMostOneSend(w, steps);
      }
    } else {
      LateHolderSendsTwice(w, "");
      ActSooner(w, LateHolder(w, ""), STALE_CLAIM_SECONDS + 1, seconds);
      TwoQueued(Exec(w, LateHolder(w, "")).messages);
    }
  }

  // ---- What the key row tells ----

  /** The stored reply is that of an accepted or a local send. */
  predicate SendReply(r: Reply) { r.kind != Held }

  predicate KeyTells(w: World) { w.key.Completed? ==> (SendReply(w.key.response) <==> Queued(w.messages) == 1) }

  lemma TellsStays(w: World, s: Step)
    requires Exclusive(w) && Done(w) && KeyTells(w) && Timely(w, s)
    ensures KeyTells(Next(w, s))
  {
    if s.Commit? && s.request in w.active && w.active[s.request].Running? {
      assert Holds(w, s.request);
      QueuedSnoc(w.messages, Next(w, s).messages[|w.messages|]);
    } else if s.Finish? && s.request in w.active && w.active[s.request].Committed? {
      assert w.active[s.request].kind == Held ==> Holds(w, s.request);
    }
  }

  lemma {:induction false} TimelyRunsTell(w: World, steps: seq<Step>)
    requires Start(w) && AllTimely(w, steps)
    ensures KeyTells(Exec(w, steps))
  {
    if steps != [] {
      var init := steps[..|steps| - 1];
      RunsSplit(w, steps);
      TimelyRunsTell(w, init);
      StaysExclusive(w, init);
      TellsStays(Exec(w, init), steps[|steps| - 1]);
    }
  }

  lemma CommitCounts(v: World, r: int, kind: Kind)
    requires Exclusive(v) && KeyTells(v) && kind != Held && r in v.active && v.active[r].Running?
    ensures var twice := Queued(Next(v, Commit(r, kind)).messages) > 1;
      && (twice <==> v.key.Completed? && SendReply(v.key.response))
      && (twice ==> !InWindow(v, v.active[r]))
  {
    var m := Next(v, Commit(r, kind)).messages[|v.messages|];
    QueuedSnoc(v.messages, m);
    assert InWindow(v, v.active[r]) ==> Holds(v, r);
  }

  /** After any run with holders on time, the next commit of a send is a second one exactly when the key
      row holds the reply of a send; and the request that does it is past the window. */
  lemma SecondSendIff(w: World, steps: seq<Step>, r: int, kind: Kind)
    requires Start(w) && AllTimely(w, steps) && kind != Held
    requires var v := Exec(w, steps); r in v.active && v.active[r].Running?
    ensures var v := Exec(w, steps);
      var twice := Queued(Next(v, Commit(r, kind)).messages) > 1;
      && (twice <==> v.key.Completed? && SendReply(v.key.response))
      && (twice ==> !InWindow(v, v.active[r]))
  {
    StaysExclusive(w, steps);
    TimelyRunsTell(w, steps);
    CommitCounts(Exec(w, steps), r, kind);
  }

  // ---- Held drafts ----

  /** A request stored a held draft and is still in time to store its reply. */
  predicate StoringReply(w: World, r: int) {
    r in w.active && w.active[r].Committed? && w.active[r].kind == Held && InWindow(w, w.active[r])
  }

  /** The step does not lose such a request: it stays, or it stores its reply. */
  ghost predicate Careful(w: World, s: Step) {
    forall r :: StoringReply(w, r) ==> StoringReply(Next(w, s), r) || s == Finish(r)
  }

  ghost predicate AllCareful(w: World, steps: seq<Step>) {
    forall k :: 0 <= k < |steps| ==> Careful(Exec(w, steps[..k]), steps[k])
  }

  ghost predicate SomeoneStores(w: World) { exists r :: StoringReply(w, r) }

  /** At most one message, and if there is one, the key knows it or its request is about to tell. */
  ghost predicate Single(w: World) {
    w.messages == [] || (|w.messages| == 1 && (w.key.Completed? || SomeoneStores(w)))
  }

  lemma StoringStays(w: World, s: Step, q: int)
    requires Exclusive(w) && StoringReply(w, q) && Timely(w, s) && Careful(w, s)
    ensures Next(w, s).messages == w.messages
    ensures Next(w, s).key.Completed? || StoringReply(Next(w, s), q)
  {
    assert Holds(w, q);
    if (s.Commit? || s.Abort?) && s.request in w.active && w.active[s.request].Running? {
      assert Holds(w, s.request);
      assert false;
    }
  }

  lemma CommitIsFirst(w: World, s: Step)
    requires Exclusive(w) && Timely(w, s) && s.Commit? && s.request in w.active && w.active[s.request].Running?
    requires w.messages == []
    ensures Single(Next(w, s))
  {
    assert Holds(w, s.request);
    assert s.kind == Held ==> StoringReply(Next(w, s), s.request);
  }

  lemma SingleStays(w: World, s: Step)
    requires Exclusive(w) && Done(w) && Single(w) && Timely(w, s) && Careful(w, s)
    ensures Single(Next(w, s))
  {
    if w.messages != [] && !w.key.Completed? {
      var q :| StoringReply(w, q);
      StoringStays(w, s, q);
    } else if s.Commit? && s.request in w.active && w.active[s.request].Running? {
      assert Holds(w, s.request);
      CommitIsFirst(w, s);
    }
  }

  lemma CarefulSplit(w: World, steps: seq<Step>)
    requires steps != [] && AllCareful(w, steps)
    ensures var init := steps[..|steps| - 1]; AllCareful(w, init) && Careful(Exec(w, init), steps[|steps| - 1])
  {
    var init := steps[..|steps| - 1];
    forall k | 0 <= k < |init| ensures Careful(Exec(w, init[..k]), init[k]) {
      assert init[..k] == steps[..k] && init[k] == steps[k];
    }
  }

  lemma {:induction false} SingleAlways(w: World, steps: seq<Step>)
    requires Exclusive(w) && Done(w) && Single(w) && AllTimely(w, steps) && AllCareful(w, steps)
    ensures Single(Exec(w, steps))
  {
    if steps != [] {
      RunsSplit(w, steps);
      CarefulSplit(w, steps);
      var init := steps[..|steps| - 1];
      SingleAlways(w, init);
      StaysExclusive(w, init);
      SingleStays(Exec(w, init), steps[|steps| - 1]);
    }
  }

  /** Held drafts, whose reply is stored only after their transaction, are single too when no request is
      lost or late between the two. */
  lemma AtMostOneMessage(w: World, steps: seq<Step>)
    requires Start(w) && AllTimely(w, steps) && AllCareful(w, steps)
    ensures |Exec(w, steps).messages| <= 1
  {
    SingleAlways(w, steps);
  }

  lemma {:induction false} FreshRequest(keys: set<int>) returns (r: int)
    ensures forall k :: k in keys ==> k < r
    decreases |keys|
  {
    if k :| k in keys {
      var q := FreshRequest(keys - {k});
      r := if k < q then q else k + 1;
      forall j | j in keys ensures j < r {
        assert j == k || j in keys - {k};
      }
    } else {
      r := 0;
    }
  }

  function AnotherDraft(w: World, r: int): seq<Step> {
    [Advance(w.now + STALE_CLAIM_SECONDS + 1)] + [Arrive(r, "")] + [Commit(r, Held)]
  }

  lemma CarefulSnoc(w: World, steps: seq<Step>, s: Step)
    requires AllCareful(w, steps) && Careful(Exec(w, steps), s)
    ensures AllCareful(w, steps + [s])
  {
    var all := steps + [s];
    forall k | 0 <= k < |all| ensures Careful(Exec(w, all[..k]), all[k]) {
      assert all[..k] == if k < |steps| then steps[..k] else steps;
    }
  }

  lemma SnocStep(w: World, steps: seq<Step>, s: Step, v: World)
    requires AllTimely(w, steps) && AllCareful(w, steps) && v == Exec(w, steps)
    requires Timely(v, s) && !SomeoneStores(v)
    ensures AllTimely(w, steps + [s]) && AllCareful(w, steps + [s]) && Exec(w, steps + [s]) == Next(v, s)
  {
    assert forall r :: !StoringReply(v, r);
    ExecSnoc(w, steps, s);
    ActSnoc(w, steps, s, STALE_CLAIM_SECONDS);
    CarefulSnoc(w, steps, s);
  }

  lemma NobodyStarts(w: World, s: Step)
    requires !SomeoneStores(w) && (s.Arrive? || (s.Advance? && s.to >= w.now))
    ensures !SomeoneStores(Next(w, s))
  {
    forall q ensures !StoringReply(Next(w, s), q) {
      assert !StoringReply(w, q);
    }
  }

  lemma TakesOver(w: World, to: int, r: int)
    requires !w.key.Completed? && (w.key.InProgress? ==> w.key.createdAt <= w.now)
    requires to == w.now + STALE_CLAIM_SECONDS + 1 && r !in w.active
    ensures var v := Next(Next(w, Advance(to)), Arrive(r, ""));
      && r in v.active && v.active[r] == Running("", v.now) && v.messages == w.messages
      && |Next(v, Commit(r, Held)).messages| == |w.messages| + 1
  {
  }

  lemma ThreeSteps(w: World, s: Step, t: Step, u: Step, v1: World, v2: World)
    requires v1 == Next(w, s) && v2 == Next(v1, t)
    requires !SomeoneStores(w) && !SomeoneStores(v1) && !SomeoneStores(v2)
    requires Timely(w, s) && Timely(v1, t) && Timely(v2, u)
    ensures var steps := [s] + [t] + [u]; AllTimely(w, steps) && AllCareful(w, steps) && Exec(w, steps) == Next(v2, u)
  {
    SnocStep(w, [], s, w);
    assert [] + [s] == [s];
    SnocStep(w, [s], t, v1);
    SnocStep(w, [s] + [t], u, v2);
  }

  /** With the key open and nobody about to tell, a later request holds a draft of its own. */
  lemma AnotherDraftIsHeld(w: World, r: int)
    requires Exclusive(w) && !w.key.Completed? && !SomeoneStores(w) && r !in w.active
    ensures var later := AnotherDraft(w, r);
      AllTimely(w, later) && AllCareful(w, later) && |Exec(w, later).messages| == |w.messages| + 1
  {
    var to := w.now + STALE_CLAIM_SECONDS + 1;
    var v1 := Next(w, Advance(to));
    var v2 := Next(v1, Arrive(r, ""));
    NobodyStarts(w, Advance(to));
    NobodyStarts(v1, Arrive(r, ""));
    TakesOver(w, to, r);
    ThreeSteps(w, Advance(to), Arrive(r, ""), Commit(r, Held), v1, v2);
  }

  /** Exactly when a second message is still possible, although every holder has been on time and nobody
      who stores a reply in time will be lost: when there are two already, or there is one, the key does
      not know it, and nobody is still in time to tell. */
  lemma SecondDraftIff(w: World, steps: seq<Step>)
    requires Start(w) && AllTimely(w, steps)
    ensures var v := Exec(w, steps);
      (exists later :: AllTimely(v, later) && AllCareful(v, later) && |Exec(v, later).messages| > 1) <==>
      |v.messages| > 1 || (|v.messages| == 1 && !v.key.Completed? && !SomeoneStores(v))
  {
    var v := Exec(w, steps);
    StaysExclusive(w, steps);
    if Single(v) {
      forall later | AllTimely(v, later) && AllCareful(v, later) ensures |Exec(v, later).messages| <= 1 {
        SingleAlways(v, later);
      }
    } else if |v.messages| > 1 {
      assert AllTimely(v, []) && AllCareful(v, []) && Exec(v, []) == v;
    } else {
      var r := FreshRequest(v.active.Keys);
      AnotherDraftIsHeld(v, r);
    }
  }

  function HeldDraft(hash: string): seq<Step> {
    [Arrive(1, hash)] + [Commit(1, Held)]
  }

  lemma LostReply(w: World, v1: World, v2: World, v3: World, hash: string)
    requires Start(w)
    requires v1 == Next(w, Arrive(1, hash)) && v2 == Next(v1, Commit(1, Held)) && v3 == Next(v2, Crash(1))
    ensures StoringReply(v2, 1) && Timely(v1, Commit(1, Held))
    ensures v3.active == map[] && |v3.messages| == 1 && !v3.key.Completed?
  {
  }

  lemma HeldDraftIsLost(w: World, hash: string)
    requires Start(w)
    ensures var lost := HeldDraft(hash) + [Crash(1)];
      && AllTimely(w, lost) && StoringReply(Exec(w, HeldDraft(hash)), 1)
      && Exec(w, lost).active == map[] && |Exec(w, lost).messages| == 1 && !Exec(w, lost).key.Completed?
  {
    var s1, v1 := [Arrive(1, hash)], Next(w, Arrive(1, hash));
    var v2 := Next(v1, Commit(1, Held));
    LostReply(w, v1, v2, Next(v2, Crash(1)), hash);
    ExecSnoc(w, [], Arrive(1, hash));
    ActSnoc(w, [], Arrive(1, hash), STALE_CLAIM_SECONDS);
    assert [] + [Arrive(1, hash)] == s1;
    ExecSnoc(w, s1, Commit(1, Held));
    ActSnoc(w, s1, Commit(1, Held), STALE_CLAIM_SECONDS);
    ExecSnoc(w, HeldDraft(hash), Crash(1));
    ActSnoc(w, HeldDraft(hash), Crash(1), STALE_CLAIM_SECONDS);
  }

  lemma DraftAgain(v: World)
    requires Exclusive(v) && v.active == map[] && |v.messages| == 1 && !v.key.Completed?
    ensures !SomeoneStores(v) && AllTimely(v, AnotherDraft(v, 2)) && |Exec(v, AnotherDraft(v, 2)).messages| == 2
  {
    AnotherDraftIsHeld(v, 2);
  }

  /** The reply of the draft is in time and is lost, the key does not know the draft, nobody is left to
      tell, and one more draft is held. */
  ghost predicate DraftedTwice(v: World, lost: World) {
    && StoringReply(v, 1) && lost == Next(v, Crash(1))
    && |lost.messages| == 1 && !lost.key.Completed? && !SomeoneStores(lost)
    && AllTimely(lost, AnotherDraft(lost, 2)) && |Exec(lost, AnotherDraft(lost, 2)).messages| == 2
  }

  /** A crash after a held draft is stored and before its reply is: a retry past the window holds a
      second draft, with every holder on time. */
  lemma HeldDraftTwice(w: World, hash: string)
    requires Start(w)
    ensures var lost := HeldDraft(hash) + [Crash(1)];
      AllTimely(w, lost) && DraftedTwice(Exec(w, HeldDraft(hash)), Exec(w, lost))
  {
    var lost := HeldDraft(hash) + [Crash(1)];
    HeldDraftIsLost(w, hash);
    ExecSnoc(w, HeldDraft(hash), Crash(1));
    StaysExclusive(w, lost);
    DraftAgain(Exec(w, lost));
  }
}
