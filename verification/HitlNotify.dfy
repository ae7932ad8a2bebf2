/** The approval-notification job: one execution of its worker, and whole lives of the job under the
    queue's retry rules. Times are whole seconds. */
module HitlNotify {
  import opened GoStrings

  const MAX_ATTEMPTS := 6
  const OUTAGE_SNOOZE := 300

  /** The held message with what the worker reads of its agent; `gone` when either no longer exists. */
  datatype Row = Row(gone: bool, pending: bool, expiresAt: Option<int>, notified: bool, suppressed: bool)

  datatype Delivery = Delivered | Permanent | Outage | Transient

  /** Where an execution is cut off, if it is. */
  datatype Crash = NoCrash | BeforeSend | AfterSend | AfterMark

  /** How the lookups and effects of one execution turn out. */
  datatype Luck = Luck(loadFails: bool, delivery: Delivery, markFails: bool, crash: Crash)

  datatype Result = Finished | Cancelled | Snoozed | Failed

  /** The guards pass: the email goes to the deliverer. */
  predicate Attempts(row: Row, now: int) {
    && !row.gone && row.pending && !row.notified && !row.suppressed
    && !(row.expiresAt.Some? && row.expiresAt.value < now)
  }

  predicate Sends(row: Row, now: int, luck: Luck) {
    !luck.loadFails && Attempts(row, now) && luck.delivery == Delivered && luck.crash != BeforeSend
  }

  predicate Marks(row: Row, now: int, luck: Luck) {
    Sends(row, now, luck) && !luck.markFails && luck.crash != AfterSend
  }

  /** The answer of an execution that is not cut off. */
  function WorkResult(row: Row, now: int, luck: Luck): Result {
    if luck.loadFails then Failed
    else if !Attempts(row, now) then Finished
    else
      match luck.delivery
      case Delivered => Finished
      case Permanent => Cancelled
      case Outage => Snoozed
      case Transient => Failed
  }

  /** Exactly what each execution answers: a retry for a lookup or a passing failure, a snooze for an outage,
      an end for everything else; and only a pending, unexpired, unnotified hold of an agent that wants to be
      told is worth the attempt, until the deadline itself. */
  lemma ResultMeans(row: Row, now: int, luck: Luck)
    ensures var worthIt := !row.gone && row.pending && !row.notified && !row.suppressed
        && (row.expiresAt.None? || now <= row.expiresAt.value);
      var r := WorkResult(row, now, luck);
      && (r == Failed <==> luck.loadFails || (worthIt && luck.delivery == Transient))
      && (r == Snoozed <==> !luck.loadFails && worthIt && luck.delivery == Outage)
      && (r == Cancelled <==> !luck.loadFails && worthIt && luck.delivery == Permanent)
      && (Sends(row, now, luck) ==> worthIt && luck.delivery == Delivered)
      && (luck.crash == NoCrash ==>
           (Sends(row, now, luck) <==> !luck.loadFails && worthIt && luck.delivery == Delivered))
      && (luck.crash == BeforeSend ==> !Sends(row, now, luck))
      && (Marks(row, now, luck) <==> Sends(row, now, luck) && !luck.markFails && luck.crash != AfterSend)
  {
  }

  class NotifyRow {
    var row: Row
    var sent: nat

    constructor (row: Row)
      ensures this.row == row && sent == 0
    {
      this.row, sent := row, 0;
    }

    /** One undisturbed execution. */
    method Work(now: int, luck: Luck) returns (r: Result)
      requires luck.crash == NoCrash
      modifies this
      ensures r == WorkResult(old(row), now, luck)
      ensures sent == old(sent) + if Sends(old(row), now, luck) then 1 else 0
      ensures row == old(row).(notified := old(row).notified || Marks(old(row), now, luck))
    {
      if luck.loadFails {
        return Failed;
      }
      if row.gone {
        return Finished;
      }
      if !row.pending {
        return Finished;
      }
      if row.expiresAt.Some? && row.expiresAt.value < now {
        return Finished;
      }
      if row.notified {
        return Finished;
      }
      if row.suppressed {
        return Finished;
      }
      if luck.delivery == Delivered {
        sent := sent + 1;
        if !luck.markFails {
          row := row.(notified := true);
        }
        return Finished;
      }
      if luck.delivery == Permanent {
        return Cancelled;
      }
      if luck.delivery == Outage {
        return Snoozed;
      }
      r := Failed;
    }
  }

  // ---- The life of a job ----

  /** `spent` counts the attempts used up, `notBefore` the earliest next execution. */
  datatype Job = Job(done: bool, spent: nat, notBefore: int, row: Row, emails: nat)

  datatype Step =
    | Execute(at: int, luck: Luck)
    /** Everything about the row but the stamp may change between executions. */
    | Change(row: Row)

  /** The queue may run the job at `at`. */
  predicate Runs(j: Job, s: Step) { s.Execute? && !j.done && s.at >= j.notBefore }

  /** An error, or an execution cut off, spends an attempt, and the last one discards the job; a snooze
      spends none. */
  function AfterExecution(j: Job, at: int, luck: Luck): Job {
    var r := j.(row := j.row.(notified := j.row.notified || Marks(j.row, at, luck)),
                emails := j.emails + if Sends(j.row, at, luck) then 1 else 0);
    if luck.crash != NoCrash || WorkResult(j.row, at, luck) == Failed
    then r.(spent := j.spent + 1, done := j.spent + 1 >= MAX_ATTEMPTS, notBefore := at)
    else if WorkResult(j.row, at, luck) == Snoozed then r.(notBefore := at + OUTAGE_SNOOZE)
    else r.(done := true)
  }

  function Next(j: Job, s: Step): Job {
    match s
    case Execute(at, luck) => if Runs(j, s) then AfterExecution(j, at, luck) else j
    case Change(row) => j.(row := row.(notified := j.row.notified))
  }

  function Exec(j: Job, steps: seq<Step>): Job
    decreases |steps|
  {
    if steps == [] then j else Exec(Next(j, steps[0]), steps[1..])
  }

  function Executions(j: Job, steps: seq<Step>): nat
    decreases |steps|
  {
    if steps == [] then 0 else (if Runs(j, steps[0]) then 1 else 0) + Executions(Next(j, steps[0]), steps[1..])
  }

  /** What an execution leaves of the job: an outage puts it off by five minutes and spends nothing, a failure or a
      crash spends one of six attempts, and everything else ends it. */
  lemma AfterMeans(j: Job, at: int, luck: Luck)
    ensures var k := AfterExecution(j, at, luck);
      var r := WorkResult(j.row, at, luck);
      && (luck.crash == NoCrash && r == Snoozed ==>
           k.done == j.done && k.spent == j.spent && k.notBefore == at + 300)
      && (luck.crash != NoCrash || r == Failed ==>
           k.spent == j.spent + 1 && (k.done <==> k.spent >= 6) && k.notBefore == at)
      && (luck.crash == NoCrash && (r == Finished || r == Cancelled) ==> k.done && k.spent == j.spent)
      && k.emails == j.emails + (if Sends(j.row, at, luck) then 1 else 0)
      && k.row == j.row.(notified := j.row.notified || Marks(j.row, at, luck))
  {
  }

  // ---- It finishes ----

  /** Every version of the row expires by `deadline`. */
  predicate ExpiresBy(row: Row, deadline: int) { row.expiresAt.Some? && row.expiresAt.value <= deadline }

  predicate AllExpireBy(steps: seq<Step>, deadline: int) {
    forall i :: 0 <= i < |steps| && steps[i].Change? ==> ExpiresBy(steps[i].row, deadline)
  }

  function Max(a: int, b: int): int { if a > b then a else b }

  /** Snoozes that still fit before the deadline. */
  function SnoozesLeft(notBefore: int, deadline: int): nat {
    if notBefore > deadline then 0 else (deadline - notBefore) / OUTAGE_SNOOZE + 1
  }

  /** What every execution brings down: attempts and snoozes left, and one last execution that ends it. */
  function Fuel(j: Job, deadline: int): nat
    requires j.spent <= MAX_ATTEMPTS
  {
    if j.done then 0 else Max(MAX_ATTEMPTS - j.spent, 1) + SnoozesLeft(j.notBefore, deadline)
  }

  lemma SnoozeUsesOne(notBefore: int, at: int, deadline: int)
    requires notBefore <= at <= deadline
    ensures SnoozesLeft(at + OUTAGE_SNOOZE, deadline) < SnoozesLeft(notBefore, deadline)
  {
    var d, e := deadline - notBefore, deadline - at;
    assert e / OUTAGE_SNOOZE <= d / OUTAGE_SNOOZE;
    assert (e - OUTAGE_SNOOZE) / OUTAGE_SNOOZE == e / OUTAGE_SNOOZE - 1;
  }

  lemma WaitingUsesNone(notBefore: int, at: int, deadline: int)
    requires notBefore <= at
    ensures SnoozesLeft(at, deadline) <= SnoozesLeft(notBefore, deadline)
  {
    if at <= deadline {
      assert (deadline - at) / OUTAGE_SNOOZE <= (deadline - notBefore) / OUTAGE_SNOOZE;
    }
  }

  lemma ExecutionUsesFuel(j: Job, at: int, luck: Luck, deadline: int)
    requires !j.done && j.spent < MAX_ATTEMPTS && at >= j.notBefore && ExpiresBy(j.row, deadline)
    ensures AfterExecution(j, at, luck).spent <= MAX_ATTEMPTS
    ensures Fuel(AfterExecution(j, at, luck), deadline) < Fuel(j, deadline)
    ensures AfterExecution(j, at, luck).done || AfterExecution(j, at, luck).spent < MAX_ATTEMPTS
  {
    WaitingUsesNone(j.notBefore, at, deadline);
    if at <= deadline {
      SnoozeUsesOne(j.notBefore, at, deadline);
    }
  }

  /** A job whose hold expires is executed at most as often as the attempt cap allows plus the snoozes
      that fit before the deadline: in every life, whatever happens to the row and wherever it crashes. */
  lemma {:induction false} ExecutionsAreBounded(j: Job, steps: seq<Step>, deadline: int)
    requires j.done || j.spent < MAX_ATTEMPTS
    requires j.spent <= MAX_ATTEMPTS && ExpiresBy(j.row, deadline) && AllExpireBy(steps, deadline)
    ensures Executions(j, steps) <= Fuel(j, deadline)
    decreases |steps|
  {
    if steps != [] {
      var k := Next(j, steps[0]);
      if Runs(j, steps[0]) {
        ExecutionUsesFuel(j, steps[0].at, steps[0].luck, deadline);
      }
      ExecutionsAreBounded(k, steps[1..], deadline);
    }
  }

  predicate Fresh(j: Job) { !j.done && j.spent == 0 && !j.row.notified && j.emails == 0 }

  /** From the start: six executions, and one per started snooze interval of the remaining hold time. */
  lemma NewJobBound(j: Job, steps: seq<Step>, deadline: int)
    requires Fresh(j) && ExpiresBy(j.row, deadline) && AllExpireBy(steps, deadline) && j.notBefore <= deadline
    ensures Executions(j, steps) <= 6 + (deadline - j.notBefore) / 300 + 1
  {
    ExecutionsAreBounded(j, steps, deadline);
  }

  function Outages(from: int, n: nat): seq<Step>
    decreases n
  {
    if n == 0 then [] else [Execute(from, Luck(false, Outage, false, NoCrash))] + Outages(from + OUTAGE_SNOOZE, n - 1)
  }

  /** A hold without an expiry time has no bound: with the relay down for good the job runs any number
      of times, and no attempt is ever spent. */
  lemma {:induction false} NoExpiryNoBound(j: Job, n: nat)
    requires !j.done && !j.row.gone && j.row.pending && !j.row.notified && !j.row.suppressed && j.row.expiresAt == None
    ensures Executions(j, Outages(j.notBefore, n)) == n && !Exec(j, Outages(j.notBefore, n)).done
    ensures Exec(j, Outages(j.notBefore, n)).spent == j.spent
    decreases n
  {
    if n > 0 {
      var steps := Outages(j.notBefore, n);
      assert steps[1..] == Outages(j.notBefore + OUTAGE_SNOOZE, n - 1);
      NoExpiryNoBound(Next(j, steps[0]), n - 1);
    }
  }

  /** The row stays as it is but for the stamp. */
  predicate Unchanged(steps: seq<Step>) { forall i :: 0 <= i < |steps| ==> steps[i].Execute? }

  ghost predicate BoundsRuns(j: Job, bound: nat) {
    forall steps :: Unchanged(steps) ==> Executions(j, steps) <= bound
  }

  /** A guard of the worker ends the job whenever the row can be loaded. */
  predicate Pointless(row: Row) { row.gone || !row.pending || row.suppressed }

  lemma {:induction false} PointlessEnds(j: Job, steps: seq<Step>)
    requires Unchanged(steps) && Pointless(j.row) && (j.done || j.spent < MAX_ATTEMPTS)
    ensures Executions(j, steps) <= if j.done then 0 else MAX_ATTEMPTS - j.spent
    decreases |steps|
  {
    if steps != [] {
      PointlessEnds(Next(j, steps[0]), steps[1..]);
    }
  }

  lemma OutagesUnchanged(from: int, n: nat)
    ensures Unchanged(Outages(from, n))
    decreases n
  {
    if n > 0 {
      OutagesUnchanged(from + OUTAGE_SNOOZE, n - 1);
    }
  }

  /** While its row does not change, a new job always finishes within some number of executions exactly
      when the hold has an expiry time or there is nothing to notify about. */
  lemma FinishesIff(j: Job)
    requires Fresh(j)
    ensures (exists bound: nat :: BoundsRuns(j, bound)) <==> j.row.expiresAt.Some? || Pointless(j.row)
  {
    if j.row.expiresAt.Some? {
      var deadline := j.row.expiresAt.value;
      forall steps | Unchanged(steps) ensures Executions(j, steps) <= Fuel(j, deadline) {
        ExecutionsAreBounded(j, steps, deadline);
      }
      assert BoundsRuns(j, Fuel(j, deadline));
    } else if Pointless(j.row) {
      forall steps | Unchanged(steps) ensures Executions(j, steps) <= MAX_ATTEMPTS {
        PointlessEnds(j, steps);
      }
      assert BoundsRuns(j, MAX_ATTEMPTS);
    } else {
      forall bound: nat ensures !BoundsRuns(j, bound) {
        NoExpiryNoBound(j, bound + 1);
        OutagesUnchanged(j.notBefore, bound + 1);
      }
    }
  }

  // ---- One email ----

  /** Executions cut off between the send and the stamp. */
  function LostStamps(j: Job, steps: seq<Step>): nat
    decreases |steps|
  {
    if steps == [] then 0
    else
      var lost := if Runs(j, steps[0]) && LosesStamp(j.row, steps[0].at, steps[0].luck) then 1 else 0;
      lost + LostStamps(Next(j, steps[0]), steps[1..])
  }

  predicate LosesStamp(row: Row, at: int, luck: Luck) {
    Sends(row, at, luck) && luck.crash != NoCrash && !Marks(row, at, luck)
  }

  /** The reviewer gets at most one email more than there were executions cut off after sending and
      before stamping, so exactly one at most when there was none. A stamp that fails to store is not
      enough for a second email: the job ends there. */
  lemma {:induction false} EmailsAreBounded(j: Job, steps: seq<Step>)
    ensures Exec(j, steps).emails <= j.emails + LostStamps(j, steps) + if j.done || j.row.notified then 0 else 1
    decreases |steps|
  {
    if steps != [] {
      EmailsAreBounded(Next(j, steps[0]), steps[1..]);
    }
  }

  lemma OneEmail(j: Job, steps: seq<Step>)
    requires Fresh(j) && LostStamps(j, steps) == 0
    ensures Exec(j, steps).emails <= 1
  {
    EmailsAreBounded(j, steps);
  }

  /** Executions cut off after sending, and then one that is not. */
  function LostThenSent(at: int, lost: nat): seq<Step> {
    if lost == 0 then [Execute(at, Luck(false, Delivered, false, NoCrash))]
    else [Execute(at, Luck(false, Delivered, false, AfterSend))] + LostThenSent(at, lost - 1)
  }

  lemma {:induction false} LostThenSentEmails(j: Job, at: int, lost: nat)
    requires !j.done && j.spent + lost < MAX_ATTEMPTS && at >= j.notBefore && Attempts(j.row, at)
    ensures LostStamps(j, LostThenSent(at, lost)) == lost
    ensures Exec(j, LostThenSent(at, lost)).emails == j.emails + lost + 1
    decreases lost
  {
    var steps := LostThenSent(at, lost);
    if lost == 0 {
      assert steps[1..] == [];
    } else {
      assert steps[1..] == LostThenSent(at, lost - 1);
      LostThenSentEmails(Next(j, steps[0]), at, lost - 1);
    }
  }

  /** The bound is reached for every number of lost stamps below the cap: one is enough for two emails. */
  lemma EmailsRepeat(j: Job, lost: nat)
    requires Fresh(j) && Attempts(j.row, j.notBefore) && lost < MAX_ATTEMPTS
    ensures exists steps :: LostStamps(j, steps) == lost && Exec(j, steps).emails == lost + 1
  {
    LostThenSentEmails(j, j.notBefore, lost);
  }
}
