/** The delivery-status lattice and the provenance-gated correction rule. */
module DeliveryStatus {

  /** `Unknown` is any stored text that is not one of the nine statuses, the
      empty text included. */
  datatype Status =
    | Accepted | Queued | Sending | Sent | Deferred | Delivered
    | Bounced | Complained | Failed
    | Unknown(text: string)
  {
    predicate Valid() { !Unknown? }

    predicate ProvesProviderAcceptance() {
      Sent? || Deferred? || Delivered? || Bounced? || Complained?
    }
  }

  const NoStatus := Unknown("")

  /** A status missing from the table ranks with the lowest. */
  function Rank(s: Status): nat {
    match s
    case Accepted => 0
    case Queued => 0
    case Sending => 1
    case Sent => 2
    case Deferred => 3
    case Delivered => 4
    case Failed => 5
    case Bounced => 6
    case Complained => 7
    case Unknown(_) => 0
  }

  function Merge(current: Status, incoming: Status): Status {
    if !incoming.Valid() then current
    else if Rank(incoming) > Rank(current) then incoming
    else current
  }

  datatype FailureSource = Unset | Local | Provider {
    predicate Correctable() { this != Provider }
  }

  function ResolveMessageRollup(current: Status, source: FailureSource, rollup: Status): Status {
    if current != Failed then rollup
    else if Rank(rollup) > Rank(Failed) then rollup
    else if source.Correctable() && rollup.ProvesProviderAcceptance() then rollup
    else Failed
  }

  // ---- What the lattice guarantees ----

  /** A status the provider can report about one recipient, or the `sent` the
      sender writes when the provider takes the message. */
  predicate Reportable(s: Status) { Rank(s) >= 2 }

  lemma RankInjective(a: Status, b: Status)
    requires Reportable(a) && Rank(a) == Rank(b)
    ensures a == b
  {
  }

  /** From every current status, known or not, `Merge` is a join: order and repetition are lost. */
  lemma MergeIsJoin(c: Status, a: Status, b: Status)
    ensures Merge(Merge(c, a), a) == Merge(c, a)
    ensures Rank(Merge(c, a)) >= Rank(c)
    ensures a.Valid() ==> Rank(Merge(c, a)) >= Rank(a)
    ensures Merge(Merge(c, a), b) == Merge(Merge(c, b), a)
    ensures Merge(Merge(c, a), b) == Merge(c, Merge(a, b))
  {
  }

  /** From an unknown current status only a status above the lowest rank is taken:
      the comparison is strict, so accepted and queued are ignored. */
  lemma MergeFromUnknown(text: string, incoming: Status)
    ensures Merge(Unknown(text), incoming) == incoming
      <==> (incoming.Valid() && incoming != Accepted && incoming != Queued) || incoming == Unknown(text)
  {
  }

  /** Exactly when a stored failure gives way to a rollup. */
  lemma FailureGivesWay(source: FailureSource, rollup: Status)
    ensures ResolveMessageRollup(Failed, source, rollup) != Failed
      <==> (rollup == Bounced || rollup == Complained
        || (source != Provider && (rollup == Sent || rollup == Deferred || rollup == Delivered)))
  {
  }

  // ---- The message rollup: worst recipient status ----

  /** The worst of a set of recipient statuses. Statuses of the lowest rank never
      win against the empty start value. */
  function Worst(s: set<Status>): Status {
    if Complained in s then Complained
    else if Bounced in s then Bounced
    else if Failed in s then Failed
    else if Delivered in s then Delivered
    else if Deferred in s then Deferred
    else if Sent in s then Sent
    else if Sending in s then Sending
    else NoStatus
  }

  lemma WorstStep(s: set<Status>, next: Status)
    ensures Worst(s + {next}) == Merge(Worst(s), next)
  {
  }

  /** The fold over recipient rows is the worst of them, whatever order the
      rows arrive in. */
  function FoldMerge(rows: seq<Status>): Status {
    if rows == [] then NoStatus else Merge(FoldMerge(rows[..|rows| - 1]), rows[|rows| - 1])
  }

  lemma {:induction false} RollupIsOrderFree(rows: seq<Status>)
    ensures FoldMerge(rows) == Worst(set s | s in rows)
  {
    if rows != [] {
      var init, last := rows[..|rows| - 1], rows[|rows| - 1];
      RollupIsOrderFree(init);
      WorstStep((set s | s in init), last);
      assert rows == init + [last];
      assert (set s | s in rows) == (set s | s in init) + {last};
    }
  }

  lemma WorstIsUpperBound(s: set<Status>, t: Status)
    requires t in s
    ensures Rank(t) <= Rank(Worst(s))
    ensures Reportable(t) ==> Worst(s) in s
  {
  }
}
