/** The webhook receiver's record of events: claimed, completed within a bounded window, or released. */
module EventDeduper {
  import opened GoStrings

  datatype ClaimResult = New | Processing | Processed

  datatype State = State(max: int, processing: set<string>, processed: set<string>, order: seq<string>)

  datatype Call = Claim(id: string) | Complete(id: string) | Release(id: string)

  /** The window lists exactly the processed ids, once each, and is bounded; an id in progress is not processed. */
  ghost predicate Inv(d: State) {
    && d.max > 0
    && d.processing !! d.processed
    && Distinct(d.order) && (forall x :: x in d.order <==> x in d.processed)
    && |d.order| <= d.max
  }

  function ClaimAnswer(d: State, id: string): ClaimResult {
    if id in d.processed then Processed else if id in d.processing then Processing else New
  }

  function Trim(d: State): State
    decreases |d.order|
  {
    if |d.order| <= d.max || d.order == [] then d
    else Trim(d.(order := d.order[1..], processed := d.processed - {d.order[0]}))
  }

  function Completed(d: State, id: string): State {
    var e := d.(processing := d.processing - {id});
    Trim(if id in d.processed then e else e.(processed := e.processed + {id}, order := e.order + [id]))
  }

  function Next(d: State, c: Call): State {
    match c
    case Claim(id) => if ClaimAnswer(d, id) == New then d.(processing := d.processing + {id}) else d
    case Complete(id) => Completed(d, id)
    case Release(id) => d.(processing := d.processing - {id})
  }

  class Deduper {
    const max: int
    var processing: set<string>
    var processed: set<string>
    var order: seq<string>

    function Now(): State
      reads this
    {
      State(max, processing, processed, order)
    }

    constructor (max: int)
      requires max > 0
      ensures Now() == State(max, {}, {}, []) && Inv(Now())
    {
      this.max, processing, processed, order := max, {}, {}, [];
    }

    method Claim(id: string) returns (r: ClaimResult)
      requires Inv(Now())
      modifies this
      ensures r == ClaimAnswer(old(Now()), id) && Now() == Next(old(Now()), Call.Claim(id)) && Inv(Now())
    {
      if id in processed {
        return Processed;
      }
      if id in processing {
        return Processing;
      }
      processing := processing + {id};
      r := New;
    }

    method Complete(id: string)
      requires Inv(Now())
      modifies this
      ensures Now() == Next(old(Now()), Call.Complete(id)) && Inv(Now())
    {
      InvStays(Now(), Call.Complete(id));
      ghost var after := Next(Now(), Call.Complete(id));
      processing := processing - {id};
      if id !in processed {
        processed := processed + {id};
        order := order + [id];
      }
      while |order| > max
        invariant max > 0 && Trim(Now()) == after
        decreases |order|
      {
        var expired := order[0];
        order := order[1..];
        processed := processed - {expired};
      }
    }

    method Release(id: string)
      requires Inv(Now())
      modifies this
      ensures Now() == Next(old(Now()), Call.Release(id)) && Inv(Now())
    {
      processing := processing - {id};
    }
  }

  /** `Create` answers as the constructor does: a window must be positive. */
  method Create(max: int) returns (d: Option<Deduper>)
    ensures d.Some? <==> max > 0
    ensures d.Some? ==> fresh(d.value) && d.value.Now() == State(max, {}, {}, [])
  {
    if max <= 0 {
      return None;
    }
    var made := new Deduper(max);
    d := Some(made);
  }

  // ---- The window ----

  /** A first completion appends its id, and drops the oldest one when the window was full. */
  lemma CompletedIs(d: State, id: string)
    requires Inv(d)
    ensures var e := Completed(d, id);
      && e.processing == d.processing - {id} && e.max == d.max
      && (id in d.processed ==> e.order == d.order && e.processed == d.processed)
      && (id !in d.processed && |d.order| < d.max ==> e.order == d.order + [id] && e.processed == d.processed + {id})
      && (id !in d.processed && |d.order| == d.max ==>
            e.order == d.order[1..] + [id] && e.processed == d.processed + {id} - {d.order[0]})
  {
    if id !in d.processed && |d.order| == d.max {
      var full := State(d.max, d.processing - {id}, d.processed + {id}, d.order + [id]);
      assert full.order[1..] == d.order[1..] + [id];
      var last := State(d.max, full.processing, full.processed - {d.order[0]}, d.order[1..] + [id]);
      assert Trim(full) == Trim(last) == last;
    }
  }

  /** Every call keeps the invariant. */
  lemma InvStays(d: State, c: Call)
    requires Inv(d)
    ensures Inv(Next(d, c))
  {
    if c.Complete? {
      CompletedIs(d, c.id);
      if c.id !in d.processed && |d.order| == d.max {
        assert d.order == [d.order[0]] + d.order[1..];
        assert d.order[0] !in d.order[1..];
        assert d.order[0] in d.processed;
      }
    }
  }

  // ---- Call sequences ----

  function Exec(d: State, calls: seq<Call>): State
    decreases |calls|
  {
    if calls == [] then d else Exec(Next(d, calls[0]), calls[1..])
  }

  /** The completions of a sequence that are the first for their id within the window. */
  function FirstTimes(d: State, calls: seq<Call>): nat
    decreases |calls|
  {
    if calls == [] then 0
    else
      var first := if calls[0].Complete? && calls[0].id !in d.processed then 1 else 0;
      first + FirstTimes(Next(d, calls[0]), calls[1..])
  }

  lemma {:induction false} InvAlways(d: State, calls: seq<Call>)
    requires Inv(d)
    ensures Inv(Exec(d, calls)) && Exec(d, calls).max == d.max
    decreases |calls|
  {
    if calls != [] {
      InvStays(d, calls[0]);
      if calls[0].Complete? {
        CompletedIs(d, calls[0].id);
      }
      InvAlways(Next(d, calls[0]), calls[1..]);
    }
  }

  /** What the next claim of an id answers after each call: a claim holds it, a completion remembers it, a
      release forgets the hold; and the last two leave no other id in progress that was not. */
  lemma AnswersAfter(d: State, id: string)
    requires Inv(d)
    ensures ClaimAnswer(Next(d, Claim(id)), id) == if id in d.processed then Processed else Processing
    ensures ClaimAnswer(Next(d, Complete(id)), id) == Processed
    ensures ClaimAnswer(Next(d, Release(id)), id) == if id in d.processed then Processed else New
    ensures forall x :: x != id ==>
      && ClaimAnswer(Next(d, Claim(id)), x) == ClaimAnswer(d, x)
      && ClaimAnswer(Next(d, Release(id)), x) == ClaimAnswer(d, x)
      && (ClaimAnswer(Next(d, Complete(id)), x) == ClaimAnswer(d, x)
          || (ClaimAnswer(d, x) == Processed && x == d.order[0] && |d.order| == d.max && id !in d.processed))
  {
    CompletedIs(d, id);
  }

  /** An id at position `p` of the window stays processed until as many first completions as remain
      between it and the size of the window. */
  lemma {:induction false} StaysProcessed(d: State, p: nat, calls: seq<Call>)
    requires Inv(d) && p < |d.order| && |d.order| - 1 - p + FirstTimes(d, calls) < d.max
    ensures d.order[p] in Exec(d, calls).processed
    decreases |calls|
  {
    var id := d.order[p];
    if calls == [] {
      assert id in d.order;
    } else {
      var c, e := calls[0], Next(d, calls[0]);
      InvStays(d, c);
      if c.Complete? {
        CompletedIs(d, c.id);
      }
      if c.Complete? && c.id !in d.processed && |d.order| == d.max {
        assert e.order[p - 1] == id;
        StaysProcessed(e, p - 1, calls[1..]);
      } else {
        assert e.order[p] == id;
        StaysProcessed(e, p, calls[1..]);
      }
    }
  }

  /** And no longer: that many first completions push it out. */
  lemma {:induction false} PushedOut(d: State, p: nat, calls: seq<Call>)
    requires Inv(d) && p < |d.order| && |d.order| - 1 - p + FirstTimes(d, calls) >= d.max
    ensures exists j :: 0 <= j <= |calls| && d.order[p] !in Exec(d, calls[..j]).processed
    decreases |calls|
  {
    var id, c, e := d.order[p], calls[0], Next(d, calls[0]);
    InvStays(d, c);
    if c.Complete? {
      CompletedIs(d, c.id);
    }
    var full := c.Complete? && c.id !in d.processed && |d.order| == d.max;
    if full && p == 0 {
      assert calls[..1] == [c] && Exec(d, [c]) == e;
    } else {
      var q := if full then p - 1 else p;
      assert e.order[q] == id;
      PushedOut(e, q, calls[1..]);
      var j :| 0 <= j <= |calls[1..]| && id !in Exec(e, calls[1..][..j]).processed;
      assert calls[..j + 1][0] == c && calls[..j + 1][1..] == calls[1..][..j];
    }
  }

  /** While nobody completes or releases an id in progress, it stays in progress and claims say so. */
  lemma {:induction false} StaysProcessing(d: State, id: string, calls: seq<Call>)
    requires Inv(d) && id in d.processing && Complete(id) !in calls && Release(id) !in calls
    ensures ClaimAnswer(Exec(d, calls), id) == Processing
    decreases |calls|
  {
    if calls != [] {
      assert calls[0] in calls;
      InvStays(d, calls[0]);
      if calls[0].Complete? {
        CompletedIs(d, calls[0].id);
      }
      forall c | c in calls[1..] ensures c in calls {}
      StaysProcessing(Next(d, calls[0]), id, calls[1..]);
    }
  }

  lemma {:induction false} ExecSplit(d: State, a: seq<Call>, b: seq<Call>)
    ensures Exec(d, a + b) == Exec(Exec(d, a), b)
    decreases |a|
  {
    if a == [] {
      assert a + b == b;
    } else {
      assert (a + b)[1..] == a[1..] + b;
      ExecSplit(Next(d, a[0]), a[1..], b);
    }
  }

  lemma SplitAt(d: State, calls: seq<Call>, k: nat)
    requires k < |calls|
    ensures Exec(d, calls[..k + 1]) == Next(Exec(d, calls[..k]), calls[k])
    ensures Exec(d, calls) == Exec(Exec(d, calls[..k + 1]), calls[k + 1..])
  {
    var c := calls[k];
    assert calls[..k + 1] == calls[..k] + [c];
    ExecSplit(d, calls[..k], [c]);
    assert Exec(Exec(d, calls[..k]), [c]) == Exec(Next(Exec(d, calls[..k]), c), [c][1..]);
    assert calls == calls[..k + 1] + calls[k + 1..];
    ExecSplit(d, calls[..k + 1], calls[k + 1..]);
  }

  lemma {:induction false} FirstOf(calls: seq<Call>, c: Call) returns (k: nat)
    requires c in calls
    ensures k < |calls| && calls[k] == c && c !in calls[..k]
  {
    k := 0;
    while calls[k] != c
      invariant k < |calls| && c in calls[k..] && c !in calls[..k]
      decreases |calls| - k
    {
      assert c in calls[k + 1..] by {
        var j :| k <= j < |calls| && calls[j] == c;
        assert calls[k + 1..][j - k - 1] == c;
      }
      k := k + 1;
    }
  }

  /** Position `k` of a sequence completes the id, and at least a whole window of first completions follows. */
  predicate OutOfWindow(d: State, id: string, calls: seq<Call>, k: nat)
  {
    k < |calls| && calls[k] == Complete(id) && FirstTimes(Exec(d, calls[..k + 1]), calls[k + 1..]) >= d.max
  }

  /** Two claims of one id can both be told it is new only if in between the id was released, or it was
      completed and then at least `max` other completions pushed it out of the window. */
  lemma NewAgain(d: State, id: string, calls: seq<Call>)
    requires Inv(d) && ClaimAnswer(d, id) == New
    requires ClaimAnswer(Exec(Next(d, Claim(id)), calls), id) == New
    ensures Release(id) in calls || exists k :: OutOfWindow(Next(d, Claim(id)), id, calls, k)
  {
    var e := Next(d, Claim(id));
    InvStays(d, Claim(id));
    if Release(id) !in calls {
      if Complete(id) !in calls {
        StaysProcessing(e, id, calls);
        assert false;
      }
      var k := FirstOf(calls, Complete(id));
      var before, after := calls[..k], calls[k + 1..];
      forall c | c in before ensures c in calls {}
      StaysProcessing(e, id, before);
      InvAlways(e, before);
      var f := Exec(e, before);
      CompletedIs(f, id);
      InvStays(f, Complete(id));
      var g := Next(f, Complete(id));
      SplitAt(e, calls, k);
      assert Exec(e, calls[..k + 1]) == g && Exec(e, calls) == Exec(g, after);
      if FirstTimes(g, after) < e.max {
        assert g.order[|g.order| - 1] == id;
        StaysProcessed(g, |g.order| - 1, after);
        assert false;
      }
      assert OutOfWindow(e, id, calls, k);
    }
  }
}
