/** One idempotency key: its row, the four statements that touch it, and the guard around a handler. */
module IdempotencyKey {
  import opened GoStrings

  const STALE_CLAIM_SECONDS := 300

  /** What is stored is some `R`: a captured response, or what a reply says. */
  datatype KeyRow<R> =
    | Absent
    | InProgress(hash: string, createdAt: int)
    | Completed(hash: string, createdAt: int, response: R)

  datatype Claim<R> = Acquired | Replay(response: R) | Mismatch | InFlight

  predicate Claimable<R>(row: KeyRow<R>, now: int) {
    row.Absent? || (row.InProgress? && row.createdAt < now - STALE_CLAIM_SECONDS)
  }

  function ClaimOutcome<R>(row: KeyRow<R>, hash: string, now: int): Claim<R> {
    if Claimable(row, now) then Acquired
    else if row.InProgress? then InFlight
    else if row.Completed? && row.hash == hash then Replay(row.response)
    else Mismatch
  }

  function Claimed<R>(row: KeyRow<R>, hash: string, now: int): KeyRow<R> {
    if Claimable(row, now) then InProgress(hash, now) else row
  }

  /** Also inside the caller's transaction: nothing happens unless the claim is in progress. */
  function CompletedWith<R>(row: KeyRow<R>, response: R): KeyRow<R> {
    if row.InProgress? then Completed(row.hash, row.createdAt, response) else row
  }

  function Released<R>(row: KeyRow<R>): KeyRow<R> {
    if row.InProgress? then Absent else row
  }

  /** Exactly what a claim gets: the key when it is free or its claim is more than five minutes old, the stored
      reply for the same body, and a refusal otherwise; and only the first of these changes the row. */
  lemma ClaimMeans<R>(row: KeyRow<R>, hash: string, now: int)
    ensures var c := ClaimOutcome(row, hash, now);
      && (c.Acquired? <==> row == Absent || (row.InProgress? && now - row.createdAt > 300))
      && (c.InFlight? <==> row.InProgress? && now - row.createdAt <= 300)
      && (c.Replay? <==> row.Completed? && row.hash == hash)
      && (c.Mismatch? <==> row.Completed? && row.hash != hash)
      && (c.Replay? ==> c.response == row.response)
      && Claimed(row, hash, now) == (if c.Acquired? then InProgress(hash, now) else row)
  {
  }

  /** Only a claim in progress is completed or freed, and a completion keeps its body and age. */
  lemma CompletionMeans<R>(row: KeyRow<R>, response: R)
    ensures row.InProgress? ==>
      CompletedWith(row, response) == Completed(row.hash, row.createdAt, response) && Released(row) == Absent
    ensures !row.InProgress? ==> CompletedWith(row, response) == row && Released(row) == row
  {
  }

  class KeyStore<R> {
    var row: KeyRow<R>

    constructor ()
      ensures row == Absent
    {
      row := Absent;
    }

    /** The upsert, then a read to classify what stood in its way. */
    method Claim(hash: string, now: int) returns (c: Claim<R>)
      modifies this
      ensures c == ClaimOutcome(old(row), hash, now) && row == Claimed(old(row), hash, now)
    {
      if row.Absent? || (row.InProgress? && row.createdAt < now - STALE_CLAIM_SECONDS) {
        row := InProgress(hash, now);
        return Acquired;
      }
      if row.InProgress? {
        return InFlight;
      }
      if row.hash != hash {
        return Mismatch;
      }
      c := Replay(row.response);
    }

    method Complete(response: R)
      modifies this
      ensures row == CompletedWith(old(row), response)
    {
      if row.InProgress? {
        row := Completed(row.hash, row.createdAt, response);
      }
    }

    method Release()
      modifies this
      ensures row == Released(old(row))
    {
      if row.InProgress? {
        row := Absent;
      }
    }
  }

  // ---- The handler's response, captured ----

  datatype Response = Response(code: int, body: string)

  /** What a handler does to its response writer. */
  datatype WriterCall = WriteHeader(code: int) | Write(bytes: string) | MarkCommitted

  datatype Captured = Captured(statusCode: int, body: string, sideEffectCommitted: bool)

  function AfterCall(c: Captured, w: WriterCall): Captured {
    match w
    case WriteHeader(code) => if c.statusCode == 0 then c.(statusCode := code) else c
    case Write(bytes) => c.(statusCode := if c.statusCode == 0 then 200 else c.statusCode, body := c.body + bytes)
    case MarkCommitted => c.(sideEffectCommitted := true)
  }

  function AfterCalls(calls: seq<WriterCall>): Captured {
    if calls == [] then Captured(0, "", false)
    else AfterCall(AfterCalls(calls[..|calls| - 1]), calls[|calls| - 1])
  }

  lemma AfterCallsSnoc(before: Captured, calls: seq<WriterCall>, last: WriterCall, after: Captured)
    requires before == AfterCalls(calls) && after == AfterCall(before, last)
    ensures after == AfterCalls(calls + [last])
  {
    assert (calls + [last])[..|calls|] == calls;
  }

  predicate ShouldCacheResponse(statusCode: int, sideEffectCommitted: bool) {
    statusCode < 400 || sideEffectCommitted
  }

  class CapturingWriter {
    var statusCode: int
    var body: string
    var sideEffectCommitted: bool
    ghost var calls: seq<WriterCall>

    function Current(): Captured
      reads this
    {
      Captured(statusCode, body, sideEffectCommitted)
    }

    ghost predicate Valid()
      reads this
    {
      Current() == AfterCalls(calls)
    }

    constructor ()
      ensures Valid() && calls == []
    {
      statusCode, body, sideEffectCommitted, calls := 0, "", false, [];
    }

    method WriteHeader(code: int)
      requires Valid()
      modifies this
      ensures Valid() && calls == old(calls) + [WriterCall.WriteHeader(code)]
    {
      ghost var before := Current();
      if statusCode == 0 {
        statusCode := code;
      }
      AfterCallsSnoc(before, calls, WriterCall.WriteHeader(code), Current());
      calls := calls + [WriterCall.WriteHeader(code)];
    }

    method Write(bytes: string)
      requires Valid()
      modifies this
      ensures Valid() && calls == old(calls) + [WriterCall.Write(bytes)]
    {
      ghost var before := Current();
      if statusCode == 0 {
        statusCode := 200;
      }
      body := body + bytes;
      AfterCallsSnoc(before, calls, WriterCall.Write(bytes), Current());
      calls := calls + [WriterCall.Write(bytes)];
    }

    method MarkSideEffectCommitted()
      requires Valid()
      modifies this
      ensures Valid() && calls == old(calls) + [MarkCommitted]
    {
      ghost var before := Current();
      sideEffectCommitted := true;
      AfterCallsSnoc(before, calls, MarkCommitted, Current());
      calls := calls + [MarkCommitted];
    }

    /** The deferred end of a guarded handler. */
    method Finalize(store: KeyStore<Response>)
      requires Valid()
      modifies store
      ensures store.row ==
        if CachesWhen(calls) then CompletedWith(old(store.row), Response(StatusOf(calls), BodyOf(calls)))
        else Released(old(store.row))
    {
      MeaningOfCalls(calls);
      var code := if statusCode == 0 then 200 else statusCode;
      if ShouldCacheResponse(code, sideEffectCommitted) {
        store.Complete(Response(code, body));
      } else {
        store.Release();
      }
    }
  }

  // ---- The captured response, read off the calls ----

  /** The status is the first one that says something: an explicit non-zero header or a first write. */
  function StatusOf(calls: seq<WriterCall>): int {
    if calls == [] then 200
    else if calls[0].WriteHeader? && calls[0].code != 0 then calls[0].code
    else if calls[0].Write? then 200
    else StatusOf(calls[1..])
  }

  function Written(w: WriterCall): string { if w.Write? then w.bytes else "" }

  function BodyOf(calls: seq<WriterCall>): string {
    if calls == [] then "" else Written(calls[0]) + BodyOf(calls[1..])
  }

  predicate CachesWhen(calls: seq<WriterCall>) {
    StatusOf(calls) < 400 || MarkCommitted in calls
  }

  lemma AllSilentCons(calls: seq<WriterCall>)
    requires calls != []
    ensures AllSilent(calls) <==> Silent(calls[0]) && AllSilent(calls[1..])
  {
    if Silent(calls[0]) && AllSilent(calls[1..]) {
      forall i | 0 <= i < |calls| ensures Silent(calls[i]) {
        assert i > 0 ==> calls[i] == calls[1..][i - 1];
      }
    }
  }

  lemma Concat3(a: string, b: string, c: string)
    ensures a + (b + c) == a + b + c && a + "" == a && "" + a == a
  {
  }

  lemma {:induction false} BodyOfSnoc(calls: seq<WriterCall>, last: WriterCall)
    ensures BodyOf(calls + [last]) == BodyOf(calls) + Written(last)
  {
    if calls == [] {
      assert calls + [last] == [last] && [last][1..] == [];
      Concat3(Written(last), "", "");
    } else {
      assert (calls + [last])[1..] == calls[1..] + [last];
      BodyOfSnoc(calls[1..], last);
      Concat3(Written(calls[0]), BodyOf(calls[1..]), Written(last));
    }
  }

  lemma {:induction false} StatusOfSnoc(calls: seq<WriterCall>, last: WriterCall)
    ensures StatusOf(calls + [last]) == if AllSilent(calls) then StatusOf([last]) else StatusOf(calls)
  {
    if calls == [] {
      assert calls + [last] == [last];
    } else {
      assert (calls + [last])[1..] == calls[1..] + [last];
      StatusOfSnoc(calls[1..], last);
      AllSilentCons(calls);
    }
  }

  predicate Silent(w: WriterCall) { w.MarkCommitted? || (w.WriteHeader? && w.code == 0) }

  predicate AllSilent(calls: seq<WriterCall>) { forall i :: 0 <= i < |calls| ==> Silent(calls[i]) }

  /** The captured fields are the first status, the whole body, and whether a commit was signalled. */
  lemma {:induction false} MeaningOfCalls(calls: seq<WriterCall>)
    ensures var c := AfterCalls(calls);
      && (c.statusCode == 0 <==> AllSilent(calls))
      && (if c.statusCode == 0 then 200 else c.statusCode) == StatusOf(calls)
      && c.body == BodyOf(calls)
      && (c.sideEffectCommitted <==> MarkCommitted in calls)
  {
    if calls != [] {
      var init, last := calls[..|calls| - 1], calls[|calls| - 1];
      MeaningOfCalls(init);
      StatusOfSnoc(init, last);
      BodyOfSnoc(init, last);
      assert calls == init + [last];
      assert StatusOf([last]) == if last.WriteHeader? && last.code != 0 then last.code else 200 by {
        assert StatusOf([last][1..]) == 200;
      }
    }
  }

  /** A handler that begins by writing a status keeps the key exactly when the status is below 400 or a
      commit is signalled afterwards, whatever else it writes. */
  lemma KeptBelow400(code: int, after: seq<WriterCall>)
    requires code != 0
    ensures CachesWhen([WriteHeader(code)] + after) <==> code < 400 || MarkCommitted in after
    ensures CachesWhen([Write("")] + after)
  {
    assert ([WriteHeader(code)] + after)[0] == WriteHeader(code);
    assert ([Write("")] + after)[0] == Write("");
  }
}
