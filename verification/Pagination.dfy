/** Keyset pagination, newest first: the store query, the handlers that ask for one row too many,
    and a client that follows the cursors. */
module Pagination {
  import opened GoStrings
  import opened StringOrder

  /** A row's position; `id` is the address of a suppression or the id of an event, unique in its list. */
  datatype Key = Key(createdAt: int, id: string)

  /** The zero time, which asks for the first page. */
  const ZERO_TIME := 0
  const FIRST := Key(ZERO_TIME, "")

  predicate Before(a: Key, b: Key) {
    a.createdAt < b.createdAt || (a.createdAt == b.createdAt && Less(a.id, b.id))
  }

  lemma BeforeIsStrict(a: Key, b: Key)
    ensures !Before(a, a)
    ensures Before(a, b) ==> !Before(b, a) && a != b
    ensures a == b || Before(a, b) || Before(b, a)
  {
    LessIrreflexive(a.id);
    LessTotal(a.id, b.id);
    if Less(a.id, b.id) {
      LessAsymmetric(a.id, b.id);
    }
    if Less(b.id, a.id) {
      LessAsymmetric(b.id, a.id);
    }
  }

  lemma BeforeTransitive(a: Key, b: Key, c: Key)
    requires Before(a, b) && Before(b, c)
    ensures Before(a, c)
  {
    if a.createdAt == b.createdAt == c.createdAt {
      LessTransitive(a.id, b.id, c.id);
    }
  }

  predicate Descending(s: seq<Key>) { forall i, j :: 0 <= i < j < |s| ==> Before(s[j], s[i]) }

  lemma ConcatDescends(s: seq<Key>, t: seq<Key>)
    requires Descending(s) && Descending(t) && (s == [] || t == [] || Before(t[0], s[|s| - 1]))
    ensures Descending(s + t)
  {
    var u := s + t;
    forall i, j | 0 <= i < j < |u| ensures Before(u[j], u[i]) {
      if i < |s| <= j {
        if i < |s| - 1 {
          BeforeTransitive(t[0], s[|s| - 1], s[i]);
        }
        if j > |s| {
          BeforeTransitive(t[j - |s|], t[0], s[i]);
        }
      }
    }
  }

  // ---- The store query ----

  predicate After(k: Key, cursor: Key) { cursor.createdAt == ZERO_TIME || Before(k, cursor) }

  /** What the query may answer: the first `limit` rows past the cursor in descending order. */
  ghost predicate Answers(table: set<Key>, cursor: Key, limit: nat, list: seq<Key>) {
    && Descending(list) && |list| <= limit
    && (forall i :: 0 <= i < |list| ==> list[i] in table && After(list[i], cursor))
    && forall k :: k in table && After(k, cursor) && k !in list ==>
         |list| == limit && forall i :: 0 <= i < |list| ==> Before(k, list[i])
  }

  // ---- The handlers ----

  datatype Page<T> = Page(items: seq<T>, next: Option<Key>)

  datatype SuppressionView = SuppressionView(address: string, createdAt: int)

  function View(k: Key): SuppressionView { SuppressionView(k.id, k.createdAt) }

  function EffectiveLimit(limit: int): (n: nat)
    ensures n > 0 && (limit > 0 ==> n == limit)
  {
    if limit <= 0 then 100 else limit
  }

  /** The rows a page shows of a list fetched with one row too many, and the cursor to the rest. */
  function CutPage(list: seq<Key>, limit: nat): Page<Key>
    requires limit > 0
  {
    if |list| > limit then Page(list[..limit], Some(list[limit - 1])) else Page(list, None)
  }

  /** `list` is the store's answer for `limit + 1` rows. */
  method HandleListSuppressions(limit: int, list: seq<Key>) returns (page: Page<SuppressionView>)
    ensures var cut := CutPage(list, EffectiveLimit(limit));
      page.next == cut.next && |page.items| == |cut.items|
    ensures var n := if limit > 0 then limit else 100;
      && |page.items| == (if |list| > n then n else |list|)
      && page.next == (if |list| > n then Some(list[n - 1]) else None)
      && forall i :: 0 <= i < |page.items| ==> page.items[i] == SuppressionView(list[i].id, list[i].createdAt)
  {
    var n := limit;
    if n <= 0 {
      n := 100;
    }
    var rows := list;
    var hasMore := |rows| > n;
    if hasMore {
      rows := rows[..n];
    }
    var next := None;
    if hasMore {
      next := Some(rows[|rows| - 1]);
    }
    var items := [];
    for i := 0 to |rows|
      invariant |items| == i && forall j :: 0 <= j < i ==> items[j] == View(rows[j])
    {
      items := items + [View(rows[i])];
    }
    page := Page(items, next);
  }

  // ---- A walk ----

  /** One request of a walk: the table as it then was, and the store's answer. */
  datatype Visit = Visit(table: set<Key>, list: seq<Key>)

  function ItemsOf(v: Visit, limit: nat): seq<Key>
    requires limit > 0
  {
    CutPage(v.list, limit).items
  }

  /** Each request continues from the cursor of the one before; the last one has no cursor. */
  ghost predicate Walk(visits: seq<Visit>, cursor: Key, limit: nat)
    requires limit > 0
    decreases |visits|
  {
    && visits != []
    && Answers(visits[0].table, cursor, limit + 1, visits[0].list)
    && match CutPage(visits[0].list, limit).next
       case None => |visits| == 1
       case Some(k) => Walk(visits[1..], k, limit)
  }

  function Collected(visits: seq<Visit>, limit: nat): seq<Key>
    requires limit > 0
  {
    if visits == [] then [] else ItemsOf(visits[0], limit) + Collected(visits[1..], limit)
  }

  /** Rows get their time when they are written, never the zero time. */
  ghost predicate Stamped(visits: seq<Visit>) {
    forall i, k :: 0 <= i < |visits| && k in visits[i].table ==> k.createdAt != ZERO_TIME
  }

  lemma VisitFacts(v: Visit, cursor: Key, limit: nat)
    requires limit > 0 && Answers(v.table, cursor, limit + 1, v.list)
    ensures var cut := CutPage(v.list, limit);
      && Descending(cut.items)
      && (forall i :: 0 <= i < |cut.items| ==> cut.items[i] in v.table && After(cut.items[i], cursor))
      && (cut.next.Some? ==>
            |cut.items| == limit && cut.next.value == cut.items[limit - 1] && cut.next.value in v.table)
      && (forall k :: k in v.table && After(k, cursor) && k !in cut.items ==>
        cut.next.Some? && Before(k, cut.next.value))
  {
    var cut := CutPage(v.list, limit);
    if |v.list| > limit {
      assert v.list == cut.items + [v.list[limit]];
    }
  }

  /** Whatever happens to the table between requests, the walk never repeats a row nor goes back. */
  lemma {:induction false} NeverRepeats(visits: seq<Visit>, cursor: Key, limit: nat)
    requires limit > 0 && Walk(visits, cursor, limit) && Stamped(visits)
    ensures Descending(Collected(visits, limit))
    ensures forall i :: 0 <= i < |Collected(visits, limit)| ==> After(Collected(visits, limit)[i], cursor)
    decreases |visits|
  {
    VisitFacts(visits[0], cursor, limit);
    var cut, rest := CutPage(visits[0].list, limit), Collected(visits[1..], limit);
    if cut.next.Some? {
      assert Stamped(visits[1..]);
      NeverRepeats(visits[1..], cut.next.value, limit);
      assert cut.next.value.createdAt != ZERO_TIME;
      ConcatDescends(cut.items, rest);
      var all := cut.items + rest;
      forall i | 0 <= i < |all| ensures After(all[i], cursor) {
        if i >= limit && cursor.createdAt != ZERO_TIME {
          BeforeTransitive(all[i], cut.next.value, cursor);
        }
      }
    } else {
      assert rest == [];
    }
  }

  /** A row that is in the table at every request, past the starting cursor, is collected; and every
      collected row was in the table of some request. */
  lemma {:induction false} NeverSkips(visits: seq<Visit>, cursor: Key, limit: nat, k: Key)
    requires limit > 0 && Walk(visits, cursor, limit) && Stamped(visits)
    ensures (forall i :: 0 <= i < |visits| ==> k in visits[i].table) && After(k, cursor) ==>
      k in Collected(visits, limit)
    ensures k in Collected(visits, limit) ==> exists i :: 0 <= i < |visits| && k in visits[i].table
    decreases |visits|
  {
    VisitFacts(visits[0], cursor, limit);
    var cut := CutPage(visits[0].list, limit);
    if cut.next.Some? {
      assert Stamped(visits[1..]);
      NeverSkips(visits[1..], cut.next.value, limit, k);
      assert k in visits[0].table && After(k, cursor) && k !in cut.items ==> After(k, cut.next.value);
      assert forall i :: 0 <= i < |visits[1..]| ==> visits[1..][i] == visits[i + 1];
    } else {
      assert Collected(visits[1..], limit) == [];
    }
    if k in cut.items {
      assert k in visits[0].table;
    }
  }

  /** Rows that stay through a whole walk are each shown exactly once, however many others come and go. */
  lemma EachStayingRowOnce(visits: seq<Visit>, limit: nat, k: Key)
    requires limit > 0 && Walk(visits, FIRST, limit) && Stamped(visits)
    requires forall i :: 0 <= i < |visits| ==> k in visits[i].table
    ensures exists p :: 0 <= p < |Collected(visits, limit)| && Collected(visits, limit)[p] == k
    ensures forall p, q :: 0 <= p < q < |Collected(visits, limit)| ==>
      Collected(visits, limit)[p] != Collected(visits, limit)[q]
  {
    NeverSkips(visits, FIRST, limit, k);
    NeverRepeats(visits, FIRST, limit);
    var all := Collected(visits, limit);
    forall p, q | 0 <= p < q < |all| ensures all[p] != all[q] {
      BeforeIsStrict(all[q], all[p]);
    }
  }

  // ---- A table that does not change ----

  ghost predicate Still(visits: seq<Visit>, table: set<Key>) {
    forall i :: 0 <= i < |visits| ==> visits[i].table == table
  }

  /** The number of pages that `n` rows take. */
  function Pages(n: nat, limit: nat): nat
    requires limit > 0
  {
    if n <= limit then 1 else 1 + Pages(n - limit, limit)
  }

  lemma {:induction false} PagesIsCeiling(n: nat, limit: nat)
    requires limit > 0
    ensures Pages(n, limit) >= 1 && (Pages(n, limit) - 1) * limit <= n <= Pages(n, limit) * limit
    ensures n > 0 ==> (Pages(n, limit) - 1) * limit < n
  {
    if n > limit {
      PagesIsCeiling(n - limit, limit);
      var p := Pages(n - limit, limit);
      assert p * limit == (p - 1) * limit + limit && (p + 1) * limit == p * limit + limit;
    }
  }

  lemma {:induction false} WalkLength(visits: seq<Visit>, cursor: Key, limit: nat, table: set<Key>)
    requires limit > 0 && Walk(visits, cursor, limit) && Still(visits, table)
    ensures |visits| == Pages(|Collected(visits, limit)|, limit)
    ensures CutPage(visits[0].list, limit).next.Some? ==> |Collected(visits, limit)| > limit
    ensures |visits[0].list| > 0 ==> |Collected(visits, limit)| > 0
    decreases |visits|
  {
    VisitFacts(visits[0], cursor, limit);
    var list, cut := visits[0].list, CutPage(visits[0].list, limit);
    if cut.next.Some? {
      assert Still(visits[1..], table);
      WalkLength(visits[1..], cut.next.value, limit, table);
      var extra := list[limit];
      assert extra in table && After(extra, cut.next.value);
      assert Answers(table, cut.next.value, limit + 1, visits[1..][0].list);
      SomethingLeft(table, cut.next.value, limit + 1, visits[1..][0].list, extra);
    } else {
      assert Collected(visits[1..], limit) == [];
    }
  }

  lemma SomethingLeft(table: set<Key>, cursor: Key, limit: nat, list: seq<Key>, k: Key)
    requires limit > 0 && Answers(table, cursor, limit, list) && k in table && After(k, cursor)
    ensures |list| > 0
  {
  }

  /** Over a table that stays as it is, the pages together list it: every row once, newest first, in
      as many pages as its size takes, at least one. */
  lemma WalkListsTheTable(visits: seq<Visit>, limit: nat, table: set<Key>)
    requires limit > 0 && Walk(visits, FIRST, limit) && Still(visits, table) && Stamped(visits)
    ensures var all := Collected(visits, limit);
      && Descending(all) && (forall k :: k in all <==> k in table)
      && |all| == |table| && |visits| == Pages(|table|, limit)
  {
    var all := Collected(visits, limit);
    NeverRepeats(visits, FIRST, limit);
    forall k ensures k in all <==> k in table {
      NeverSkips(visits, FIRST, limit, k);
      assert k in table ==> forall i :: 0 <= i < |visits| ==> k in visits[i].table;
    }
    CountRows(all, table);
    WalkLength(visits, FIRST, limit, table);
  }

  lemma {:induction false} CountRows(s: seq<Key>, table: set<Key>)
    requires Descending(s) && forall k :: k in s <==> k in table
    ensures |s| == |table|
  {
    if s == [] {
      assert table == {};
    } else {
      var last, init := s[|s| - 1], s[..|s| - 1];
      BeforeIsStrict(last, last);
      assert last !in init by {
        forall i | 0 <= i < |init| ensures init[i] != last {
          BeforeIsStrict(last, init[i]);
        }
      }
      assert s == init + [last];
      CountRows(init, table - {last});
    }
  }
}
