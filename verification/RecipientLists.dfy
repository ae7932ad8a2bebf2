/** Recipient lists of an outgoing message: parsing, alias stripping and cross-field
    deduplication; and the list of blocked addresses kept with a terminal failure. */
module RecipientLists {
  import opened GoStrings
  import opened StringOrder

  /** Address parsing is a foreign library; a parsed address carries no surrounding blanks. */
  type Parser = string -> Option<string>

  ghost predicate CleanParser(parse: Parser) {
    forall a :: parse(a).Some? ==> TrimSpace(parse(a).value) == parse(a).value
  }

  // ---- The three helpers ----

  function Addrs(parse: Parser, addrs: seq<string>): Result<seq<string>> {
    if addrs == [] then Ok([])
    else
      var before := Addrs(parse, addrs[..|addrs| - 1]);
      var a := TrimSpace(addrs[|addrs| - 1]);
      if before.Err? || a == "" then before
      else if parse(a).None? then Err("invalid address")
      else Ok(before.value + [ToLower(parse(a).value)])
  }

  method NormalizeAddrs(parse: Parser, addrs: seq<string>) returns (r: Result<seq<string>>)
    ensures r == Addrs(parse, addrs)
  {
    var out: seq<string> := [];
    for i := 0 to |addrs|
      invariant Addrs(parse, addrs[..i]) == Ok(out)
    {
      assert addrs[..i + 1][..i] == addrs[..i];
      var a := TrimSpace(addrs[i]);
      if a != "" {
        var parsed := parse(a);
        if parsed.None? {
          AddrsStaysBad(parse, addrs, i + 1);
          return Err("invalid address");
        }
        out := out + [ToLower(parsed.value)];
      }
    }
    assert addrs[..|addrs|] == addrs;
    r := Ok(out);
  }

  lemma {:induction false} AddrsStaysBad(parse: Parser, addrs: seq<string>, n: nat)
    requires n <= |addrs| && Addrs(parse, addrs[..n]) == Err("invalid address")
    ensures Addrs(parse, addrs) == Err("invalid address")
    decreases |addrs|
  {
    if n == |addrs| {
      assert addrs[..n] == addrs;
    } else {
      assert addrs[..|addrs| - 1][..n] == addrs[..n];
      AddrsStaysBad(parse, addrs[..|addrs| - 1], n);
    }
  }

  function Removed(addrs: seq<string>, exclude: set<string>): seq<string> {
    if addrs == [] then []
    else
      var before := Removed(addrs[..|addrs| - 1], exclude);
      var a := addrs[|addrs| - 1];
      if ToLower(a) in exclude then before else before + [a]
  }

  function LowerSet(s: seq<string>): set<string> {
    set i | 0 <= i < |s| :: ToLower(s[i])
  }

  method RemoveAddrs(addrs: seq<string>, exclude: seq<string>) returns (out: seq<string>)
    ensures out == Removed(addrs, LowerSet(exclude))
  {
    if |exclude| == 0 {
      NothingRemoved(addrs);
      return addrs;
    }
    var excluded: set<string> := {};
    for i := 0 to |exclude|
      invariant excluded == LowerSet(exclude[..i])
    {
      LowerSetSnoc(exclude[..i], exclude[i]);
      assert exclude[..i + 1] == exclude[..i] + [exclude[i]];
      excluded := excluded + {ToLower(exclude[i])};
    }
    assert exclude[..|exclude|] == exclude;
    out := [];
    for i := 0 to |addrs|
      invariant out == Removed(addrs[..i], excluded)
    {
      assert addrs[..i + 1][..i] == addrs[..i];
      if ToLower(addrs[i]) !in excluded {
        out := out + [addrs[i]];
      }
    }
    assert addrs[..|addrs|] == addrs;
  }

  lemma LowerSetSnoc(s: seq<string>, x: string)
    ensures LowerSet(s + [x]) == LowerSet(s) + {ToLower(x)}
  {
    var t := s + [x];
    forall y | y in LowerSet(s) ensures y in LowerSet(t) {
      var i :| 0 <= i < |s| && y == ToLower(s[i]);
      assert t[i] == s[i];
    }
    assert t[|s|] == x;
  }

  lemma {:induction false} NothingRemoved(addrs: seq<string>)
    ensures Removed(addrs, LowerSet([])) == addrs
  {
    if addrs != [] {
      NothingRemoved(addrs[..|addrs| - 1]);
      assert addrs == addrs[..|addrs| - 1] + [addrs[|addrs| - 1]];
    }
  }

  function Deduped(addrs: seq<string>): seq<string> {
    if addrs == [] then []
    else
      var init, a := addrs[..|addrs| - 1], addrs[|addrs| - 1];
      if ToLower(a) in LowerSet(init) then Deduped(init) else Deduped(init) + [a]
  }

  method Dedupe(addrs: seq<string>) returns (out: seq<string>)
    ensures out == Deduped(addrs)
  {
    var seen: set<string> := {};
    out := [];
    for i := 0 to |addrs|
      invariant seen == LowerSet(addrs[..i]) && out == Deduped(addrs[..i])
    {
      assert addrs[..i + 1][..i] == addrs[..i];
      LowerSetSnoc(addrs[..i], addrs[i]);
      assert addrs[..i + 1] == addrs[..i] + [addrs[i]];
      var key := ToLower(addrs[i]);
      if key !in seen {
        seen := seen + {key};
        out := out + [addrs[i]];
      }
    }
    assert addrs[..|addrs|] == addrs;
  }

  // ---- The envelope ----

  datatype Fields = Fields(to: seq<string>, cc: seq<string>, bcc: seq<string>)

  function Envelope(f: Fields): seq<string> { f.to + f.cc + f.bcc }

  function Recipients(parse: Parser, aliases: set<string>, f: Fields): Result<Fields> {
    var to, cc, bcc := Addrs(parse, f.to), Addrs(parse, f.cc), Addrs(parse, f.bcc);
    if to.Err? || cc.Err? || bcc.Err? then Err("invalid address")
    else
      var t := Deduped(Removed(to.value, aliases));
      var c := Removed(Deduped(Removed(cc.value, aliases)), LowerSet(t));
      var b := Removed(Removed(Deduped(Removed(bcc.value, aliases)), LowerSet(t)), LowerSet(c));
      if t == [] && c == [] then Err("no valid recipients") else Ok(Fields(t, c, b))
  }

  /** The envelope of an ordinary send strips the agent's own addresses; a platform send keeps them
      (an empty `aliases`). */
  method NormalizeRecipients(parse: Parser, aliases: seq<string>, f: Fields) returns (r: Result<Fields>)
    ensures r == Recipients(parse, LowerSet(aliases), f)
  {
    var to := NormalizeAddrs(parse, f.to);
    if to.Err? {
      return Err("invalid address");
    }
    var cc := NormalizeAddrs(parse, f.cc);
    if cc.Err? {
      return Err("invalid address");
    }
    var bcc := NormalizeAddrs(parse, f.bcc);
    if bcc.Err? {
      return Err("invalid address");
    }
    var t := RemoveAddrs(to.value, aliases);
    var c := RemoveAddrs(cc.value, aliases);
    var b := RemoveAddrs(bcc.value, aliases);
    t := Dedupe(t);
    c := Dedupe(c);
    b := Dedupe(b);
    c := RemoveAddrs(c, t);
    b := RemoveAddrs(b, t);
    b := RemoveAddrs(b, c);
    if t == [] && c == [] {
      return Err("no valid recipients");
    }
    r := Ok(Fields(t, c, b));
  }

  // ---- What the envelope holds ----

  predicate Lower(s: seq<string>) { forall i :: 0 <= i < |s| ==> ToLower(s[i]) == s[i] }

  /** Entry `i` of a field names address `a`. */
  predicate Names(parse: Parser, raw: string, a: string) {
    TrimSpace(raw) != "" && parse(TrimSpace(raw)).Some? && ToLower(parse(TrimSpace(raw)).value) == a
  }

  predicate Mentions(parse: Parser, field: seq<string>, a: string) {
    exists i :: 0 <= i < |field| && Names(parse, field[i], a)
  }

  predicate Readable(parse: Parser, field: seq<string>) {
    forall i :: 0 <= i < |field| ==> TrimSpace(field[i]) == "" || parse(TrimSpace(field[i])).Some?
  }

  lemma MentionsSnoc(parse: Parser, field: seq<string>, a: string)
    requires field != []
    ensures Mentions(parse, field, a) <==>
      Mentions(parse, field[..|field| - 1], a) || Names(parse, field[|field| - 1], a)
  {
    var init := field[..|field| - 1];
    if Mentions(parse, init, a) {
      var i :| 0 <= i < |init| && Names(parse, init[i], a);
      assert field[i] == init[i];
    }
    if Mentions(parse, field, a) && !Names(parse, field[|field| - 1], a) {
      var i :| 0 <= i < |field| && Names(parse, field[i], a);
      assert init[i] == field[i];
    }
  }

  lemma {:induction false} AddrsFacts(parse: Parser, field: seq<string>, a: string)
    ensures Addrs(parse, field).Ok? <==> Readable(parse, field)
    ensures Addrs(parse, field).Ok? ==> Lower(Addrs(parse, field).value)
    ensures Addrs(parse, field).Ok? ==> (a in Addrs(parse, field).value <==> Mentions(parse, field, a))
  {
    if field != [] {
      var init := field[..|field| - 1];
      AddrsFacts(parse, init, a);
      MentionsSnoc(parse, field, a);
      assert Readable(parse, field) ==> Readable(parse, init);
      assert forall i :: 0 <= i < |init| ==> init[i] == field[i];
      var last := TrimSpace(field[|field| - 1]);
      if Addrs(parse, field).Ok? && last != "" {
        ToLowerIdempotent(parse(last).value);
      }
    }
  }

  lemma {:induction false} RemovedFacts(s: seq<string>, exclude: set<string>)
    requires Lower(s)
    ensures Lower(Removed(s, exclude))
    ensures forall a :: a in Removed(s, exclude) <==> a in s && a !in exclude
    ensures Distinct(s) ==> Distinct(Removed(s, exclude))
  {
    if s != [] {
      var init := s[..|s| - 1];
      RemovedFacts(init, exclude);
      assert s == init + [s[|s| - 1]];
      assert Distinct(s) ==> Distinct(init) && s[|s| - 1] !in init;
    }
  }

  lemma LowerSetMembers(s: seq<string>, a: string)
    requires Lower(s)
    ensures a in LowerSet(s) <==> a in s
  {
  }

  lemma {:induction false} DedupedFacts(s: seq<string>)
    requires Lower(s)
    ensures Lower(Deduped(s)) && Distinct(Deduped(s))
    ensures forall a :: a in Deduped(s) <==> a in s
  {
    if s != [] {
      var init, a := s[..|s| - 1], s[|s| - 1];
      DedupedFacts(init);
      LowerSetMembers(init, a);
      assert s == init + [a];
    }
  }

  /** One field after alias stripping and deduplication. */
  lemma CleanField(parse: Parser, aliases: set<string>, field: seq<string>)
    requires Addrs(parse, field).Ok?
    ensures var f := Deduped(Removed(Addrs(parse, field).value, aliases));
      Lower(f) && Distinct(f) && forall a :: a in f <==> Mentions(parse, field, a) && a !in aliases
  {
    AddrsFacts(parse, field, "");
    RemovedFacts(Addrs(parse, field).value, aliases);
    DedupedFacts(Removed(Addrs(parse, field).value, aliases));
    forall a ensures a in Addrs(parse, field).value <==> Mentions(parse, field, a) {
      AddrsFacts(parse, field, a);
    }
  }

  predicate Wanted(parse: Parser, aliases: set<string>, f: Fields, a: string) {
    a !in aliases && (Mentions(parse, f.to, a) || Mentions(parse, f.cc, a) || Mentions(parse, f.bcc, a))
  }

  lemma DistinctConcat(s: seq<string>, t: seq<string>)
    requires Distinct(s) && Distinct(t) && forall a :: a in s ==> a !in t
    ensures Distinct(s + t)
  {
    var u := s + t;
    forall i, j | 0 <= i < j < |u| ensures u[i] != u[j] {
      if i < |s| <= j {
        assert s[i] in s && t[j - |s|] in t;
      }
    }
  }

  /** The envelope lists, each exactly once, the addresses the request mentions in any field except
      the agent's own; an address keeps only its first field in the order To, CC, BCC. */
  lemma EnvelopeIsExact(parse: Parser, aliases: set<string>, f: Fields)
    requires Recipients(parse, aliases, f).Ok?
    ensures var e := Recipients(parse, aliases, f).value;
      && Distinct(Envelope(e))
      && (forall a :: a in Envelope(e) <==> Wanted(parse, aliases, f, a))
      && (forall a :: a in e.to <==> a !in aliases && Mentions(parse, f.to, a))
      && (forall a :: a in e.cc <==> a !in aliases && Mentions(parse, f.cc, a) && !Mentions(parse, f.to, a))
      && forall a :: a in e.bcc <==>
           a !in aliases && Mentions(parse, f.bcc, a) && !Mentions(parse, f.to, a) && !Mentions(parse, f.cc, a)
  {
    CleanField(parse, aliases, f.to);
    CleanField(parse, aliases, f.cc);
    CleanField(parse, aliases, f.bcc);
    var t := Deduped(Removed(Addrs(parse, f.to).value, aliases));
    var c0 := Deduped(Removed(Addrs(parse, f.cc).value, aliases));
    var b0 := Deduped(Removed(Addrs(parse, f.bcc).value, aliases));
    RemovedFacts(c0, LowerSet(t));
    var c := Removed(c0, LowerSet(t));
    RemovedFacts(b0, LowerSet(t));
    RemovedFacts(Removed(b0, LowerSet(t)), LowerSet(c));
    var e := Recipients(parse, aliases, f).value;
    forall a ensures (a in LowerSet(t) <==> a in t) && (a in LowerSet(c) <==> a in c) {
      LowerSetMembers(t, a);
      LowerSetMembers(c, a);
    }
    DistinctConcat(e.to, e.cc);
    DistinctConcat(e.to + e.cc, e.bcc);
  }

  /** The send is refused exactly when some entry does not parse, or To and CC name nobody but the agent. */
  lemma EnvelopeRefused(parse: Parser, aliases: set<string>, f: Fields)
    ensures Recipients(parse, aliases, f).Ok? <==>
      && Readable(parse, f.to) && Readable(parse, f.cc) && Readable(parse, f.bcc)
      && exists a :: a !in aliases && (Mentions(parse, f.to, a) || Mentions(parse, f.cc, a))
  {
    AddrsFacts(parse, f.to, "");
    AddrsFacts(parse, f.cc, "");
    AddrsFacts(parse, f.bcc, "");
    if Recipients(parse, aliases, f).Ok? {
      EnvelopeIsExact(parse, aliases, f);
      var e := Recipients(parse, aliases, f).value;
      if e.to != [] {
        assert e.to[0] in e.to;
      } else {
        assert e.cc[0] in e.cc;
      }
    } else if Readable(parse, f.to) && Readable(parse, f.cc) && Readable(parse, f.bcc) {
      NobodyLeft(parse, aliases, f);
    }
  }

  lemma NobodyLeft(parse: Parser, aliases: set<string>, f: Fields)
    requires Recipients(parse, aliases, f) == Err("no valid recipients")
    ensures forall a :: a !in aliases ==> !Mentions(parse, f.to, a) && !Mentions(parse, f.cc, a)
  {
    CleanField(parse, aliases, f.to);
    CleanField(parse, aliases, f.cc);
    var t := Deduped(Removed(Addrs(parse, f.to).value, aliases));
    var c0 := Deduped(Removed(Addrs(parse, f.cc).value, aliases));
    RemovedFacts(c0, LowerSet(t));
    assert t == [] && LowerSet(t) == {};
    forall a | a !in aliases ensures !Mentions(parse, f.to, a) && !Mentions(parse, f.cc, a) {
      assert a !in t;
      assert a !in c0;
    }
  }

  // ---- The suppression lookup ----

  /** The storage key of an address: the parsed mailbox when there is one. */
  function MailboxKey(parse: Parser, value: string): string {
    match parse(TrimSpace(value))
    case Some(a) => Norm(a)
    case None => Norm(value)
  }

  function LookupKeys(parse: Parser, f: Fields): set<string> {
    var all := Envelope(f);
    set i | 0 <= i < |all| :: MailboxKey(parse, all[i])
  }

  /** `field` stands in the list of all entries from position `from` on. */
  lemma FieldIsLookedUp(parse: Parser, f: Fields, all: seq<string>, from: nat, field: seq<string>, a: string)
    requires CleanParser(parse) && all == Envelope(f) && Mentions(parse, field, a)
    requires from + |field| <= |all| && forall i :: 0 <= i < |field| ==> all[from + i] == field[i]
    ensures a in LookupKeys(parse, f)
  {
    var i :| 0 <= i < |field| && Names(parse, field[i], a);
    KeyOfNamed(parse, field[i], a);
    assert MailboxKey(parse, all[from + i]) == a;
  }

  lemma KeyOfNamed(parse: Parser, raw: string, a: string)
    requires CleanParser(parse) && Names(parse, raw, a)
    ensures MailboxKey(parse, raw) == a
  {
  }

  lemma WantedIsLookedUp(parse: Parser, aliases: set<string>, f: Fields, a: string)
    requires CleanParser(parse) && Wanted(parse, aliases, f, a)
    ensures a in LookupKeys(parse, f)
  {
    var all := Envelope(f);
    if Mentions(parse, f.to, a) {
      FieldIsLookedUp(parse, f, all, 0, f.to, a);
    } else if Mentions(parse, f.cc, a) {
      FieldIsLookedUp(parse, f, all, |f.to|, f.cc, a);
    } else {
      FieldIsLookedUp(parse, f, all, |f.to| + |f.cc|, f.bcc, a);
    }
  }

  /** Every address the composed message goes to was among the keys the suppression lists were asked about. */
  lemma EnvelopeIsLookedUp(parse: Parser, aliases: set<string>, f: Fields)
    requires CleanParser(parse) && Recipients(parse, aliases, f).Ok?
    ensures forall a :: a in Envelope(Recipients(parse, aliases, f).value) ==> a in LookupKeys(parse, f)
  {
    EnvelopeIsExact(parse, aliases, f);
    forall a | a in Envelope(Recipients(parse, aliases, f).value) ensures a in LookupKeys(parse, f) {
      WantedIsLookedUp(parse, aliases, f, a);
    }
  }

  // ---- Blocked recipients ----

  predicate Blocked(recipients: seq<string>, y: string) {
    y != "" && exists i :: 0 <= i < |recipients| && Norm(recipients[i]) == y
  }

  ghost predicate BlockedListing(recipients: seq<string>, result: seq<string>) {
    Increasing(result) && forall y :: y in result <==> Blocked(recipients, y)
  }

  /** The set may be listed in any order before it is sorted. */
  method NormalizeBlockedRecipients(recipients: seq<string>) returns (result: seq<string>)
    ensures BlockedListing(recipients, result)
  {
    var seen: set<string> := {};
    for i := 0 to |recipients|
      invariant forall y :: y in seen <==> Blocked(recipients[..i], y)
    {
      var recipient := Norm(recipients[i]);
      ghost var was := seen;
      if recipient != "" {
        seen := seen + {recipient};
      }
      forall y ensures y in seen <==> Blocked(recipients[..i + 1], y) {
        BlockedSnoc(recipients, i, y);
        assert y in was <==> Blocked(recipients[..i], y);
      }
    }
    assert recipients[..|recipients|] == recipients;
    result := [];
    var left := seen;
    while left != {}
      invariant left <= seen && Increasing(result)
      invariant forall y :: y in result <==> y in seen - left
      decreases |left|
    {
      var recipient :| recipient in left;
      left := left - {recipient};
      InsertKeepsOrder(recipient, result);
      result := Insert(recipient, result);
    }
  }

  lemma BlockedSnoc(recipients: seq<string>, i: nat, y: string)
    requires i < |recipients|
    ensures Blocked(recipients[..i + 1], y) <==> Blocked(recipients[..i], y) || (y != "" && Norm(recipients[i]) == y)
  {
    var init, more := recipients[..i], recipients[..i + 1];
    if Blocked(init, y) {
      var k :| 0 <= k < |init| && Norm(init[k]) == y;
      assert more[k] == init[k];
    }
    if Blocked(more, y) && Norm(recipients[i]) != y {
      var k :| 0 <= k < |more| && Norm(more[k]) == y;
      assert init[k] == more[k];
    }
    assert more[i] == recipients[i];
  }

  /** The listing depends only on which addresses are named, not on their order, spelling or repetition. */
  lemma BlockedListingIsCanonical(r: seq<string>, s: seq<string>, x: seq<string>, y: seq<string>)
    requires BlockedListing(r, x) && BlockedListing(s, y)
    ensures x == y <==> forall a :: Blocked(r, a) <==> Blocked(s, a)
  {
    if forall a :: Blocked(r, a) <==> Blocked(s, a) {
      IncreasingIsUnique(x, y);
    }
  }
}
