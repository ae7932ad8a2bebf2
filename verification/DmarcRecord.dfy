/** DMARC policy records: choosing the one among a name's TXT strings, and reading its tags. */
module DmarcRecord {
  import opened GoStrings
  import opened DmarcTree

  const VERSION := "DMARC1"

  /** A well-formed record, text that counts as no record, or a malformed one. */
  datatype Reading = Ignored | Malformed | Read(record: Record)

  type UriList = string -> bool

  // ---- Entries of the tag list ----

  /** Non-empty entries, trimmed. */
  function Pieces(entries: seq<string>): seq<string> {
    if entries == [] then []
    else
      var before, piece := Pieces(entries[..|entries| - 1]), TrimSpace(entries[|entries| - 1]);
      if piece == "" then before else before + [piece]
  }

  datatype Tag = Tag(key: string, value: string) | BadTag

  /** Only the two policy tags may have an empty value. */
  function TagOf(piece: string): Tag {
    match Cut(piece, '=')
    case None => BadTag
    case Some((key, value)) =>
      var k, v := Norm(key), TrimSpace(value);
      if k == "" || (v == "" && k != "p" && k != "sp") then BadTag else Tag(k, v)
  }

  function TagsOf(pieces: seq<string>): seq<Tag> { seq(|pieces|, i requires 0 <= i < |pieces| => TagOf(pieces[i])) }

  predicate Version(t: Tag) { t == Tag("v", VERSION) }

  predicate KeysDiffer(ts: seq<Tag>) {
    forall i, j :: 0 <= i < j < |ts| && ts[i].Tag? && ts[j].Tag? ==> ts[i].key != ts[j].key
  }

  /** Every entry a tag, the version first, and no tag twice. */
  predicate Proper(ts: seq<Tag>) {
    ts != [] && Version(ts[0]) && (forall i :: 0 <= i < |ts| ==> ts[i].Tag?) && KeysDiffer(ts)
  }

  function Values(ts: seq<Tag>): map<string, string> {
    if ts == [] then map[]
    else
      var before, t := Values(ts[..|ts| - 1]), ts[|ts| - 1];
      if t.Tag? then before[t.key := t.value] else before
  }

  // ---- The record ----

  function PolicyOf(s: string): Option<Policy> {
    if s == "none" then Some(PolicyNone)
    else if s == "quarantine" then Some(PolicyQuarantine)
    else if s == "reject" then Some(PolicyReject)
    else None
  }

  function Value(values: map<string, string>, key: string): Option<string> {
    if key in values then Some(values[key]) else None
  }

  /** A policy tag: absent, readable, or not. */
  datatype PolicyTag = NoTag | Good(policy: Policy) | Bad

  function ReadPolicy(value: Option<string>): PolicyTag {
    match value
    case None => NoTag
    case Some(v) => (match PolicyOf(ToLower(v)) case Some(p) => Good(p) case None => Bad)
  }

  predicate Strict(value: Option<string>) { value.Some? && ToLower(value.value) == "s" }

  function PsdOf(value: Option<string>): Psd {
    match value
    case None => PsdU
    case Some(v) => if ToLower(v) == "y" then PsdY else if ToLower(v) == "n" then PsdN else PsdU
  }

  /** An unreadable policy makes the record a monitoring one when it asks for reports, and no record otherwise. */
  function RecordOf(values: map<string, string>, reports: UriList): Reading {
    var p, sp := ReadPolicy(Value(values, "p")), ReadPolicy(Value(values, "sp"));
    if p.Bad? || sp.Bad? then
      var rua := Value(values, "rua");
      var asks := reports(if rua.Some? then rua.value else "");
      if asks then Read(Record(PolicyNone, None, false, false, PsdU)) else Ignored
    else
      Read(Record(if p.Good? then p.policy else PolicyNone, if sp.Good? then Some(sp.policy) else None,
        Strict(Value(values, "aspf")), Strict(Value(values, "adkim")), PsdOf(Value(values, "psd"))))
  }

  function Parsed(ts: seq<Tag>, reports: UriList): Reading {
    if Proper(ts) then RecordOf(Values(ts), reports) else Malformed
  }

  function ParseRecord(text: string, reports: UriList): Reading { Parsed(TagsOf(Pieces(Split(text, ';'))), reports) }

  // ---- Reading a record ----

  lemma PiecesSnoc(entries: seq<string>, i: nat)
    requires i < |entries|
    ensures var piece := TrimSpace(entries[i]);
      Pieces(entries[..i + 1]) == Pieces(entries[..i]) + if piece == "" then [] else [piece]
  {
    assert entries[..i + 1][..i] == entries[..i];
  }

  lemma TagsSnoc(pieces: seq<string>, piece: string)
    ensures TagsOf(pieces + [piece]) == TagsOf(pieces) + [TagOf(piece)]
  {
  }

  lemma {:induction false} PiecesPrefix(entries: seq<string>, i: nat)
    requires i <= |entries|
    ensures Pieces(entries[..i]) <= Pieces(entries)
    decreases |entries|
  {
    if i < |entries| {
      var init := entries[..|entries| - 1];
      PiecesPrefix(init, i);
      assert init[..i] == entries[..i];
    } else {
      assert entries[..i] == entries;
    }
  }

  /** A list that starts badly stays bad. */
  lemma BadPrefix(some: seq<string>, all: seq<string>, reports: UriList)
    requires some <= all && some != []
    requires !Proper(TagsOf(some))
    ensures Parsed(TagsOf(all), reports) == Malformed
  {
    var s, t := TagsOf(some), TagsOf(all);
    if Proper(t) {
      assert forall i :: 0 <= i < |s| ==> s[i] == t[i];
      assert Proper(s);
    }
  }

  lemma ValuesSnoc(ts: seq<Tag>, t: Tag)
    requires t.Tag?
    ensures Values(ts + [t]) == Values(ts)[t.key := t.value]
  {
    assert (ts + [t])[..|ts|] == ts;
  }

  predicate HasKey(ts: seq<Tag>, k: string) { exists i :: 0 <= i < |ts| && ts[i].Tag? && ts[i].key == k }

  /** What the loop over the entries has seen: the map of a proper list of tags, and its keys. */
  ghost predicate Scanned(ts: seq<Tag>, values: map<string, string>) {
    && (ts == [] || Proper(ts))
    && values == Values(ts)
    && forall k :: k in values <==> HasKey(ts, k)
  }

  lemma HasKeySnoc(ts: seq<Tag>, t: Tag, k: string)
    requires t.Tag?
    ensures HasKey(ts + [t], k) <==> HasKey(ts, k) || k == t.key
  {
    var us := ts + [t];
    assert us[|ts|] == t;
    if HasKey(ts, k) {
      var i :| 0 <= i < |ts| && ts[i].Tag? && ts[i].key == k;
      assert us[i] == ts[i];
    }
    if HasKey(us, k) && k != t.key {
      var i :| 0 <= i < |us| && us[i].Tag? && us[i].key == k;
      assert ts[i] == us[i];
    }
  }

  lemma ScanOne(ts: seq<Tag>, values: map<string, string>, t: Tag)
    requires Scanned(ts, values) && t.Tag?
    ensures Proper(ts + [t]) <==> (ts == [] ==> Version(t)) && t.key !in values
    ensures Proper(ts + [t]) ==> Scanned(ts + [t], values[t.key := t.value])
  {
    var us := ts + [t];
    ValuesSnoc(ts, t);
    forall k ensures HasKey(us, k) <==> HasKey(ts, k) || k == t.key {
      HasKeySnoc(ts, t, k);
    }
    if (ts == [] ==> Version(t)) && t.key !in values {
      assert forall i :: 0 <= i < |ts| ==> HasKey(ts, ts[i].key);
      assert Proper(us);
    }
    if Proper(us) {
      assert us[|ts|] == t;
    }
  }

  method ParseDmarcRecord(text: string, reports: UriList) returns (r: Reading)
    ensures r == ParseRecord(text, reports)
  {
    var parts := Split(text, ';');
    var values: map<string, string> := map[];
    var first := true;
    ghost var ts: seq<Tag> := [];
    assert parts[..0] == [];
    for i := 0 to |parts|
      invariant ts == TagsOf(Pieces(parts[..i])) && Scanned(ts, values) && (first <==> ts == [])
    {
      PiecesSnoc(parts, i);
      var part := TrimSpace(parts[i]);
      if part != "" {
        TagsSnoc(Pieces(parts[..i]), part);
        PiecesPrefix(parts, i + 1);
        var tag := TagOf(part);
        if tag.BadTag? {
          BadEntry(ts);
          BadPrefix(Pieces(parts[..i + 1]), Pieces(parts), reports);
          return Malformed;
        }
        ScanOne(ts, values, tag);
        if (first && !Version(tag)) || tag.key in values {
          BadPrefix(Pieces(parts[..i + 1]), Pieces(parts), reports);
          return Malformed;
        }
        first := false;
        values := values[tag.key := tag.value];
        ts := ts + [tag];
      }
    }
    assert parts[..|parts|] == parts;
    if first {
      return Malformed;
    }
    r := RecordOf(values, reports);
  }

  lemma BadEntry(ts: seq<Tag>)
    ensures !Proper(ts + [BadTag])
  {
    assert (ts + [BadTag])[|ts|] == BadTag;
  }

  // ---- The order of the tags ----

  lemma {:induction false} ValuesHold(ts: seq<Tag>, k: string, v: string)
    requires KeysDiffer(ts) && forall i :: 0 <= i < |ts| ==> ts[i].Tag?
    ensures (k in Values(ts) && Values(ts)[k] == v) <==> Tag(k, v) in ts
    ensures k in Values(ts) <==> exists i :: 0 <= i < |ts| && ts[i].key == k
  {
    if ts != [] {
      var init, last := ts[..|ts| - 1], ts[|ts| - 1];
      ValuesHold(init, k, v);
      assert ts == init + [last];
      if k == last.key {
        assert ts[|init|].key == k;
        assert Tag(k, v) !in init;
      } else {
        assert forall i :: 0 <= i < |init| ==> ts[i] == init[i];
      }
    }
  }

  lemma {:induction false} TwiceIn(ts: seq<Tag>, t: Tag)
    requires multiset(ts)[t] >= 2
    ensures exists i, j :: 0 <= i < j < |ts| && ts[i] == t && ts[j] == t
  {
    var init, last := ts[..|ts| - 1], ts[|ts| - 1];
    assert ts == init + [last];
    if last == t {
      assert multiset(init)[t] >= 1;
      assert t in init;
      var i :| 0 <= i < |init| && init[i] == t;
      assert ts[i] == t && ts[|init|] == t;
    } else {
      TwiceIn(init, t);
      var i, j :| 0 <= i < j < |init| && init[i] == t && init[j] == t;
      assert ts[i] == t && ts[j] == t;
    }
  }

  lemma AppearsTwice(ts: seq<Tag>, i: nat, j: nat)
    requires i < j < |ts| && ts[i] == ts[j]
    ensures multiset(ts)[ts[i]] >= 2
  {
    var a, b := ts[..j], ts[j..];
    assert ts == a + b;
    assert a[i] == ts[i] && b[0] == ts[j];
    assert multiset(ts) == multiset(a) + multiset(b);
  }

  lemma SameKeys(ts: seq<Tag>, us: seq<Tag>)
    requires multiset(ts) == multiset(us) && KeysDiffer(ts) && forall i :: 0 <= i < |ts| ==> ts[i].Tag?
    ensures KeysDiffer(us) && forall i :: 0 <= i < |us| ==> us[i].Tag?
  {
    forall i | 0 <= i < |us| ensures us[i] in ts {
      assert us[i] in multiset(us);
    }
    forall i, j | 0 <= i < j < |us| ensures us[i].key != us[j].key {
      if us[i].key == us[j].key {
        if us[i] == us[j] {
          AppearsTwice(us, i, j);
          TwiceIn(ts, us[i]);
        }
      }
    }
  }

  /** After the version tag, the order of the tags is irrelevant: rearranged they read as the same record. */
  lemma OrderOfTagsIsIrrelevant(ts: seq<Tag>, us: seq<Tag>, reports: UriList)
    requires multiset(ts) == multiset(us) && Proper(ts) && Version(us[0])
    ensures Parsed(us, reports) == Parsed(ts, reports)
  {
    SameKeys(ts, us);
    forall k, v ensures Tag(k, v) in ts <==> Tag(k, v) in us {
      assert Tag(k, v) in ts <==> Tag(k, v) in multiset(ts);
      assert Tag(k, v) in us <==> Tag(k, v) in multiset(us);
    }
    SameValues(ts, us);
  }

  lemma SameValues(ts: seq<Tag>, us: seq<Tag>)
    requires KeysDiffer(ts) && forall i :: 0 <= i < |ts| ==> ts[i].Tag?
    requires KeysDiffer(us) && forall i :: 0 <= i < |us| ==> us[i].Tag?
    requires forall k, v :: Tag(k, v) in ts <==> Tag(k, v) in us
    ensures Values(ts) == Values(us)
  {
    var a, b := Values(ts), Values(us);
    forall k | k in a || k in b ensures k in a && k in b && a[k] == b[k] {
      if k in a {
        ValuesHold(ts, k, a[k]);
        ValuesHold(us, k, a[k]);
      } else {
        ValuesHold(us, k, b[k]);
        ValuesHold(ts, k, b[k]);
      }
    }
  }

  // ---- Choosing the record ----

  /** Only exactly one versioned string is a policy; several cancel each other out. */
  predicate HasVersion(record: string) {
    match Cut(Split(TrimSpace(record), ';')[0], '=')
    case None => false
    case Some((key, value)) => Norm(key) == "v" && TrimSpace(value) == VERSION
  }

  function Candidates(records: seq<string>): seq<string> {
    if records == [] then []
    else
      var before, last := Candidates(records[..|records| - 1]), records[|records| - 1];
      if HasVersion(last) then before + [TrimSpace(last)] else before
  }

  function Selected(records: seq<string>, reports: UriList): Reading {
    var cs := Candidates(records);
    if |cs| == 1 then ParseRecord(cs[0], reports) else Ignored
  }

  method SelectDmarcRecord(records: seq<string>, reports: UriList) returns (r: Reading)
    ensures r == Selected(records, reports)
  {
    var candidates: seq<string> := [];
    for i := 0 to |records|
      invariant candidates == Candidates(records[..i])
    {
      assert records[..i + 1][..i] == records[..i];
      if HasVersion(records[i]) {
        candidates := candidates + [TrimSpace(records[i])];
      }
    }
    assert records[..|records|] == records;
    if |candidates| != 1 {
      return Ignored;
    }
    r := ParseDmarcRecord(candidates[0], reports);
  }

  /** The versioned strings, as they came. */
  function Versioned(records: seq<string>): seq<string> {
    if records == [] then []
    else
      var last := records[|records| - 1];
      Versioned(records[..|records| - 1]) + if HasVersion(last) then [last] else []
  }

  lemma {:induction false} VersionedCounts(records: seq<string>, s: string)
    ensures multiset(Versioned(records))[s] == if HasVersion(s) then multiset(records)[s] else 0
  {
    if records != [] {
      VersionedCounts(records[..|records| - 1], s);
      assert records == records[..|records| - 1] + [records[|records| - 1]];
    }
  }

  lemma {:induction false} CandidatesAreVersioned(records: seq<string>)
    ensures |Candidates(records)| == |Versioned(records)|
    ensures |Versioned(records)| == 1 ==> Candidates(records) == [TrimSpace(Versioned(records)[0])]
  {
    if records != [] {
      var init := records[..|records| - 1];
      CandidatesAreVersioned(init);
      assert Versioned(init) + [] == Versioned(init);
    }
  }

  /** Both lists hold every versioned string equally often. */
  ghost predicate SameVersioned(x: seq<string>, y: seq<string>) {
    forall s :: HasVersion(s) ==> multiset(x)[s] == multiset(y)[s]
  }

  lemma SameMultiset(x: seq<string>, y: seq<string>)
    requires multiset(x) == multiset(y)
    ensures |x| == |y| && (|x| == 1 ==> x == y)
  {
    assert |multiset(x)| == |x| && |multiset(y)| == |y|;
    if |x| == 1 {
      assert x[0] in multiset(x);
      assert x[0] in multiset(y);
    }
  }

  /** Neither the order in which the resolver returns the strings of a name matters, nor strings that
      carry no version. */
  lemma OrderOfStringsIsIrrelevant(x: seq<string>, y: seq<string>, reports: UriList)
    requires SameVersioned(x, y)
    ensures Selected(x, reports) == Selected(y, reports)
  {
    forall s ensures multiset(Versioned(x))[s] == multiset(Versioned(y))[s] {
      VersionedCounts(x, s);
      VersionedCounts(y, s);
    }
    assert multiset(Versioned(x)) == multiset(Versioned(y));
    SameMultiset(Versioned(x), Versioned(y));
    CandidatesAreVersioned(x);
    CandidatesAreVersioned(y);
  }

  // ---- What the tree walk sees ----

  /** The outcome of the TXT query for one name. */
  datatype Txt = Strings(records: seq<string>) | NameNotFound | QueryFailed(temporary: bool)

  function LookupOf(txt: Txt, reports: UriList): Lookup {
    match txt
    case QueryFailed(temporary) => Fails(temporary)
    case NameNotFound => NoRecord
    case Strings(records) =>
      match Selected(records, reports)
      case Ignored => NoRecord
      case Malformed => Fails(false)
      case Read(record) => Found(record)
  }

  function ZoneLookup(zone: Domain -> Txt, reports: UriList): Domain -> Lookup {
    (d: Domain) => LookupOf(zone(d), reports)
  }

  function StringsOf(txt: Txt): seq<string> { if txt.Strings? then txt.records else [] }

  /** The same failure, or the same versioned strings; a missing name is one without strings. */
  ghost predicate SameNews(a: Txt, b: Txt) {
    if a.QueryFailed? || b.QueryFailed? then a == b else SameVersioned(StringsOf(a), StringsOf(b))
  }

  lemma NewsReadAlike(a: Txt, b: Txt, reports: UriList)
    requires SameNews(a, b)
    ensures LookupOf(a, reports) == LookupOf(b, reports)
  {
    if !a.QueryFailed? {
      OrderOfStringsIsIrrelevant(StringsOf(a), StringsOf(b), reports);
      assert Selected([], reports) == Ignored;
    }
  }

  lemma {:induction false} WalkReadsAnswers(lookup: Domain -> Lookup, other: Domain -> Lookup, targets: seq<Domain>)
    requires forall t :: t in targets ==> lookup(t) == other(t)
    ensures WalkOver(lookup, targets) == WalkOver(other, targets)
  {
    if targets != [] {
      assert targets[0] in targets;
      WalkReadsAnswers(lookup, other, targets[1..]);
    }
  }

  /** So a whole walk, and with it the organizational domain, depends on the versioned strings of the
      names it asks about and on nothing else of the zone. */
  lemma WalkReadsVersionedStrings(
    ps: Domain -> nat, zone: Domain -> Txt, other: Domain -> Txt, reports: UriList, d: Domain)
    requires d != [] ==> 1 <= ps(d)
    requires forall t :: t in Targets(ps, d) ==> SameNews(zone(t), other(t))
    ensures WalkTree(ps, ZoneLookup(zone, reports), d) == WalkTree(ps, ZoneLookup(other, reports), d)
  {
    forall t | t in Targets(ps, d) ensures ZoneLookup(zone, reports)(t) == ZoneLookup(other, reports)(t) {
      NewsReadAlike(zone(t), other(t), reports);
    }
    WalkReadsAnswers(ZoneLookup(zone, reports), ZoneLookup(other, reports), Targets(ps, d));
  }
}
