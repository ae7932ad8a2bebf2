/** What the text of a DMARC policy record says, tag by tag, and that a written record reads back. */
module DmarcText {
  import opened GoStrings
  import opened DmarcTree
  import opened DmarcRecord

  // ---- One entry ----

  /** An entry reads as its name in lower case and its value, both without the blanks around them; a missing
      name, or an empty value of any tag but the two policies, spoils the record. */
  lemma TagReads(name: string, value: string)
    requires '=' !in name
    ensures var k, v := ToLower(TrimSpace(name)), TrimSpace(value);
      TagOf(name + "=" + value) == if k == "" || (v == "" && k != "p" && k != "sp") then BadTag else Tag(k, v)
  {
    CutFirst(name, '=', value);
  }

  /** An entry without an equals sign spoils the record. */
  lemma NoEqualsNoTag(piece: string)
    requires '=' !in piece
    ensures TagOf(piece) == BadTag
  {
    CutFinds(piece, '=');
  }

  /** A string is versioned when its first entry is the version tag, in any letter case of the name and with
      any blanks. */
  lemma VersionReads(name: string, value: string, rest: string)
    requires '=' !in name && ';' !in name && ';' !in value && (rest == "" || rest[0] == ';')
    requires TrimSpace(name + "=" + value + rest) == name + "=" + value + rest
    ensures HasVersion(name + "=" + value + rest) <==>
      ToLower(TrimSpace(name)) == "v" && TrimSpace(value) == "DMARC1"
  {
    var first := name + "=" + value;
    assert ';' !in first;
    if rest == "" {
      assert first + rest == first;
      SplitNoSep(first, ';');
    } else {
      assert first + rest == first + [';'] + rest[1..];
      SplitCons(first, ';', rest[1..]);
    }
    CutFirst(name, '=', value);
  }

  // ---- The whole list ----

  predicate IsPolicyWord(word: string) { word == "none" || word == "quarantine" || word == "reject" }

  /** The list gives the tag a word, in any letter case. */
  ghost predicate GivesWord(ts: seq<Tag>, name: string, word: string) {
    exists v :: Tag(name, v) in ts && ToLower(v) == word
  }

  /** The two policy tags, where given, are policy words. */
  ghost predicate PoliciesReadable(ts: seq<Tag>) {
    forall name, v :: (name == "p" || name == "sp") && Tag(name, v) in ts ==> IsPolicyWord(ToLower(v))
  }

  lemma ValueIs(ts: seq<Tag>, name: string)
    requires Proper(ts)
    ensures forall v :: Value(Values(ts), name) == Some(v) <==> Tag(name, v) in ts
    ensures Value(Values(ts), name) == None <==> forall v :: Tag(name, v) !in ts
  {
    forall v ensures Value(Values(ts), name) == Some(v) <==> Tag(name, v) in ts {
      ValuesHold(ts, name, v);
    }
  }

  /** What a proper list with readable policies says: each field from its own tag, with the defaults of
      a monitoring policy, relaxed alignment and no statement about public suffixes. */
  lemma ListReads(ts: seq<Tag>, reports: UriList)
    requires Proper(ts) && PoliciesReadable(ts)
    ensures Parsed(ts, reports).Read?
    ensures var r := Parsed(ts, reports).record;
      && (r.policy == PolicyReject <==> GivesWord(ts, "p", "reject"))
      && (r.policy == PolicyQuarantine <==> GivesWord(ts, "p", "quarantine"))
      && (r.subdomainPolicy == Some(PolicyReject) <==> GivesWord(ts, "sp", "reject"))
      && (r.subdomainPolicy == Some(PolicyQuarantine) <==> GivesWord(ts, "sp", "quarantine"))
      && (r.subdomainPolicy == Some(PolicyNone) <==> GivesWord(ts, "sp", "none"))
      && (r.spfStrict <==> GivesWord(ts, "aspf", "s"))
      && (r.dkimStrict <==> GivesWord(ts, "adkim", "s"))
      && (r.psd == PsdY <==> GivesWord(ts, "psd", "y"))
      && (r.psd == PsdN <==> GivesWord(ts, "psd", "n"))
  {
    ValueIs(ts, "p");
    ValueIs(ts, "sp");
    ValueIs(ts, "aspf");
    ValueIs(ts, "adkim");
    ValueIs(ts, "psd");
  }

  /** An unreadable policy leaves a monitoring record with every default if the list of report addresses
      holds a usable one, and no record otherwise. */
  lemma UnreadablePolicy(ts: seq<Tag>, reports: UriList, name: string, v: string, rua: string)
    requires Proper(ts) && (name == "p" || name == "sp") && Tag(name, v) in ts && !IsPolicyWord(ToLower(v))
    requires Tag("rua", rua) in ts || (rua == "" && forall u :: Tag("rua", u) !in ts)
    ensures Parsed(ts, reports) ==
      if reports(rua) then Read(Record(PolicyNone, None, false, false, PsdU)) else Ignored
  {
    ValueIs(ts, name);
    ValueIs(ts, "rua");
  }

  // ---- Writing a record ----

  function Joined(parts: seq<string>): string
    requires parts != []
  {
    if |parts| == 1 then parts[0] else Joined(parts[..|parts| - 1]) + ";" + parts[|parts| - 1]
  }

  lemma {:induction false} SplitOfJoined(parts: seq<string>)
    requires parts != [] && forall p :: p in parts ==> ';' !in p
    ensures Split(Joined(parts), ';') == parts
  {
    var init, last := parts[..|parts| - 1], parts[|parts| - 1];
    assert last in parts;
    SplitNoSep(last, ';');
    if init == [] {
      assert parts == [last];
    } else {
      forall p | p in init ensures p in parts {}
      SplitOfJoined(init);
      SplitConcat(Joined(init), ';', last);
      assert parts == init + [last];
    }
  }

  /** A list of entries reads as the tags of the entries that are not blank. */
  lemma TextReads(parts: seq<string>, reports: UriList)
    requires parts != [] && forall p :: p in parts ==> ';' !in p
    ensures ParseRecord(Joined(parts), reports) == Parsed(TagsOf(Pieces(parts)), reports)
  {
    SplitOfJoined(parts);
  }

  function Word(p: Policy): string {
    match p
    case PolicyNone => "none"
    case PolicyQuarantine => "quarantine"
    case PolicyReject => "reject"
  }

  function PsdWord(p: Psd): string { match p case PsdY => "y" case PsdN => "n" case PsdU => "u" }

  function FlagWord(strict: bool): string { if strict then "s" else "r" }

  function SubdomainTag(sp: Option<Policy>): seq<Tag> { if sp.Some? then [Tag("sp", Word(sp.value))] else [] }

  /** The tags of a record, in the usual order. */
  function TagsFor(r: Record): seq<Tag> {
    [Tag("v", "DMARC1")] + [Tag("p", Word(r.policy))]
    + SubdomainTag(r.subdomainPolicy)
    + [Tag("aspf", FlagWord(r.spfStrict))] + [Tag("adkim", FlagWord(r.dkimStrict))] + [Tag("psd", PsdWord(r.psd))]
  }

  /** A tag that can be written: lower-case, with no blanks around and no separators. */
  predicate Writable(t: Tag) {
    && t.Tag? && t.key != "" && t.value != "" && Norm(t.key) == t.key && TrimSpace(t.value) == t.value
    && '=' !in t.key && ';' !in t.key && ';' !in t.value
  }

  predicate AllWritable(ts: seq<Tag>) { forall i :: 0 <= i < |ts| ==> Writable(ts[i]) }

  function Entry(t: Tag): string
    requires Writable(t)
  {
    t.key + "=" + t.value
  }

  function Entries(ts: seq<Tag>): seq<string>
    requires AllWritable(ts)
  {
    seq(|ts|, i requires 0 <= i < |ts| => Entry(ts[i]))
  }

  /** The text the way operators write it: a blank in front of every entry. */
  function Texts(ts: seq<Tag>): seq<string>
    requires AllWritable(ts)
  {
    seq(|ts|, i requires 0 <= i < |ts| => " " + Entry(ts[i]))
  }

  lemma TrimsFront(s: string)
    requires s != "" && !IsSpace(s[0]) && !IsSpace(s[|s| - 1])
    ensures TrimSpace(" " + s) == s
  {
    var t := " " + s;
    assert t[1..] == s;
    assert TrimLeft(t) == TrimLeft(s) == s;
  }

  lemma NormHasNoBlank(s: string)
    requires s != "" && Norm(s) == s
    ensures !IsSpace(s[0])
  {
    var t := TrimSpace(s);
    LowerCharFacts(t[0]);
    assert ToLower(t)[0] == LowerChar(t[0]);
  }

  lemma EntryReads(t: Tag)
    requires Writable(t)
    ensures TrimSpace(" " + Entry(t)) == Entry(t) && TagOf(Entry(t)) == t
    ensures ';' !in " " + Entry(t)
  {
    var s := t.key + "=" + t.value;
    NormHasNoBlank(t.key);
    assert s[|s| - 1] == t.value[|t.value| - 1] && s[0] == t.key[0];
    TrimsFront(s);
    TagReads(t.key, t.value);
  }

  lemma {:induction false} PiecesAre(texts: seq<string>, entries: seq<string>)
    requires |texts| == |entries|
    requires forall i :: 0 <= i < |texts| ==> TrimSpace(texts[i]) == entries[i] && entries[i] != ""
    ensures Pieces(texts) == entries
  {
    if texts != [] {
      PiecesAre(texts[..|texts| - 1], entries[..|entries| - 1]);
      assert entries == entries[..|entries| - 1] + [entries[|entries| - 1]];
    }
  }

  /** A list of tags written out reads as that list. */
  lemma WrittenTags(ts: seq<Tag>, reports: UriList)
    requires ts != [] && AllWritable(ts)
    ensures ParseRecord(Joined(Texts(ts)), reports) == Parsed(ts, reports)
  {
    var texts, entries := Texts(ts), Entries(ts);
    forall i | 0 <= i < |ts|
      ensures ';' !in texts[i] && TrimSpace(texts[i]) == entries[i] != "" && TagOf(entries[i]) == ts[i]
    {
      EntryReads(ts[i]);
    }
    PiecesAre(texts, entries);
    assert TagsOf(entries) == ts;
    TextReads(texts, reports);
  }

  // ---- Every record ----

  lemma LetterWord(s: string)
    requires s != "" && forall i :: 0 <= i < |s| ==> 'a' <= s[i] <= 'z'
    ensures Norm(s) == s && TrimSpace(s) == s && ToLower(s) == s && '=' !in s && ';' !in s
  {
    TrimOfTrimmed(s);
    assert ToLower(s) == s;
  }

  lemma TagForIsWritable(key: string, value: string)
    requires key != "" && forall i :: 0 <= i < |key| ==> 'a' <= key[i] <= 'z'
    requires value != "" && forall i :: 0 <= i < |value| ==> 'a' <= value[i] <= 'z'
    ensures Writable(Tag(key, value)) && ToLower(value) == value
  {
    LetterWord(key);
    LetterWord(value);
  }

  lemma OneIsWritable(key: string, value: string)
    requires key != "" && forall i :: 0 <= i < |key| ==> 'a' <= key[i] <= 'z'
    requires value != "" && forall i :: 0 <= i < |value| ==> 'a' <= value[i] <= 'z'
    ensures AllWritable([Tag(key, value)])
  {
    TagForIsWritable(key, value);
  }

  lemma VersionIsWritable()
    ensures AllWritable([Tag("v", "DMARC1")])
  {
    LetterWord("v");
    TrimOfTrimmed("DMARC1");
  }

  lemma SixWritable(a: seq<Tag>, b: seq<Tag>, c: seq<Tag>, d: seq<Tag>, e: seq<Tag>, f: seq<Tag>)
    requires AllWritable(a) && AllWritable(b) && AllWritable(c) && AllWritable(d) && AllWritable(e) && AllWritable(f)
    ensures AllWritable(a + b + c + d + e + f)
  {
  }

  lemma SubdomainIsWritable(sp: Option<Policy>)
    ensures AllWritable(SubdomainTag(sp))
  {
    if sp.Some? {
      OneIsWritable("sp", Word(sp.value));
    }
  }

  lemma TagsForAreWritable(r: Record)
    ensures AllWritable(TagsFor(r))
  {
    VersionIsWritable();
    OneIsWritable("p", Word(r.policy));
    SubdomainIsWritable(r.subdomainPolicy);
    OneIsWritable("aspf", FlagWord(r.spfStrict));
    OneIsWritable("adkim", FlagWord(r.dkimStrict));
    OneIsWritable("psd", PsdWord(r.psd));
    SixWritable([Tag("v", "DMARC1")], [Tag("p", Word(r.policy))], SubdomainTag(r.subdomainPolicy),
      [Tag("aspf", FlagWord(r.spfStrict))], [Tag("adkim", FlagWord(r.dkimStrict))], [Tag("psd", PsdWord(r.psd))]);
  }

  lemma TagsForAreProper(r: Record)
    ensures Proper(TagsFor(r))
  {
  }

  lemma PoliciesOfTags(r: Record)
    ensures var vs := Values(TagsFor(r));
      && Value(vs, "p") == Some(Word(r.policy))
      && Value(vs, "sp") == if r.subdomainPolicy.Some? then Some(Word(r.subdomainPolicy.value)) else None
  {
    var ts := TagsFor(r);
    TagsForAreProper(r);
    ValueIs(ts, "p");
    ValueIs(ts, "sp");
    assert ts[1] == Tag("p", Word(r.policy));
  }

  lemma FlagsOfTags(r: Record)
    ensures var vs := Values(TagsFor(r));
      && Value(vs, "psd") == Some(PsdWord(r.psd))
      && Value(vs, "aspf") == Some(FlagWord(r.spfStrict))
      && Value(vs, "adkim") == Some(FlagWord(r.dkimStrict))
  {
    var ts := TagsFor(r);
    TagsForAreProper(r);
    ValueIs(ts, "psd");
    ValueIs(ts, "aspf");
    ValueIs(ts, "adkim");
  }

  lemma ValuesReadBack(vs: map<string, string>, r: Record, reports: UriList)
    requires Value(vs, "p") == Some(Word(r.policy)) && Value(vs, "psd") == Some(PsdWord(r.psd))
    requires Value(vs, "sp") == if r.subdomainPolicy.Some? then Some(Word(r.subdomainPolicy.value)) else None
    requires Value(vs, "aspf") == Some(FlagWord(r.spfStrict))
    requires Value(vs, "adkim") == Some(FlagWord(r.dkimStrict))
    ensures RecordOf(vs, reports) == Read(r)
  {
    PolicyReads(r.policy);
    FlagReads(r.spfStrict);
    FlagReads(r.dkimStrict);
    PsdReads(r.psd);
    if r.subdomainPolicy.Some? {
      PolicyReads(r.subdomainPolicy.value);
    }
  }

  lemma PolicyReads(p: Policy)
    ensures ReadPolicy(Some(Word(p))) == Good(p)
  {
    LetterWord(Word(p));
  }

  lemma FlagReads(strict: bool)
    ensures Strict(Some(FlagWord(strict))) == strict
  {
    LetterWord(FlagWord(strict));
  }

  lemma PsdReads(p: Psd)
    ensures DmarcRecord.PsdOf(Some(PsdWord(p))) == p
  {
    LetterWord(PsdWord(p));
  }

  lemma TagsReadBack(r: Record, reports: UriList)
    ensures Parsed(TagsFor(r), reports) == Read(r)
  {
    TagsForAreProper(r);
    PoliciesOfTags(r);
    FlagsOfTags(r);
    ValuesReadBack(Values(TagsFor(r)), r, reports);
  }

  /** Every record, written out tag by tag, reads back as itself. */
  lemma WrittenReadsBack(r: Record, reports: UriList)
    ensures AllWritable(TagsFor(r)) && ParseRecord(Joined(Texts(TagsFor(r))), reports) == Read(r)
  {
    TagsForAreWritable(r);
    WrittenTags(TagsFor(r), reports);
    TagsReadBack(r, reports);
  }
}
