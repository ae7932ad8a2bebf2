/** DKIM-Signature header fields: reading them off a message line by line, and their tag lists. */
module DkimTags {
  import opened GoStrings

  type TagMap = map<string, string>

  // ---- Tag lists ----

  /** One entry of a tag list: a named value, or nothing. */
  function EntryTag(entry: string): Option<(string, string)> {
    match Cut(entry, '=')
    case None => None
    case Some((name, value)) => if Norm(name) == "" then None else Some((Norm(name), TrimSpace(value)))
  }

  /** Later entries win. */
  function Tags(entries: seq<string>): TagMap {
    if entries == [] then map[]
    else
      var before := Tags(entries[..|entries| - 1]);
      match EntryTag(entries[|entries| - 1])
      case None => before
      case Some((name, value)) => before[name := value]
  }

  function TagValues(s: string): TagMap { Tags(Split(s, ';')) }

  method ParseTagValues(s: string) returns (values: TagMap)
    ensures values == TagValues(s)
  {
    var entries := Split(s, ';');
    values := map[];
    for i := 0 to |entries|
      invariant values == Tags(entries[..i])
    {
      assert entries[..i + 1][..i] == entries[..i];
      var cut := Cut(entries[i], '=');
      if cut.Some? {
        var name := Norm(cut.value.0);
        if name != "" {
          values := values[name := TrimSpace(cut.value.1)];
        }
      }
    }
    assert entries[..|entries|] == entries;
  }

  predicate Sets(entry: string, name: string) { EntryTag(entry).Some? && EntryTag(entry).value.0 == name }

  /** Entry `i` is the last to name a tag. */
  predicate LastToSet(entries: seq<string>, name: string, i: nat) {
    i < |entries| && Sets(entries[i], name) && forall j :: i < j < |entries| ==> !Sets(entries[j], name)
  }

  /** An entry reads as its name in lower case and its value, both without the blanks around them; one without a
      name or without an equals sign reads as nothing. */
  lemma EntryReads(name: string, value: string)
    requires '=' !in name
    ensures EntryTag(name + "=" + value) ==
      if TrimSpace(name) == "" then None else Some((ToLower(TrimSpace(name)), TrimSpace(value)))
    ensures EntryTag(name) == None
  {
    CutFirst(name, '=', value);
    CutFinds(name, '=');
  }

  lemma TagsSnoc(entries: seq<string>, last: string, name: string)
    ensures Sets(last, name) ==>
      name in Tags(entries + [last]) && Tags(entries + [last])[name] == EntryTag(last).value.1
    ensures !Sets(last, name) ==> (name in Tags(entries + [last]) <==> name in Tags(entries))
    ensures !Sets(last, name) && name in Tags(entries) ==> Tags(entries + [last])[name] == Tags(entries)[name]
  {
    assert (entries + [last])[..|entries|] == entries;
  }

  /** A tag has the value of the last entry that names it, and is missing when none does. */
  lemma {:induction false} LastEntryWins(entries: seq<string>, name: string)
    ensures (forall i :: 0 <= i < |entries| ==> !Sets(entries[i], name)) ==> name !in Tags(entries)
    ensures forall i: nat :: LastToSet(entries, name, i) ==>
      name in Tags(entries) && Tags(entries)[name] == EntryTag(entries[i]).value.1
  {
    if entries != [] {
      var init, last := entries[..|entries| - 1], entries[|entries| - 1];
      LastEntryWins(init, name);
      TagsSnoc(init, last, name);
      assert entries == init + [last];
      forall i: nat | LastToSet(entries, name, i)
        ensures name in Tags(entries) && Tags(entries)[name] == EntryTag(entries[i]).value.1
      {
        if i < |init| {
          assert !Sets(entries[|init|], name);
          assert LastToSet(init, name, i);
        }
      }
      if forall i :: 0 <= i < |entries| ==> !Sets(entries[i], name) {
        assert forall i :: 0 <= i < |init| ==> init[i] == entries[i];
        assert !Sets(entries[|init|], name);
      }
    }
  }

  // ---- Two texts with the same tags ----

  /** Entry by entry the same tags. */
  predicate Alike(a: seq<string>, b: seq<string>) {
    |a| == |b| && forall i :: 0 <= i < |a| ==> EntryTag(a[i]) == EntryTag(b[i])
  }

  predicate SameTags(s: string, t: string) { Alike(Split(s, ';'), Split(t, ';')) }

  lemma {:induction false} AlikeTags(a: seq<string>, b: seq<string>)
    requires Alike(a, b)
    ensures Tags(a) == Tags(b)
  {
    if a != [] {
      AlikeTags(a[..|a| - 1], b[..|b| - 1]);
    }
  }

  lemma SameTagsJoin(a: string, b: string, c: string, d: string)
    requires SameTags(a, b) && SameTags(c, d)
    ensures SameTags(a + [';'] + c, b + [';'] + d)
  {
    SplitConcat(a, ';', c);
    SplitConcat(b, ';', d);
  }

  predicate Blank(c: char) { c == ' ' || c == '\t' }

  lemma BlankEntry(c: char, entry: string)
    requires Blank(c)
    ensures EntryTag([c] + entry) == EntryTag(entry)
  {
    var s := [c] + entry;
    assert s[1..] == entry;
    match Cut(entry, '=') {
      case None =>
      case Some((name, value)) =>
        assert Cut(s, '=') == Some(([c] + name, value));
        assert ([c] + name)[1..] == name;
        assert TrimLeft([c] + name) == TrimLeft(name);
    }
  }

  lemma BlankInFront(c: char, s: string)
    requires Blank(c)
    ensures SameTags([c] + s, s)
  {
    assert ([c] + s)[1..] == s;
    var parts := Split(s, ';');
    assert Split([c] + s, ';') == [[c] + parts[0]] + parts[1..];
    BlankEntry(c, parts[0]);
  }

  function TrimBlanks(s: string): string {
    if s != "" && Blank(s[0]) then TrimBlanks(s[1..]) else s
  }

  lemma {:induction false} TrimmedAlike(s: string)
    ensures SameTags(TrimBlanks(s), s)
  {
    if s != "" && Blank(s[0]) {
      TrimmedAlike(s[1..]);
      BlankInFront(s[0], s[1..]);
      assert [s[0]] + s[1..] == s;
    }
  }

  lemma {:induction false} TrimBlanksKeepsEnd(s: string, t: string)
    requires t != "" && !Blank(t[0])
    ensures TrimBlanks(s + t) == TrimBlanks(s) + t
  {
    if s == "" {
      assert s + t == t;
    } else if Blank(s[0]) {
      TrimBlanksKeepsEnd(s[1..], t);
      assert (s + t)[1..] == s[1..] + t;
    }
  }

  // ---- Folding ----

  /** A header value with its continuation lines appended as the reader appends them. */
  function Joined(v: string, folds: seq<string>): string
    decreases |folds|
  {
    if folds == [] then v else Joined(v + " " + TrimBlanks(folds[0]), folds[1..])
  }

  function Concat(v: string, folds: seq<string>): string
    decreases |folds|
  {
    if folds == [] then v else Concat(v + folds[0], folds[1..])
  }

  predicate EndsEntry(s: string) { s != "" && s[|s| - 1] == ';' }

  predicate FoldedAtTags(folds: seq<string>) {
    forall i :: 0 <= i < |folds| - 1 ==> EndsEntry(folds[i])
  }

  function Open(s: string): string
    requires s != ""
  {
    s[..|s| - 1]
  }

  /** Two texts that end an entry and have the same tags. */
  predicate EndAlike(v: string, u: string) { EndsEntry(v) && EndsEntry(u) && SameTags(Open(v), Open(u)) }

  predicate AllBlank(s: string) { forall i :: 0 <= i < |s| ==> Blank(s[i]) }

  /** Two texts that may be folded after: both end an entry, or neither has begun one. */
  predicate Foldable(v: string, u: string) { EndAlike(v, u) || (AllBlank(v) && AllBlank(u)) }

  lemma {:induction false} BlanksInFront(w: string, s: string)
    requires AllBlank(w)
    ensures SameTags(w + s, s)
  {
    if w == "" {
      assert w + s == s;
    } else {
      BlanksInFront(w[1..], s);
      BlankInFront(w[0], w[1..] + s);
      assert w + s == [w[0]] + (w[1..] + s);
    }
  }

  lemma FoldBlank(v: string, u: string, f: string)
    requires AllBlank(v) && AllBlank(u)
    ensures SameTags(v + " " + TrimBlanks(f), u + f)
  {
    TrimmedAlike(f);
    BlanksInFront(v + " ", TrimBlanks(f));
    BlanksInFront(u, f);
  }

  lemma FoldEnd(v: string, u: string, f: string)
    requires EndAlike(v, u)
    ensures SameTags(v + " " + TrimBlanks(f), u + f)
  {
    JoinLine(Open(v), Open(u), f);
    assert v == Open(v) + [';'] && u == Open(u) + [';'];
    assert v + " " + TrimBlanks(f) == Open(v) + [';'] + ([' '] + TrimBlanks(f));
  }

  /** Appending a folded line. */
  lemma FoldLast(v: string, u: string, f: string)
    requires Foldable(v, u)
    ensures SameTags(v + " " + TrimBlanks(f), u + f)
  {
    if EndAlike(v, u) {
      FoldEnd(v, u, f);
    } else {
      FoldBlank(v, u, f);
    }
  }

  lemma FoldMiddle(v: string, u: string, f: string)
    requires Foldable(v, u) && EndsEntry(f)
    ensures EndAlike(v + " " + TrimBlanks(f), u + f)
  {
    var g := Open(f);
    assert f == g + [';'];
    TrimBlanksKeepsEnd(g, [';']);
    FoldLast(v, u, g);
    assert v + " " + TrimBlanks(f) == (v + " " + TrimBlanks(g)) + [';'];
    assert u + f == (u + g) + [';'];
    OpenOf(v + " " + TrimBlanks(g));
    OpenOf(u + g);
  }

  lemma OpenOf(s: string)
    ensures EndsEntry(s + [';']) && Open(s + [';']) == s
  {
  }

  lemma JoinLine(a: string, b: string, f: string)
    requires SameTags(a, b)
    ensures SameTags(a + [';'] + ([' '] + TrimBlanks(f)), b + [';'] + f)
  {
    TrimmedAlike(f);
    BlankInFront(' ', TrimBlanks(f));
    SameTagsJoin(a, b, [' '] + TrimBlanks(f), f);
  }

  lemma {:induction false} FoldingKeepsTags(v: string, u: string, folds: seq<string>)
    requires folds != [] && FoldedAtTags(folds) && Foldable(v, u)
    ensures SameTags(Joined(v, folds), Concat(u, folds))
    decreases |folds|
  {
    if |folds| > 1 {
      FoldMiddle(v, u, folds[0]);
      assert forall i :: 0 <= i < |folds[1..]| - 1 ==> folds[1..][i] == folds[i + 1];
      FoldingKeepsTags(v + " " + TrimBlanks(folds[0]), u + folds[0], folds[1..]);
    } else {
      FoldLast(v, u, folds[0]);
      assert folds[1..] == [];
    }
  }

  // ---- Reading the header block ----

  predicate Continuation(line: string) { line != "" && Blank(line[0]) }

  /** The value of a DKIM-Signature line, if it is one. */
  function SignatureValue(line: string): Option<string> {
    match Cut(line, ':')
    case None => None
    case Some((name, value)) =>
      if name != "" && ToLower(TrimSpace(name)) == "dkim-signature" then Some(TrimBlanks(value)) else None
  }

  function FoldRun(lines: seq<string>): (n: nat)
    ensures n <= |lines| && (forall i :: 0 <= i < n ==> Continuation(lines[i]))
    ensures n < |lines| ==> !Continuation(lines[n])
  {
    if lines != [] && Continuation(lines[0]) then 1 + FoldRun(lines[1..]) else 0
  }

  /** Header fields up to the first empty line: one tag map for each DKIM-Signature field, in order. */
  function Signatures(lines: seq<string>): seq<TagMap>
    decreases |lines|
  {
    if lines == [] || lines[0] == "" then []
    else if Continuation(lines[0]) then Signatures(lines[1..])
    else
      var n := FoldRun(lines[1..]);
      FieldTags(lines[0], lines[1..][..n]) + Signatures(lines[1..][n..])
  }

  function FieldTags(line: string, folds: seq<string>): seq<TagMap> {
    match SignatureValue(line)
    case None => []
    case Some(v) => [TagValues(Joined(v, folds))]
  }

  function Continued(open: bool, header: string, line: string): string {
    if open then header + " " + TrimBlanks(line) else header
  }

  /** What a scanner part way through the lines still adds: `open` says a signature is being read. */
  function Rest(open: bool, header: string, lines: seq<string>): seq<TagMap>
    decreases |lines|
  {
    if lines == [] || lines[0] == "" then Flushed(open, header)
    else if Continuation(lines[0]) then Rest(open, Continued(open, header, lines[0]), lines[1..])
    else
      match SignatureValue(lines[0])
      case None => Flushed(open, header) + Rest(false, "", lines[1..])
      case Some(v) => Flushed(open, header) + Rest(true, v, lines[1..])
  }

  function Flushed(open: bool, header: string): seq<TagMap> { if open then [TagValues(header)] else [] }

  lemma {:induction false} SkipFolds(lines: seq<string>)
    ensures Signatures(lines) == Signatures(lines[FoldRun(lines)..])
  {
    if lines != [] && Continuation(lines[0]) {
      SkipFolds(lines[1..]);
      assert lines[FoldRun(lines)..] == lines[1..][FoldRun(lines[1..])..];
    } else {
      assert lines[0..] == lines;
    }
  }

  /** The scanner, line by line, adds exactly the fields still to come, the open one first. */
  lemma {:induction false} RestIsFields(open: bool, header: string, lines: seq<string>)
    ensures var n := FoldRun(lines);
      Rest(open, header, lines) == (if open then [TagValues(Joined(header, lines[..n]))] else [])
        + Signatures(lines[n..])
    decreases |lines|
  {
    var n := FoldRun(lines);
    if lines == [] || lines[0] == "" {
      assert lines[..n] == [] && lines[n..] == lines;
    } else if Continuation(lines[0]) {
      RestIsFields(open, Continued(open, header, lines[0]), lines[1..]);
      assert lines[n..] == lines[1..][n - 1..];
      assert lines[..n][0] == lines[0] && lines[..n][1..] == lines[1..][..n - 1];
    } else {
      assert lines[..n] == [] && lines[n..] == lines;
      NextField(lines);
      match SignatureValue(lines[0]) {
        case None => RestIsFields(false, "", lines[1..]);
        case Some(v) => RestIsFields(true, v, lines[1..]);
      }
    }
  }

  lemma RestStep(open: bool, header: string, lines: seq<string>)
    requires lines != []
    ensures lines[0] == "" ==> Rest(open, header, lines) == Flushed(open, header)
    ensures lines[0] != "" && Blank(lines[0][0]) ==>
      Rest(open, header, lines) == Rest(open, Continued(open, header, lines[0]), lines[1..])
    ensures lines[0] != "" && !Blank(lines[0][0]) ==> var value := SignatureValue(lines[0]);
      Rest(open, header, lines) == Flushed(open, header)
        + Rest(value.Some?, if value.Some? then value.value else "", lines[1..])
  {
  }

  lemma NextField(lines: seq<string>)
    requires lines != [] && lines[0] != "" && !Continuation(lines[0])
    ensures var n := FoldRun(lines[1..]);
      Signatures(lines) == FieldTags(lines[0], lines[1..][..n]) + Signatures(lines[1..][n..])
  {
  }

  lemma CutAt(lines: seq<string>, i: nat)
    requires i < |lines|
    ensures lines[i..] == [lines[i]] + lines[i + 1..] && lines[i..][0] == lines[i]
    ensures lines[..i + 1] == lines[..i] + [lines[i]]
  {
  }

  lemma RestAtEnd(open: bool, header: string, lines: seq<string>)
    requires lines == [] || lines[0] == ""
    ensures Rest(open, header, lines) == Flushed(open, header)
  {
  }

  /** The line scanner: `failed` says it stopped with an error after these lines, which matters only if
      no empty line came first. */
  method DkimSignatureTags(lines: seq<string>, failed: bool) returns (signatures: seq<TagMap>)
    ensures signatures == if failed && "" !in lines then [] else Signatures(lines)
  {
    signatures := ScanLines(lines, failed);
    SkipFolds(lines);
    RestIsFields(false, "", lines);
  }

  method ScanLines(lines: seq<string>, failed: bool) returns (signatures: seq<TagMap>)
    ensures signatures == if failed && "" !in lines then [] else Rest(false, "", lines)
  {
    signatures := [];
    var header := "";
    var inDkim := false;
    ghost var all := Rest(false, "", lines);
    assert lines[0..] == lines;
    for i := 0 to |lines|
      invariant signatures + Rest(inDkim, header, lines[i..]) == all
      invariant "" !in lines[..i]
    {
      var line := lines[i];
      CutAt(lines, i);
      if line == "" {
        RestAtEnd(inDkim, header, lines[i..]);
        signatures := Flush(inDkim, header, signatures);
        return;
      }
      inDkim, header, signatures := ScanLine(line, inDkim, header, signatures, lines[i + 1..]);
    }
    assert lines[..|lines|] == lines;
    if failed {
      return [];
    }
    RestAtEnd(inDkim, header, lines[|lines|..]);
    signatures := Flush(inDkim, header, signatures);
  }

  /** One non-empty line: a continuation, or the start of another field. */
  method ScanLine(line: string, inDkim: bool, header: string, before: seq<TagMap>, ghost rest: seq<string>)
    returns (inDkim': bool, header': string, signatures: seq<TagMap>)
    requires line != ""
    ensures signatures + Rest(inDkim', header', rest) == before + Rest(inDkim, header, [line] + rest)
  {
    RestStep(inDkim, header, [line] + rest);
    assert ([line] + rest)[1..] == rest;
    inDkim', header', signatures := inDkim, header, before;
    if Blank(line[0]) {
      if inDkim {
        header' := header + " " + TrimBlanks(line);
      }
    } else {
      signatures := Flush(inDkim, header, before);
      var value := SignatureValue(line);
      inDkim' := value.Some?;
      header' := if value.Some? then value.value else "";
    }
  }

  method Flush(inDkim: bool, header: string, before: seq<TagMap>) returns (signatures: seq<TagMap>)
    ensures signatures == before + Flushed(inDkim, header)
  {
    if !inDkim {
      return before;
    }
    var values := ParseTagValues(header);
    signatures := before + [values];
  }

  // ---- Fields ----

  datatype Field = Field(line: string, folds: seq<string>)

  predicate WellFormed(f: Field) {
    f.line != "" && !Blank(f.line[0]) && forall i :: 0 <= i < |f.folds| ==> Continuation(f.folds[i])
  }

  predicate AllWellFormed(fs: seq<Field>) { forall i :: 0 <= i < |fs| ==> WellFormed(fs[i]) }

  function Lines(fs: seq<Field>): seq<string> {
    if fs == [] then [] else [fs[0].line] + fs[0].folds + Lines(fs[1..])
  }

  function FieldsTags(fs: seq<Field>): seq<TagMap> {
    if fs == [] then [] else FieldTags(fs[0].line, fs[0].folds) + FieldsTags(fs[1..])
  }

  lemma {:induction false} FoldRunOf(folds: seq<string>, rest: seq<string>)
    requires forall i :: 0 <= i < |folds| ==> Continuation(folds[i])
    requires rest == [] || !Continuation(rest[0])
    ensures FoldRun(folds + rest) == |folds|
  {
    if folds != [] {
      FoldRunOf(folds[1..], rest);
      assert (folds + rest)[1..] == folds[1..] + rest;
    } else {
      assert folds + rest == rest;
    }
  }

  /** The reader sees the fields of a header block as they were written: one map per DKIM-Signature
      field, in order, whatever follows the empty line. */
  lemma {:induction false} ReadsFieldByField(fs: seq<Field>, body: seq<string>)
    requires AllWellFormed(fs)
    ensures Signatures(Lines(fs) + [""] + body) == FieldsTags(fs)
  {
    if fs == [] {
      assert (Lines(fs) + [""] + body)[0] == "";
    } else {
      var f, after := fs[0], Lines(fs[1..]) + [""] + body;
      assert WellFormed(f) && AllWellFormed(fs[1..]);
      assert Lines(fs) + [""] + body == [f.line] + (f.folds + after);
      NextIsNoFold(fs[1..], body);
      ReadsOneField(f, after);
      ReadsFieldByField(fs[1..], body);
    }
  }

  lemma ReadsOneField(f: Field, after: seq<string>)
    requires WellFormed(f) && (after == [] || !Continuation(after[0]))
    ensures Signatures([f.line] + (f.folds + after)) == FieldTags(f.line, f.folds) + Signatures(after)
  {
    var all := [f.line] + (f.folds + after);
    assert all[1..] == f.folds + after;
    FoldRunOf(f.folds, after);
    NextField(all);
    assert (f.folds + after)[..|f.folds|] == f.folds && (f.folds + after)[|f.folds|..] == after;
  }

  lemma NextIsNoFold(fs: seq<Field>, body: seq<string>)
    requires AllWellFormed(fs)
    ensures !Continuation((Lines(fs) + [""] + body)[0])
  {
    if fs != [] {
      assert WellFormed(fs[0]);
      assert (Lines(fs) + [""] + body)[0] == fs[0].line;
    }
  }

  predicate IsSignature(f: Field) { SignatureValue(f.line).Some? }

  function CountSignatures(fs: seq<Field>): nat {
    if fs == [] then 0 else (if IsSignature(fs[0]) then 1 else 0) + CountSignatures(fs[1..])
  }

  lemma {:induction false} OneMapPerSignature(fs: seq<Field>)
    ensures |FieldsTags(fs)| == CountSignatures(fs)
  {
    if fs != [] {
      OneMapPerSignature(fs[1..]);
    }
  }

  lemma {:induction false} TrimmedBlanks(s: string)
    requires AllBlank(s)
    ensures TrimBlanks(s) == ""
  {
    if s != "" {
      TrimmedBlanks(s[1..]);
    }
  }

  lemma TrimmedStaysFoldable(v: string)
    requires EndsEntry(v) || AllBlank(v)
    ensures Foldable(TrimBlanks(v), v)
  {
    if AllBlank(v) {
      TrimmedBlanks(v);
    } else {
      var w := Open(v);
      assert v == w + [';'];
      TrimBlanksKeepsEnd(w, [';']);
      TrimmedAlike(w);
      OpenOf(TrimBlanks(w));
    }
  }

  /** Where a DKIM-Signature field is folded does not matter as long as it is folded between tags, or right
      after the colon: it reads like the same field on one line. */
  lemma FoldedReadsLikeUnfolded(name: string, v: string, folds: seq<string>)
    requires ':' !in name && name != "" && ToLower(TrimSpace(name)) == "dkim-signature"
    requires (EndsEntry(v) || AllBlank(v)) && FoldedAtTags(folds)
    ensures FieldTags(name + ":" + v, folds) == FieldTags(name + ":" + Concat(v, folds), []) ==
      [TagValues(Concat(v, folds))]
  {
    ReadsValue(name, v, folds);
    ReadsValue(name, Concat(v, folds), []);
    var one := Concat(v, folds);
    TrimmedAlike(one);
    AlikeTags(Split(TrimBlanks(one), ';'), Split(one, ';'));
    if folds != [] {
      TrimmedStaysFoldable(v);
      FoldingKeepsTags(TrimBlanks(v), v, folds);
      AlikeTags(Split(Joined(TrimBlanks(v), folds), ';'), Split(one, ';'));
    }
  }

  lemma ReadsValue(name: string, v: string, folds: seq<string>)
    requires ':' !in name && name != "" && ToLower(TrimSpace(name)) == "dkim-signature"
    ensures FieldTags(name + ":" + v, folds) == [TagValues(Joined(TrimBlanks(v), folds))]
  {
    CutFirst(name, ':', v);
  }
}
