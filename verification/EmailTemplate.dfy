/** The variable-interpolation engine for email templates: parsing, printing, rendering. */
module EmailTemplate {
  import opened GoStrings

  const MAX_SOURCE_BYTES := 256 * 1024
  const MAX_DATA_DEPTH := 8
  const MAX_RENDERED_BYTES := 2 * 1024 * 1024

  datatype Node = Text(text: string) | Tag(ident: string, raw: bool)

  datatype Problem = Unclosed | EmptyTag | ReservedSyntax | InvalidIdentifier

  datatype Nodes = Nodes(nodes: seq<Node>) | SyntaxError(offset: nat, problem: Problem)

  datatype Parsed = Template(nodes: seq<Node>, vars: seq<string>) | TooLarge | ParseError(offset: nat, problem: Problem)

  // ---- Searching ----

  function IndexOf(s: string, sub: string): (i: int)
    ensures -1 <= i && (i >= 0 ==> i + |sub| <= |s|)
  {
    if sub <= s then 0
    else if s == "" then -1
    else
      var rest := IndexOf(s[1..], sub);
      if rest < 0 then -1 else rest + 1
  }

  predicate OccursAt(s: string, sub: string, i: nat) {
    i + |sub| <= |s| && forall k :: 0 <= k < |sub| ==> s[i + k] == sub[k]
  }

  lemma OccursInFront(s: string, sub: string)
    ensures OccursAt(s, sub, 0) <==> sub <= s
  {
    if OccursAt(s, sub, 0) {
      forall k | 0 <= k < |sub| ensures s[k] == sub[k] {
        assert s[0 + k] == sub[k];
      }
    }
  }

  lemma OccursInTail(s: string, sub: string, j: nat)
    requires s != "" && j > 0
    ensures OccursAt(s, sub, j) <==> OccursAt(s[1..], sub, j - 1)
  {
    if OccursAt(s, sub, j) {
      forall k | 0 <= k < |sub| ensures s[1..][j - 1 + k] == sub[k] {
        assert s[j + k] == sub[k];
      }
    }
    if OccursAt(s[1..], sub, j - 1) {
      forall k | 0 <= k < |sub| ensures s[j + k] == sub[k] {
        assert s[1..][j - 1 + k] == sub[k];
      }
    }
  }

  lemma {:induction false} IndexOfIsFirst(s: string, sub: string)
    ensures var i := IndexOf(s, sub);
      && (i >= 0 ==> OccursAt(s, sub, i))
      && forall j: nat :: OccursAt(s, sub, j) ==> 0 <= i <= j
  {
    OccursInFront(s, sub);
    if !(sub <= s) && s != "" {
      IndexOfIsFirst(s[1..], sub);
      var rest := IndexOf(s[1..], sub);
      if rest >= 0 {
        OccursInTail(s, sub, rest + 1);
      }
      forall j: nat | OccursAt(s, sub, j) ensures 0 <= IndexOf(s, sub) <= j {
        if j > 0 {
          OccursInTail(s, sub, j);
        }
      }
    }
  }

  /** The first occurrence is determined by being an occurrence with none before it. */
  lemma IndexOfUnique(s: string, sub: string, i: nat)
    requires OccursAt(s, sub, i) && forall j: nat :: j < i ==> !OccursAt(s, sub, j)
    ensures IndexOf(s, sub) == i
  {
    IndexOfIsFirst(s, sub);
  }

  // ---- Parsing ----

  predicate Alpha(c: char) { 'a' <= c <= 'z' || 'A' <= c <= 'Z' || c == '_' }

  predicate IdentChar(c: char) { Alpha(c) || '0' <= c <= '9' || c == '.' }

  predicate ValidIdent(s: string) {
    s != "" && Alpha(s[0]) && forall c :: c in s ==> IdentChar(c)
  }

  predicate Reserved(c: char) { c == '#' || c == '/' || c == '^' || c == '>' || c == '!' }

  function Opener(raw: bool): string { if raw then "{{{" else "{{" }
  function Closer(raw: bool): string { if raw then "}}}" else "}}" }

  /** What is wrong with the trimmed inside of a tag, if anything. */
  function IdentProblem(ident: string): Option<Problem> {
    if ident == "" then Some(EmptyTag)
    else if Reserved(ident[0]) then Some(ReservedSyntax)
    else if !ValidIdent(ident) then Some(InvalidIdentifier)
    else None
  }

  /** Which insides of a tag are read: a letter or underscore followed by letters, digits, underscores and dots;
      the five structural marks are refused as such, and so are an empty tag and a source beyond its bound. */
  lemma IdentsAre(ident: string)
    ensures IdentProblem(ident) == None <==>
      && ident != "" && (ident[0] == '_' || 'a' <= ident[0] <= 'z' || 'A' <= ident[0] <= 'Z')
      && forall c :: c in ident ==>
           c == '_' || c == '.' || '0' <= c <= '9' || 'a' <= c <= 'z' || 'A' <= c <= 'Z'
    ensures IdentProblem(ident) == Some(ReservedSyntax) <==> ident != "" && ident[0] in "#/^>!"
    ensures IdentProblem(ident) == Some(EmptyTag) <==> ident == ""
    ensures ParseTemplate(ident).TooLarge? <==> |ident| > 262_144
  {
  }

  function WithLiteral(text: string, nodes: seq<Node>): seq<Node> {
    if text == "" then nodes else [Text(text)] + nodes
  }

  /** The next tag of a text: the literal in front of it, and how much of the text both use up. */
  datatype Next = NoTag | BadTag(at: nat, problem: Problem) | GoodTag(text: string, ident: string, raw: bool, used: nat)

  function Braces(raw: bool): nat { if raw then 3 else 2 }

  /** The tag whose opener stands at `open`, up to the first closer. */
  function TagWith(src: string, open: nat, raw: bool, closer: string, check: string -> Option<Problem>): (n: Next)
    requires open + |closer| <= |src|
    ensures n.GoodTag? ==> |n.text| + 2 * |closer| <= n.used <= |src|
  {
    var start := open + |closer|;
    var end := IndexOf(src[start..], closer);
    if end < 0 then BadTag(open, Unclosed)
    else
      var ident := TrimSpace(src[start..start + end]);
      if check(ident).Some? then BadTag(open, check(ident).value)
      else GoodTag(src[..open], ident, raw, start + end + |closer|)
  }

  function TagAt(src: string, open: nat, raw: bool): (n: Next)
    requires open + Braces(raw) <= |src|
    ensures n.GoodTag? ==> |n.text| + 4 <= n.used <= |src|
  {
    assert |Closer(raw)| == Braces(raw);
    TagWith(src, open, raw, Closer(raw), IdentProblem)
  }

  function NextTag(src: string): (n: Next)
    ensures n.GoodTag? ==> |n.text| + 4 <= n.used <= |src|
  {
    var open := IndexOf(src, "{{");
    if open < 0 then NoTag else TagAt(src, open, "{{{" <= src[open..])
  }

  /** A way of finding the next tag that always gets further. */
  ghost predicate Advances(next: string -> Next) {
    forall src :: next(src).GoodTag? ==> 0 < next(src).used <= |src|
  }

  lemma NextTagAdvances()
    ensures Advances(NextTag)
  {
  }

  function ParseWith(next: string -> Next, src: string, offset: nat): Nodes
    requires Advances(next)
    decreases |src|
  {
    match next(src)
    case NoTag => Nodes(WithLiteral(src, []))
    case BadTag(at, problem) => SyntaxError(offset + at, problem)
    case GoodTag(text, ident, raw, used) =>
      After(WithLiteral(text, [Tag(ident, raw)]), ParseWith(next, src[used..], offset + used))
  }

  function ParseFrom(src: string, offset: nat): Nodes {
    NextTagAdvances();
    ParseWith(NextTag, src, offset)
  }

  function After(nodes: seq<Node>, rest: Nodes): Nodes {
    match rest
    case SyntaxError(_, _) => rest
    case Nodes(more) => Nodes(nodes + more)
  }

  function Idents(nodes: seq<Node>): seq<string> {
    if nodes == [] then []
    else
      var init := Idents(nodes[..|nodes| - 1]);
      match nodes[|nodes| - 1]
      case Text(_) => init
      case Tag(ident, _) => init + [ident]
  }

  /** The first appearances, in order. */
  function FirstAppearances(idents: seq<string>): seq<string> {
    if idents == [] then []
    else
      var init := FirstAppearances(idents[..|idents| - 1]);
      if idents[|idents| - 1] in init then init else init + [idents[|idents| - 1]]
  }

  function Vars(nodes: seq<Node>): seq<string> { FirstAppearances(Idents(nodes)) }

  function ParseTemplate(src: string): Parsed {
    if |src| > MAX_SOURCE_BYTES then TooLarge
    else
      match ParseFrom(src, 0)
      case SyntaxError(o, p) => ParseError(o, p)
      case Nodes(nodes) => Template(nodes, Vars(nodes))
  }

  lemma AfterTwice(a: seq<Node>, b: seq<Node>, rest: Nodes)
    ensures After(a, After(b, rest)) == After(a + b, rest)
  {
    if rest.Nodes? {
      assert a + (b + rest.nodes) == a + b + rest.nodes;
    }
  }

  lemma VarsSnoc(nodes: seq<Node>, n: Node)
    ensures Vars(nodes + [n]) ==
      match n
      case Text(_) => Vars(nodes)
      case Tag(ident, _) => if ident in Vars(nodes) then Vars(nodes) else Vars(nodes) + [ident]
  {
    assert (nodes + [n])[..|nodes|] == nodes;
    var ids := Idents(nodes);
    if n.Tag? {
      assert (ids + [n.ident])[..|ids|] == ids;
    }
  }

  lemma VarsOfTag(nodes: seq<Node>, text: string, ident: string, raw: bool)
    ensures Vars(nodes + WithLiteral(text, [Tag(ident, raw)])) ==
      if ident in Vars(nodes) then Vars(nodes) else Vars(nodes) + [ident]
  {
    if text == "" {
      VarsSnoc(nodes, Tag(ident, raw));
    } else {
      assert nodes + WithLiteral(text, [Tag(ident, raw)]) == nodes + [Text(text)] + [Tag(ident, raw)];
      VarsSnoc(nodes, Text(text));
      VarsSnoc(nodes + [Text(text)], Tag(ident, raw));
    }
  }

  lemma VarsOfText(nodes: seq<Node>, text: string)
    ensures Vars(nodes + WithLiteral(text, [])) == Vars(nodes)
  {
    if text == "" {
      assert nodes + [] == nodes;
    } else {
      VarsSnoc(nodes, Text(text));
    }
  }

  /** What a parse from one position has to do with the parse from the next. */
  ghost predicate StepsOn(next: string -> Next, src: string, pos: nat, rest: nat -> Nodes)
    requires pos <= |src|
  {
    match next(src[pos..])
    case NoTag => rest(pos) == Nodes(WithLiteral(src[pos..], []))
    case BadTag(at, problem) => rest(pos) == SyntaxError(pos + at, problem)
    case GoodTag(text, ident, raw, used) => rest(pos) == After(WithLiteral(text, [Tag(ident, raw)]), rest(pos + used))
  }

  /** The parse from each position. */
  function RestFrom(next: string -> Next, src: string): nat -> Nodes
    requires Advances(next)
  {
    (p: nat) => if p <= |src| then ParseWith(next, src[p..], p) else Nodes([])
  }

  lemma ParseSteps(next: string -> Next, src: string, pos: nat)
    requires Advances(next) && pos <= |src|
    ensures StepsOn(next, src, pos, RestFrom(next, src))
  {
    var n := next(src[pos..]);
    if n.GoodTag? {
      assert src[pos..][n.used..] == src[pos + n.used..];
    }
  }

  /** A good tag: its literal and node are appended, and its name noted when it is new; `after` is the parse of
      what follows it. */
  method AddTag(n: Next, nodes: seq<Node>, seen: set<string>, vars: seq<string>, ghost after: Nodes)
    returns (nodes': seq<Node>, seen': set<string>, vars': seq<string>)
    requires n.GoodTag? && vars == Vars(nodes) && forall v :: v in seen <==> v in vars
    ensures After(nodes', after) == After(nodes, After(WithLiteral(n.text, [Tag(n.ident, n.raw)]), after))
    ensures vars' == Vars(nodes') && forall v :: v in seen' <==> v in vars'
  {
    VarsOfTag(nodes, n.text, n.ident, n.raw);
    AfterTwice(nodes, WithLiteral(n.text, [Tag(n.ident, n.raw)]), after);
    nodes', seen', vars' := nodes + WithLiteral(n.text, [Tag(n.ident, n.raw)]), seen, vars;
    if n.ident !in seen {
      seen' := seen + {n.ident};
      vars' := vars + [n.ident];
    }
  }

  /** No further tag, or a bad one: the rest is a literal, or the parse fails there; `here` is its parse. */
  method LastPiece(n: Next, nodes: seq<Node>, ghost vars: seq<string>, rest: string, pos: nat, ghost here: Nodes)
    returns (r: Nodes)
    requires !n.GoodTag? && vars == Vars(nodes)
    requires here == match n
      case NoTag => Nodes(WithLiteral(rest, []))
      case BadTag(at, problem) => SyntaxError(pos + at, problem)
    ensures r == After(nodes, here)
    ensures r.Nodes? ==> vars == Vars(r.nodes)
  {
    if n.BadTag? {
      return SyntaxError(pos + n.at, n.problem);
    }
    VarsOfText(nodes, rest);
    r := Nodes(nodes + WithLiteral(rest, []));
  }

  /** The parser's loop, for any way of finding the next tag. */
  method ParseLoop(next: string -> Next, src: string) returns (r: Nodes, vars: seq<string>)
    requires Advances(next)
    ensures r == ParseWith(next, src, 0)
    ensures r.Nodes? ==> vars == Vars(r.nodes)
  {
    ghost var rest := RestFrom(next, src);
    forall pos: nat | pos <= |src| ensures StepsOn(next, src, pos, rest) {
      ParseSteps(next, src, pos);
    }
    assert src[0..] == src;
    r, vars := ParsePieces(next, src, rest);
  }

  method ParsePieces(next: string -> Next, src: string, ghost rest: nat -> Nodes) returns (r: Nodes, vars: seq<string>)
    requires Advances(next) && forall pos: nat :: pos <= |src| ==> StepsOn(next, src, pos, rest)
    ensures r == rest(0)
    ensures r.Nodes? ==> vars == Vars(r.nodes)
  {
    var nodes: seq<Node>, seen: set<string>, pos: nat := [], {}, 0;
    vars := [];
    AfterNothing(rest(0));
    while true
      invariant pos <= |src|
      invariant rest(0) == After(nodes, rest(pos))
      invariant vars == Vars(nodes)
      invariant forall v :: v in seen <==> v in vars
      decreases |src| - pos
    {
      var n := next(src[pos..]);
      assert StepsOn(next, src, pos, rest);
      if !n.GoodTag? {
        r := LastPiece(n, nodes, vars, src[pos..], pos, rest(pos));
        return r, vars;
      }
      nodes, seen, vars := AddTag(n, nodes, seen, vars, rest(pos + n.used));
      pos := pos + n.used;
    }
  }

  lemma AfterNothing(rest: Nodes)
    ensures After([], rest) == rest
  {
    if rest.Nodes? {
      assert [] + rest.nodes == rest.nodes;
    }
  }

  method Parse(src: string) returns (r: Parsed)
    ensures r == ParseTemplate(src)
  {
    if |src| > MAX_SOURCE_BYTES {
      return TooLarge;
    }
    NextTagAdvances();
    var n, vars := ParseLoop(NextTag, src);
    match n {
      case Nodes(nodes) => r := Template(nodes, vars);
      case SyntaxError(offset, problem) => r := ParseError(offset, problem);
    }
  }

  // ---- Printing, and printing as the parser's inverse ----

  function PrintNode(n: Node): string {
    match n
    case Text(text) => text
    case Tag(ident, raw) => Opener(raw) + ident + Closer(raw)
  }

  function Print(nodes: seq<Node>): string {
    if nodes == [] then "" else PrintNode(nodes[0]) + Print(nodes[1..])
  }

  predicate NoOpener(text: string) { IndexOf(text, "{{") < 0 }

  /** The lists of nodes a template can have: literals and tags as the grammar allows them, no two
      literals in a row, no opener inside a literal, and no literal ending in a brace before a tag. */
  predicate Canonical(nodes: seq<Node>) {
    nodes != [] ==>
      && Canonical(nodes[1..])
      && match nodes[0]
         case Tag(ident, _) => ValidIdent(ident)
         case Text(text) =>
           && text != "" && NoOpener(text)
           && (|nodes| > 1 ==> nodes[1].Tag? && text[|text| - 1] != '{')
  }

  lemma ValidIdentHasNoBraces(ident: string)
    requires ValidIdent(ident)
    ensures '{' !in ident && '}' !in ident && TrimSpace(ident) == ident && IdentProblem(ident).None?
  {
    assert ident[0] in ident && ident[|ident| - 1] in ident;
    TrimOfTrimmed(ident);
  }

  lemma OccursInPrefix(src: string, open: nat, op: string)
    requires open <= |src|
    ensures forall j: nat :: OccursAt(src[..open], op, j) ==> OccursAt(src, op, j) && j + |op| <= open
  {
    forall j: nat | OccursAt(src[..open], op, j) ensures OccursAt(src, op, j) {
      forall k | 0 <= k < |op| ensures src[j + k] == op[k] {
        assert src[..open][j + k] == op[k];
      }
    }
  }

  lemma OccursBefore(src: string, open: nat, op: string)
    requires |op| == 2 && op[0] == '{' && op[1] == '{' && open > 0 && OccursAt(src, op, open)
    ensures src[open - 1] == '{' ==> OccursAt(src, op, open - 1)
  {
    assert src[open + 0] == op[0];
  }

  lemma BeforeFirstOf(src: string, op: string, open: nat)
    requires |op| == 2 && op[0] == '{' && op[1] == '{' && IndexOf(src, op) == open
    ensures IndexOf(src[..open], op) < 0 && (open > 0 ==> src[open - 1] != '{')
  {
    IndexOfIsFirst(src, op);
    IndexOfIsFirst(src[..open], op);
    OccursInPrefix(src, open, op);
    if open > 0 {
      OccursBefore(src, open, op);
    }
  }

  /** What stands before the first opener has none, and does not end in a brace. */
  lemma BeforeFirst(src: string, open: nat)
    requires IndexOf(src, "{{") == open
    ensures NoOpener(src[..open]) && (open > 0 ==> src[open - 1] != '{')
  {
    BeforeFirstOf(src, "{{", open);
  }

  lemma TagWithFacts(src: string, open: nat, raw: bool, closer: string, check: string -> Option<Problem>)
    requires open + |closer| <= |src|
    ensures var n := TagWith(src, open, raw, closer, check);
      n.GoodTag? ==>
        check(n.ident).None? && n.text == src[..open] && n.raw == raw && 2 * |closer| + |n.ident| + |n.text| <= n.used
  {
    var start := open + |closer|;
    var end := IndexOf(src[start..], closer);
    if end >= 0 {
      TrimShortens(src[start..start + end]);
    }
  }

  lemma TagAtFacts(src: string, open: nat, raw: bool)
    requires open + Braces(raw) <= |src|
    ensures var n := TagAt(src, open, raw);
      n.GoodTag? ==>
        ValidIdent(n.ident) && n.text == src[..open] && n.raw == raw && 2 * Braces(raw) + |n.ident| + |n.text| <= n.used
  {
    TagWithFacts(src, open, raw, Closer(raw), IdentProblem);
  }

  lemma PrintedLength(ident: string, raw: bool)
    ensures |PrintNode(Tag(ident, raw))| == 2 * Braces(raw) + |ident|
  {
  }

  lemma FirstTagIsSound(src: string, open: nat, raw: bool)
    requires IndexOf(src, "{{") == open && open + Braces(raw) <= |src|
    ensures SoundAt(src, TagAt(src, open, raw))
  {
    var n := TagAt(src, open, raw);
    BeforeFirst(src, open);
    TagAtFacts(src, open, raw);
    if n.GoodTag? {
      PrintedLength(n.ident, n.raw);
    }
  }

  lemma NextTagFacts(src: string)
    ensures SoundAt(src, NextTag(src))
  {
    var open := IndexOf(src, "{{");
    if open >= 0 {
      FirstTagIsSound(src, open, "{{{" <= src[open..]);
    }
  }

  lemma TrimShortens(s: string)
    ensures |TrimSpace(s)| <= |s|
  {
    TrimLeftShortens(s);
  }

  lemma {:induction false} TrimLeftShortens(s: string)
    ensures |TrimLeft(s)| <= |s|
  {
    if s != "" && IsSpace(s[0]) {
      TrimLeftShortens(s[1..]);
    }
  }

  lemma TagCons(tag: Node, rest: seq<Node>)
    requires Canonical(rest) && tag.Tag? && ValidIdent(tag.ident)
    ensures Canonical([tag] + rest) && Print([tag] + rest) == PrintNode(tag) + Print(rest)
  {
    assert ([tag] + rest)[1..] == rest;
  }

  lemma TextCons(text: string, tagged: seq<Node>)
    requires Canonical(tagged) && tagged != [] && tagged[0].Tag?
    requires text != "" && NoOpener(text) && text[|text| - 1] != '{'
    ensures Canonical([Text(text)] + tagged) && Print([Text(text)] + tagged) == text + Print(tagged)
  {
    assert ([Text(text)] + tagged)[1..] == tagged;
  }

  lemma Rejoin(text: string, tag: string, rest: string)
    ensures text + (tag + rest) == text + tag + rest
    ensures "" + tag == tag
  {
  }

  lemma CanonicalCons(text: string, ident: string, raw: bool, rest: seq<Node>)
    requires Canonical(rest) && ValidIdent(ident) && NoOpener(text) && (text != "" ==> text[|text| - 1] != '{')
    ensures var nodes := WithLiteral(text, [Tag(ident, raw)]) + rest;
      Canonical(nodes) && Print(nodes) == text + PrintNode(Tag(ident, raw)) + Print(rest)
  {
    var tag := Tag(ident, raw);
    TagCons(tag, rest);
    Rejoin(text, PrintNode(tag), Print(rest));
    if text == "" {
      assert WithLiteral(text, [tag]) + rest == [tag] + rest;
    } else {
      TextCons(text, [tag] + rest);
      assert WithLiteral(text, [tag]) + rest == [Text(text)] + ([tag] + rest);
    }
  }

  lemma CanonicalText(src: string)
    requires NoOpener(src)
    ensures Canonical(WithLiteral(src, [])) && Print(WithLiteral(src, [])) == src
  {
    if src != "" {
      assert [Text(src)][1..] == [];
      assert Print([]) == "";
      assert Print([Text(src)]) == src + "";
    }
  }

  /** What the next tag of a text promises about the text it consumes. */
  predicate SoundAt(src: string, n: Next) {
    && (n.NoTag? ==> NoOpener(src))
    && (n.GoodTag? ==>
         && ValidIdent(n.ident) && NoOpener(n.text) && (n.text != "" ==> n.text[|n.text| - 1] != '{')
         && |PrintNode(Tag(n.ident, n.raw))| + |n.text| <= n.used)
  }

  ghost predicate Sound(next: string -> Next) { forall src :: SoundAt(src, next(src)) }

  lemma NextTagSound()
    ensures Sound(NextTag)
  {
    forall src ensures SoundAt(src, NextTag(src)) {
      NextTagFacts(src);
    }
  }

  /** Induction over a parse: what holds of a last literal and is kept by each tag holds of the result. */
  lemma {:induction false} ParseInduction(next: string -> Next, good: (Nodes, int) -> bool, src: string, offset: nat)
    requires Advances(next)
    requires forall s :: next(s).NoTag? ==> good(Nodes(WithLiteral(s, [])), |s|)
    requires forall o, p, n :: good(SyntaxError(o, p), n)
    requires forall s, r :: next(s).GoodTag? && good(r, |s| - next(s).used) ==>
      good(After(WithLiteral(next(s).text, [Tag(next(s).ident, next(s).raw)]), r), |s|)
    ensures good(ParseWith(next, src, offset), |src|)
    decreases |src|
  {
    var n := next(src);
    if n.GoodTag? {
      ParseInduction(next, good, src[n.used..], offset + n.used);
    }
  }

  predicate CanonicalWithin(r: Nodes, size: int) {
    r.Nodes? ==> Canonical(r.nodes) && |Print(r.nodes)| <= size
  }

  lemma CanonicalStep(src: string, n: Next, r: Nodes)
    requires n.GoodTag? && SoundAt(src, n) && CanonicalWithin(r, |src| - n.used)
    ensures CanonicalWithin(After(WithLiteral(n.text, [Tag(n.ident, n.raw)]), r), |src|)
  {
    if r.Nodes? {
      CanonicalCons(n.text, n.ident, n.raw, r.nodes);
    }
  }

  lemma CanonicalWith(next: string -> Next, src: string, offset: nat)
    requires Advances(next) && Sound(next)
    ensures CanonicalWithin(ParseWith(next, src, offset), |src|)
  {
    forall s | next(s).NoTag? ensures CanonicalWithin(Nodes(WithLiteral(s, [])), |s|) {
      assert SoundAt(s, next(s));
      CanonicalText(s);
    }
    forall s, r | next(s).GoodTag? && CanonicalWithin(r, |s| - next(s).used)
      ensures CanonicalWithin(After(WithLiteral(next(s).text, [Tag(next(s).ident, next(s).raw)]), r), |s|)
    {
      assert SoundAt(s, next(s));
      CanonicalStep(s, next(s), r);
    }
    ParseInduction(next, CanonicalWithin, src, offset);
  }

  /** Every parse yields a canonical list whose printed form is no longer than the source. */
  lemma ParsedIsCanonical(src: string, offset: nat)
    requires ParseFrom(src, offset).Nodes?
    ensures Canonical(ParseFrom(src, offset).nodes)
    ensures |Print(ParseFrom(src, offset).nodes)| <= |src|
  {
    NextTagAdvances();
    NextTagSound();
    CanonicalWith(NextTag, src, offset);
  }

  // ---- Reading the printed form back ----

  lemma FirstOfAfter(text: string, op: string, rest: string)
    requires |op| == 2 && op[0] == '{' && op[1] == '{' && op <= rest
    requires IndexOf(text, op) < 0 && (text != "" ==> text[|text| - 1] != '{')
    ensures IndexOf(text + rest, op) == |text|
  {
    var s := text + rest;
    IndexOfIsFirst(text, op);
    assert OccursAt(s, op, |text|);
    forall j: nat | j < |text| ensures !OccursAt(s, op, j) {
      if j + 2 <= |text| {
        assert !OccursAt(text, op, j);
        assert s[j + 0] == text[j + 0] && s[j + 1] == text[j + 1];
      } else {
        assert s[j + 0] == text[|text| - 1];
      }
    }
    IndexOfUnique(s, op, |text|);
  }

  lemma FirstOpenerAfter(text: string, rest: string)
    requires NoOpener(text) && (text != "" ==> text[|text| - 1] != '{') && "{{" <= rest
    ensures IndexOf(text + rest, "{{") == |text|
  {
    FirstOfAfter(text, "{{", rest);
  }

  lemma FirstAfterIdent(ident: string, closer: string, rest: string)
    requires '}' !in ident && closer != "" && closer[0] == '}'
    ensures IndexOf(ident + closer + rest, closer) == |ident|
  {
    var s := ident + closer + rest;
    assert OccursAt(s, closer, |ident|);
    forall j: nat | j < |ident| ensures !OccursAt(s, closer, j) {
      assert s[j + 0] == ident[j] && ident[j] in ident;
    }
    IndexOfUnique(s, closer, |ident|);
  }

  lemma FirstCloserAfter(ident: string, raw: bool, rest: string)
    requires '}' !in ident
    ensures IndexOf(ident + Closer(raw) + rest, Closer(raw)) == |ident|
  {
    FirstAfterIdent(ident, Closer(raw), rest);
  }

  lemma OpenerIsRaw(ident: string, raw: bool, rest: string)
    requires ident != "" && ident[0] != '{'
    ensures var s := Opener(raw) + ident + rest; "{{" <= s && raw == ("{{{" <= s)
  {
    var s := Opener(raw) + ident + rest;
    assert s[2] == if raw then '{' else ident[0];
  }

  lemma SliceOfTail(s: string, start: nat, n: nat)
    requires start + n <= |s|
    ensures s[start..start + n] == s[start..][..n]
  {
  }

  lemma TagWithIs(s: string, open: nat, raw: bool, closer: string, check: string -> Option<Problem>,
    body: string, ident: string)
    requires open + |closer| <= |s| && s[open + |closer|..] == body
    requires IndexOf(body, closer) == |ident| && ident <= body
    requires TrimSpace(ident) == ident && check(ident).None?
    ensures TagWith(s, open, raw, closer, check) == GoodTag(s[..open], ident, raw, open + 2 * |closer| + |ident|)
  {
    var start := open + |closer|;
    assert IndexOf(s[start..], closer) == |ident|;
    SliceOfTail(s, start, |ident|);
    assert body[..|ident|] == ident;
    assert s[start..start + |ident|] == ident;
  }

  lemma TagAtIs(s: string, open: nat, raw: bool, body: string, ident: string)
    requires open + Braces(raw) <= |s| && s[open + Braces(raw)..] == body
    requires IndexOf(body, Closer(raw)) == |ident| && ident <= body
    requires TrimSpace(ident) == ident && IdentProblem(ident).None?
    ensures TagAt(s, open, raw) == GoodTag(s[..open], ident, raw, open + 2 * Braces(raw) + |ident|)
  {
    TagWithIs(s, open, raw, Closer(raw), IdentProblem, body, ident);
  }

  lemma NextTagIs(s: string, open: nat, raw: bool, tail: string, n: Next)
    requires IndexOf(s, "{{") == open && s[open..] == tail && raw == ("{{{" <= tail)
    requires open + Braces(raw) <= |s| && TagAt(s, open, raw) == n
    ensures NextTag(s) == n
  {
  }

  lemma Pieces(text: string, opener: string, ident: string, closer: string, rest: string)
    ensures var s := text + (opener + ident + closer) + rest;
      var tail := opener + ident + (closer + rest);
      var body := ident + closer + rest;
      && s == text + tail && s[|text|..] == tail && s[..|text|] == text
      && |text| + |opener| <= |s| && s[|text| + |opener|..] == body && ident <= body
  {
    var s := text + (opener + ident + closer) + rest;
    var tail := opener + ident + (closer + rest);
    assert s == text + tail;
    assert s[|text| + |opener|..] == tail[|opener|..];
    assert tail[|opener|..] == ident + closer + rest;
  }

  /** The pieces of a printed tag, seen from the front. */
  lemma PrintedPieces(text: string, ident: string, raw: bool, rest: string)
    ensures var s := text + PrintNode(Tag(ident, raw)) + rest;
      var tail := Opener(raw) + ident + (Closer(raw) + rest);
      var body := ident + Closer(raw) + rest;
      && s == text + tail && s[|text|..] == tail && s[..|text|] == text
      && |text| + Braces(raw) <= |s| && s[|text| + Braces(raw)..] == body && ident <= body
  {
    Pieces(text, Opener(raw), ident, Closer(raw), rest);
    assert |Opener(raw)| == Braces(raw);
  }

  /** A tag printed at `open`, described by what the searches find. */
  predicate FrontTag(s: string, open: nat, raw: bool, tail: string, body: string, ident: string) {
    && IndexOf(s, "{{") == open && s[open..] == tail && raw == ("{{{" <= tail)
    && open + Braces(raw) <= |s| && s[open + Braces(raw)..] == body
    && IndexOf(body, Closer(raw)) == |ident| && ident <= body
    && TrimSpace(ident) == ident && IdentProblem(ident).None?
  }

  lemma NextTagFrom(s: string, open: nat, raw: bool, tail: string, body: string, ident: string)
    requires FrontTag(s, open, raw, tail, body, ident)
    ensures open <= |s| && NextTag(s) == GoodTag(s[..open], ident, raw, open + 2 * Braces(raw) + |ident|)
  {
    TagAtIs(s, open, raw, body, ident);
    NextTagIs(s, open, raw, tail, TagAt(s, open, raw));
  }

  lemma PrintedSearches(text: string, ident: string, raw: bool, rest: string)
    requires ValidIdent(ident) && NoOpener(text) && (text != "" ==> text[|text| - 1] != '{')
    ensures var tail := Opener(raw) + ident + (Closer(raw) + rest);
      && IndexOf(text + tail, "{{") == |text| && raw == ("{{{" <= tail)
      && IndexOf(ident + Closer(raw) + rest, Closer(raw)) == |ident|
  {
    ValidIdentHasNoBraces(ident);
    assert ident[0] in ident;
    OpenerIsRaw(ident, raw, Closer(raw) + rest);
    FirstOpenerAfter(text, Opener(raw) + ident + (Closer(raw) + rest));
    FirstCloserAfter(ident, raw, rest);
  }

  lemma PrintedTag(text: string, ident: string, raw: bool, rest: string) returns (s: string, tail: string, body: string)
    requires ValidIdent(ident) && NoOpener(text) && (text != "" ==> text[|text| - 1] != '{')
    ensures s == text + PrintNode(Tag(ident, raw)) + rest && |text| <= |s| && s[..|text|] == text
    ensures FrontTag(s, |text|, raw, tail, body, ident)
  {
    ValidIdentHasNoBraces(ident);
    s := text + PrintNode(Tag(ident, raw)) + rest;
    tail, body := Opener(raw) + ident + (Closer(raw) + rest), ident + Closer(raw) + rest;
    PrintedPieces(text, ident, raw, rest);
    PrintedSearches(text, ident, raw, rest);
  }

  ghost predicate Finds(next: string -> Next, s: string, open: nat, raw: bool, ident: string) {
    open <= |s| && next(s) == GoodTag(s[..open], ident, raw, open + 2 * Braces(raw) + |ident|)
  }

  /** A way of finding tags that finds the printed ones. */
  ghost predicate FindsFront(next: string -> Next) {
    forall s, open, raw, tail, body, ident :: open >= 0 && FrontTag(s, open, raw, tail, body, ident) ==>
      Finds(next, s, open, raw, ident)
  }

  lemma FindsPrinted(next: string -> Next, text: string, ident: string, raw: bool, rest: string)
    requires FindsFront(next)
    requires ValidIdent(ident) && NoOpener(text) && (text != "" ==> text[|text| - 1] != '{')
    ensures next(text + PrintNode(Tag(ident, raw)) + rest) ==
      GoodTag(text, ident, raw, |text| + 2 * Braces(raw) + |ident|)
  {
    var s, tail, body := PrintedTag(text, ident, raw, rest);
    assert Finds(next, s, |text|, raw, ident);
  }

  lemma NextTagFindsFront()
    ensures FindsFront(NextTag)
  {
    forall s, open, raw, tail, body, ident | open >= 0 && FrontTag(s, open, raw, tail, body, ident)
      ensures Finds(NextTag, s, open, raw, ident)
    {
      NextTagFrom(s, open, raw, tail, body, ident);
    }
  }

  lemma NextTagOfPrinted(text: string, ident: string, raw: bool, rest: string)
    requires ValidIdent(ident) && NoOpener(text) && (text != "" ==> text[|text| - 1] != '{')
    ensures NextTag(text + PrintNode(Tag(ident, raw)) + rest) ==
      GoodTag(text, ident, raw, |text| + 2 * Braces(raw) + |ident|)
  {
    NextTagFindsFront();
    FindsPrinted(NextTag, text, ident, raw, rest);
  }

  lemma NextTagOfText(text: string)
    requires NoOpener(text)
    ensures NextTag(text) == NoTag
  {
  }

  /** Reading one printed tag back, after its literal and before anything. */
  ghost predicate ReadsTag(next: string -> Next, text: string, ident: string, raw: bool, rest: string) {
    ValidIdent(ident) && NoOpener(text) && (text != "" ==> text[|text| - 1] != '{') ==>
      next(text + PrintNode(Tag(ident, raw)) + rest) == GoodTag(text, ident, raw, |text| + 2 * Braces(raw) + |ident|)
  }

  /** A way of finding the next tag that reads printed nodes back. */
  ghost predicate Reads(next: string -> Next) {
    && (forall text :: NoOpener(text) ==> next(text) == NoTag)
    && (forall text: string, ident: string, raw: bool, rest: string :: ReadsTag(next, text, ident, raw, rest))
  }

  lemma NextTagReads()
    ensures Reads(NextTag)
  {
    forall text | NoOpener(text) ensures NextTag(text) == NoTag { NextTagOfText(text); }
    forall text: string, ident: string, raw: bool, rest: string ensures ReadsTag(NextTag, text, ident, raw, rest) {
      if ValidIdent(ident) && NoOpener(text) && (text != "" ==> text[|text| - 1] != '{') {
        NextTagOfPrinted(text, ident, raw, rest);
      }
    }
  }

  lemma ParseTagThen(next: string -> Next, s: string, text: string, tag: Node, used: nat, rest: seq<Node>, offset: nat)
    requires Advances(next) && tag.Tag? && next(s) == GoodTag(text, tag.ident, tag.raw, used) && used <= |s|
    requires ParseWith(next, s[used..], offset + used) == Nodes(rest)
    ensures ParseWith(next, s, offset) == Nodes(WithLiteral(text, [tag]) + rest)
  {
  }

  lemma ReadTagBack(next: string -> Next, text: string, tag: Node, rest: seq<Node>, printed: string, offset: nat)
    requires Advances(next) && tag.Tag? && ReadsTag(next, text, tag.ident, tag.raw, printed) && ValidIdent(tag.ident)
    requires NoOpener(text) && (text != "" ==> text[|text| - 1] != '{')
    requires ParseWith(next, printed, offset + |text| + |PrintNode(tag)|) == Nodes(rest)
    ensures ParseWith(next, text + PrintNode(tag) + printed, offset) == Nodes(WithLiteral(text, [tag]) + rest)
  {
    var s := text + PrintNode(tag) + printed;
    var used := |text| + |PrintNode(tag)|;
    assert s[used..] == printed;
    ParseTagThen(next, s, text, tag, used, rest, offset);
  }

  lemma PrintCons(n: Node, rest: seq<Node>)
    ensures Print([n] + rest) == PrintNode(n) + Print(rest)
  {
    assert ([n] + rest)[1..] == rest;
  }

  lemma PrintLiteral(text: string, tag: Node, rest: seq<Node>)
    ensures Print(WithLiteral(text, [tag]) + rest) == text + PrintNode(tag) + Print(rest)
  {
    PrintCons(tag, rest);
    Rejoin(text, PrintNode(tag), Print(rest));
    if text != "" {
      PrintCons(Text(text), [tag] + rest);
      assert WithLiteral(text, [tag]) + rest == [Text(text)] + ([tag] + rest);
    }
  }

  /** A canonical list is a final literal, or a literal, a tag and a canonical list. */
  lemma PrintSplit(nodes: seq<Node>) returns (text: string, tag: Node, rest: seq<Node>)
    requires Canonical(nodes) && nodes != [] && !(|nodes| == 1 && nodes[0].Text?)
    ensures nodes == WithLiteral(text, [tag]) + rest && |rest| < |nodes|
    ensures Canonical(rest) && tag.Tag? && ValidIdent(tag.ident)
    ensures NoOpener(text) && (text != "" ==> text[|text| - 1] != '{')
  {
    if nodes[0].Tag? {
      text, tag, rest := "", nodes[0], nodes[1..];
    } else {
      text, tag, rest := nodes[0].text, nodes[1], nodes[2..];
      assert nodes[1..][0] == tag && nodes[1..][1..] == rest;
    }
  }

  lemma {:induction false} ReadBackWith(next: string -> Next, nodes: seq<Node>, offset: nat)
    requires Advances(next) && Reads(next) && Canonical(nodes)
    ensures ParseWith(next, Print(nodes), offset) == Nodes(nodes)
    decreases |nodes|
  {
    if nodes == [] {
      assert NoOpener("");
    } else if |nodes| == 1 && nodes[0].Text? {
      assert nodes == [nodes[0]] + [];
      PrintCons(nodes[0], []);
      assert NoOpener(nodes[0].text) && Print(nodes) == nodes[0].text;
    } else {
      var text, tag, rest := PrintSplit(nodes);
      PrintLiteral(text, tag, rest);
      ReadBackWith(next, rest, offset + |text| + |PrintNode(tag)|);
      assert ReadsTag(next, text, tag.ident, tag.raw, Print(rest));
      ReadTagBack(next, text, tag, rest, Print(rest), offset);
    }
  }

  /** Parsing the printed form of a canonical list gives the list back, wherever it starts: with
      `ParsedIsCanonical`, the canonical lists are exactly the parser's results. */
  lemma PrintedParsesBack(nodes: seq<Node>, offset: nat)
    requires Canonical(nodes)
    ensures ParseFrom(Print(nodes), offset) == Nodes(nodes)
  {
    NextTagAdvances();
    NextTagReads();
    ReadBackWith(NextTag, nodes, offset);
  }

  /** Printing what was parsed and parsing again gives the same nodes and variables. */
  lemma RoundTrip(src: string)
    requires ParseTemplate(src).Template?
    ensures var t := ParseTemplate(src);
      |Print(t.nodes)| <= |src| && ParseTemplate(Print(t.nodes)) == t
  {
    ParsedIsCanonical(src, 0);
    PrintedParsesBack(ParseTemplate(src).nodes, 0);
  }

  /** The variables are the tags in order of first appearance, each once. */
  lemma {:induction false} VarsAreFirstAppearances(idents: seq<string>)
    ensures forall i, j :: 0 <= i < j < |FirstAppearances(idents)| ==>
      FirstAppearances(idents)[i] != FirstAppearances(idents)[j]
    ensures forall v :: v in FirstAppearances(idents) <==> v in idents
    ensures forall k :: 0 <= k <= |idents| ==> FirstAppearances(idents[..k]) <= FirstAppearances(idents)
  {
    if idents != [] {
      var init, last := idents[..|idents| - 1], idents[|idents| - 1];
      VarsAreFirstAppearances(init);
      assert idents == init + [last];
      forall k | 0 <= k <= |idents| ensures FirstAppearances(idents[..k]) <= FirstAppearances(idents) {
        if k == |idents| {
          assert idents[..k] == idents;
        } else {
          assert idents[..k] == init[..k];
        }
      }
    }
  }

  // ---- A template of one tag ----

  lemma CloserAt(inside: string, closer: string)
    requires '}' !in inside && closer != "" && closer[0] == '}'
    ensures IndexOf(inside + closer, closer) == |inside|
  {
    var s := inside + closer;
    assert forall k :: 0 <= k < |closer| ==> s[|inside| + k] == closer[k];
    forall j: nat | j < |inside| ensures !OccursAt(s, closer, j) {
      assert s[j + 0] == inside[j] && inside[j] in inside;
    }
    IndexOfUnique(s, closer, |inside|);
  }

  lemma NeverCloses(inside: string, closer: string)
    requires '}' !in inside && closer != "" && closer[0] == '}'
    ensures IndexOf(inside, closer) < 0
  {
    IndexOfIsFirst(inside, closer);
    forall j: nat ensures !OccursAt(inside, closer, j) {
      assert j + |closer| <= |inside| ==> inside[j + 0] in inside;
    }
  }

  lemma TwoBraces(s: string, inside: string, rest: string)
    requires s == "{{" + inside + rest && '{' !in inside && (rest == "" || rest[0] == '}')
    ensures !("{{{" <= s)
  {
    assert inside != "" ==> s[2] == inside[0] && inside[0] in inside;
    assert inside == "" && rest != "" ==> s[2] == rest[0];
  }

  lemma OpensAtOnce(s: string)
    requires "{{" <= s
    ensures IndexOf(s, "{{") == 0 && s[0..] == s
  {
  }

  /** What stands between the braces, without the blanks around it, is the name of the tag; two braces escape and
      three do not; and braces that never close are told as such. */
  lemma OneTag(inside: string)
    requires '{' !in inside && '}' !in inside
    ensures var ident := TrimSpace(inside);
      IdentProblem(ident).None? ==>
        && NextTag("{{" + inside + "}}") == GoodTag("", ident, false, |inside| + 4)
        && NextTag("{{{" + inside + "}}}") == GoodTag("", ident, true, |inside| + 6)
    ensures var ident := TrimSpace(inside);
      IdentProblem(ident).Some? ==>
        && NextTag("{{" + inside + "}}") == BadTag(0, IdentProblem(ident).value)
        && NextTag("{{{" + inside + "}}}") == BadTag(0, IdentProblem(ident).value)
    ensures NextTag("{{" + inside) == BadTag(0, Unclosed)
  {
    TagBetween("{{" + inside + "}}", inside, false);
    TagBetween("{{{" + inside + "}}}", inside, true);
    var s := "{{" + inside;
    OpensAtOnce(s);
    assert s[2..] == inside;
    TwoBraces(s, inside, "");
    NeverCloses(inside, "}}");
  }

  lemma TagBetween(s: string, inside: string, raw: bool)
    requires '{' !in inside && '}' !in inside
    requires s == if raw then "{{{" + inside + "}}}" else "{{" + inside + "}}"
    ensures var ident := TrimSpace(inside);
      NextTag(s) == if IdentProblem(ident).Some? then BadTag(0, IdentProblem(ident).value)
        else GoodTag("", ident, raw, |s|)
  {
    var closer := if raw then "}}}" else "}}";
    assert s[|closer|..] == inside + closer;
    assert "{{" <= s;
    OpensAtOnce(s);
    CloserAt(inside, closer);
    if !raw {
      TwoBraces(s, inside, closer);
    }
    assert s[|closer|..][..|inside|] == inside;
    assert s[|closer|..|closer| + |inside|] == inside;
  }
}
