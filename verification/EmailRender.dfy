/** Rendering a parsed template against caller-supplied data. */
module EmailRender {
  import opened GoStrings
  import opened EmailTemplate

  /** Template data after JSON decoding; a number keeps the text it renders to. */
  datatype Value =
    | Null | Str(s: string) | Num(digits: string) | Bool(b: bool)
    | Obj(fields: seq<Field>) | Arr(items: seq<Value>)
  datatype Field = Field(key: string, value: Value)

  datatype Rendered = Output(text: string) | TooDeep | OutputTooLarge

  // ---- Depth ----

  function Max(a: nat, b: nat): nat { if a >= b then a else b }

  function Depth(v: Value): nat {
    match v
    case Obj(fields) => FieldsDepth(fields) + 1
    case Arr(items) => ItemsDepth(items) + 1
    case _ => 0
  }

  function FieldsDepth(fields: seq<Field>): nat {
    if fields == [] then 0 else Max(Depth(fields[0].value), FieldsDepth(fields[1..]))
  }

  function ItemsDepth(items: seq<Value>): nat {
    if items == [] then 0 else Max(Depth(items[0]), ItemsDepth(items[1..]))
  }

  // ---- Resolving a dotted path ----

  function FieldOf(fields: seq<Field>, key: string): Option<Value> {
    if fields == [] then None
    else if fields[0].key == key then Some(fields[0].value)
    else FieldOf(fields[1..], key)
  }

  function ResolvePath(v: Value, path: seq<string>): Option<Value>
    decreases |path|
  {
    if path == [] then Some(v)
    else if !v.Obj? then None
    else
      match FieldOf(v.fields, path[0])
      case None => None
      case Some(inner) => ResolvePath(inner, path[1..])
  }

  function Resolve(data: Value, ident: string): Option<Value> { ResolvePath(data, Split(ident, '.')) }

  lemma {:induction false} ResolveConcat(v: Value, p: seq<string>, q: seq<string>)
    ensures ResolvePath(v, p + q) ==
      match ResolvePath(v, p) case None => None case Some(inner) => ResolvePath(inner, q)
    decreases |p|
  {
    if p == [] {
      assert p + q == q;
    } else if v.Obj? && FieldOf(v.fields, p[0]).Some? {
      ResolveConcat(FieldOf(v.fields, p[0]).value, p[1..], q);
      assert (p + q)[1..] == p[1..] + q;
    }
  }

  /** A dotted path resolves step by step. */
  lemma ResolveDotted(data: Value, head: string, rest: string)
    ensures Resolve(data, head + "." + rest) ==
      match Resolve(data, head) case None => None case Some(inner) => Resolve(inner, rest)
  {
    SplitConcat(head, '.', rest);
    ResolveConcat(data, Split(head, '.'), Split(rest, '.'));
  }

  function FormatScalar(v: Option<Value>): string {
    match v
    case Some(Str(s)) => s
    case Some(Num(digits)) => digits
    case Some(Bool(b)) => if b then "true" else "false"
    case _ => ""
  }

  // ---- Escaping ----

  function EscapeChar(c: char): string {
    if c == '&' then "&amp;"
    else if c == '\'' then "&#39;"
    else if c == '<' then "&lt;"
    else if c == '>' then "&gt;"
    else if c == '"' then "&#34;"
    else [c]
  }

  function Escape(s: string): string {
    if s == "" then "" else EscapeChar(s[0]) + Escape(s[1..])
  }

  predicate IsMarkup(c: char) { c == '<' || c == '>' || c == '"' || c == '\'' }

  function Markup(s: string): string {
    if s == "" then "" else (if IsMarkup(s[0]) then [s[0]] else "") + Markup(s[1..])
  }

  lemma Associates(a: string, b: string, c: string)
    ensures a + (b + c) == (a + b) + c
  {
  }

  lemma {:induction false} MarkupConcat(a: string, b: string)
    ensures Markup(a + b) == Markup(a) + Markup(b)
  {
    if a == "" {
      assert a + b == b;
    } else {
      MarkupConcat(a[1..], b);
      assert (a + b)[1..] == a[1..] + b;
      Associates(if IsMarkup(a[0]) then [a[0]] else "", Markup(a[1..]), Markup(b));
    }
  }

  lemma EscapeCharHasNoMarkup(c: char)
    ensures Markup(EscapeChar(c)) == ""
  {
    var e := EscapeChar(c);
    NoMarkup(e);
  }

  lemma {:induction false} NoMarkup(s: string)
    requires forall i :: 0 <= i < |s| ==> !IsMarkup(s[i])
    ensures Markup(s) == ""
  {
    if s != "" {
      NoMarkup(s[1..]);
    }
  }

  lemma {:induction false} EscapedHasNoMarkup(s: string)
    ensures Markup(Escape(s)) == ""
  {
    if s != "" {
      EscapeCharHasNoMarkup(s[0]);
      EscapedHasNoMarkup(s[1..]);
      MarkupConcat(EscapeChar(s[0]), Escape(s[1..]));
    }
  }

  /** No two characters' escapes start the same way, so nothing is lost. */
  lemma EscapeCharDecodes(c: char, d: char, x: string, y: string)
    requires EscapeChar(c) + x == EscapeChar(d) + y
    ensures c == d && x == y
  {
    var s, t := EscapeChar(c) + x, EscapeChar(d) + y;
    assert s[0] == t[0];
    if |EscapeChar(c)| >= 4 && |EscapeChar(d)| >= 4 {
      assert EscapeChar(c)[1] == s[1] == t[1] == EscapeChar(d)[1];
      assert EscapeChar(c)[3] == s[3] == t[3] == EscapeChar(d)[3];
    }
    assert c == d;
    assert x == s[|EscapeChar(c)|..] && y == t[|EscapeChar(d)|..];
  }

  lemma {:induction false} EscapeInjective(a: string, b: string)
    requires Escape(a) == Escape(b)
    ensures a == b
  {
    if a != "" && b != "" {
      EscapeCharDecodes(a[0], b[0], Escape(a[1..]), Escape(b[1..]));
      EscapeInjective(a[1..], b[1..]);
    }
  }

  // ---- Rendering ----

  function RenderNode(n: Node, data: Value, html: bool): string {
    match n
    case Text(text) => text
    case Tag(ident, raw) =>
      var s := FormatScalar(Resolve(data, ident));
      if html && !raw then Escape(s) else s
  }

  function RenderAll(nodes: seq<Node>, data: Value, html: bool): string {
    if nodes == [] then ""
    else RenderAll(nodes[..|nodes| - 1], data, html) + RenderNode(nodes[|nodes| - 1], data, html)
  }

  lemma {:induction false} RenderGrows(nodes: seq<Node>, k: nat, data: Value, html: bool)
    requires k <= |nodes|
    ensures |RenderAll(nodes[..k], data, html)| <= |RenderAll(nodes, data, html)|
  {
    if k == |nodes| {
      assert nodes[..k] == nodes;
    } else {
      RenderGrows(nodes[..|nodes| - 1], k, data, html);
      assert nodes[..|nodes| - 1][..k] == nodes[..k];
    }
  }

  /** The running size check refuses exactly the outputs that end up too large. */
  method Render(nodes: seq<Node>, data: Value, html: bool) returns (r: Rendered)
    ensures Depth(data) > 8 ==> r == TooDeep
    ensures Depth(data) <= 8 ==>
      r == var all := RenderAll(nodes, data, html); if |all| > 2_097_152 then OutputTooLarge else Output(all)
  {
    if Depth(data) > MAX_DATA_DEPTH {
      return TooDeep;
    }
    var text := "";
    for i := 0 to |nodes|
      invariant text == RenderAll(nodes[..i], data, html) && |text| <= MAX_RENDERED_BYTES
    {
      var s := RenderNode(nodes[i], data, html);
      assert nodes[..i + 1][..i] == nodes[..i];
      if |text| + |s| > MAX_RENDERED_BYTES {
        RenderGrows(nodes, i + 1, data, html);
        return OutputTooLarge;
      }
      text := text + s;
    }
    assert nodes[..|nodes|] == nodes;
    r := Output(text);
  }

  /** The literal parts of a template. */
  function Literals(nodes: seq<Node>): string {
    if nodes == [] then ""
    else Literals(nodes[..|nodes| - 1]) + (match nodes[|nodes| - 1] case Text(text) => text case Tag(_, _) => "")
  }

  predicate NoRawTags(nodes: seq<Node>) { forall n :: n in nodes ==> n.Tag? ==> !n.raw }

  /** In HTML, data cannot add markup: without raw tags the output's angle brackets and quotes are
      those of the template's own text, in order, whatever the data. */
  lemma {:induction false} DataAddsNoMarkup(nodes: seq<Node>, data: Value)
    requires NoRawTags(nodes)
    ensures Markup(RenderAll(nodes, data, true)) == Markup(Literals(nodes))
  {
    if nodes != [] {
      var init, last := nodes[..|nodes| - 1], nodes[|nodes| - 1];
      DataAddsNoMarkup(init, data);
      assert last in nodes;
      MarkupConcat(RenderAll(init, data, true), RenderNode(last, data, true));
      match last {
        case Text(text) =>
          MarkupConcat(Literals(init), text);
        case Tag(ident, raw) =>
          EscapedHasNoMarkup(FormatScalar(Resolve(data, ident)));
          assert !raw && RenderNode(last, data, true) == Escape(FormatScalar(Resolve(data, ident)));
          assert Literals(nodes) == Literals(init) + "" == Literals(init);
      }
    }
  }

  /** Data that answers every variable alike renders alike: nothing but the listed variables matters. */
  lemma {:induction false} OnlyVarsMatter(nodes: seq<Node>, a: Value, b: Value, html: bool)
    requires forall v :: v in Vars(nodes) ==> FormatScalar(Resolve(a, v)) == FormatScalar(Resolve(b, v))
    ensures RenderAll(nodes, a, html) == RenderAll(nodes, b, html)
  {
    if nodes != [] {
      var init, last := nodes[..|nodes| - 1], nodes[|nodes| - 1];
      assert nodes == init + [last];
      VarsSnoc(init, last);
      OnlyVarsMatter(init, a, b, html);
      if last.Tag? {
        assert last.ident in Vars(nodes);
      }
    }
  }

  // ---- Tags, texts and escapes ----

  /** The five characters with an escape, each with its own; every other character stands for itself. */
  lemma Entities(a: string, b: string)
    ensures Escape(a + b) == Escape(a) + Escape(b)
    ensures Escape("&") == "&amp;" && Escape("<") == "&lt;" && Escape(">") == "&gt;"
    ensures Escape("\"") == "&#34;" && Escape("'") == "&#39;"
    ensures (forall c :: c in a ==> c != '&' && c != '<' && c != '>' && c != '"' && c != '\'') ==> Escape(a) == a
  {
    EscapeConcat(a, b);
    EscapeOne('&');
    EscapeOne('<');
    EscapeOne('>');
    EscapeOne('"');
    EscapeOne('\'');
    if forall c :: c in a ==> c != '&' && c != '<' && c != '>' && c != '"' && c != '\'' {
      EscapePlain(a);
    }
  }

  lemma EscapeOne(c: char)
    ensures Escape([c]) == EscapeChar(c)
  {
    assert [c][1..] == "" && EscapeChar(c) + "" == EscapeChar(c);
  }

  lemma {:induction false} EscapePlain(a: string)
    requires forall c :: c in a ==> c != '&' && c != '<' && c != '>' && c != '"' && c != '\''
    ensures Escape(a) == a
  {
    if a != "" {
      assert a[0] in a;
      forall c | c in a[1..] ensures c in a {}
      EscapePlain(a[1..]);
      assert a == [a[0]] + a[1..];
    }
  }

  /** Texts escaped part by part. */
  lemma {:induction false} EscapeConcat(a: string, b: string)
    ensures Escape(a + b) == Escape(a) + Escape(b)
  {
    if a == "" {
      assert a + b == b;
    } else {
      EscapeConcat(a[1..], b);
      EscapedInFront(a, b, EscapeChar(a[0]), Escape(a[1..]), Escape(b));
    }
  }

  lemma EscapedInFront(a: string, b: string, first: string, rest: string, other: string)
    requires a != "" && Escape(a) == first + rest && Escape(a[1..] + b) == rest + other && first == EscapeChar(a[0])
    ensures Escape(a + b) == Escape(a) + other
  {
    var s := a + b;
    assert s[0] == a[0] && s[1..] == a[1..] + b;
    Associates(first, rest, other);
  }

  /** A plain text is its literals and the bare scalars of its tags, raw or not. */
  lemma {:induction false} PlainText(nodes: seq<Node>, n: Node, data: Value)
    ensures RenderAll(nodes + [n], data, false) == RenderAll(nodes, data, false) +
      match n case Text(text) => text case Tag(ident, _) => FormatScalar(Resolve(data, ident))
  {
    assert (nodes + [n])[..|nodes|] == nodes;
  }

  predicate AllRaw(nodes: seq<Node>) { forall i :: 0 <= i < |nodes| && nodes[i].Tag? ==> nodes[i].raw }

  /** Raw tags are not escaped: with every tag raw, HTML and plain text are the same. */
  lemma {:induction false} RawIsPlain(nodes: seq<Node>, data: Value)
    requires AllRaw(nodes)
    ensures RenderAll(nodes, data, true) == RenderAll(nodes, data, false)
  {
    if nodes != [] {
      RawIsPlain(nodes[..|nodes| - 1], data);
    }
  }

  /** All other tags are: a run of them is, in HTML, the escape of what it is in plain text. */
  lemma {:induction false} TagsAreEscaped(nodes: seq<Node>, data: Value)
    requires forall i :: 0 <= i < |nodes| ==> nodes[i].Tag? && !nodes[i].raw
    ensures RenderAll(nodes, data, true) == Escape(RenderAll(nodes, data, false))
  {
    if nodes != [] {
      TagsAreEscaped(nodes[..|nodes| - 1], data);
      EscapeConcat(RenderAll(nodes[..|nodes| - 1], data, false), RenderNode(nodes[|nodes| - 1], data, false));
    }
  }

  /** How data reads as text: strings and numbers as they are, truth values by name, and everything else,
      a missing answer included, as nothing. */
  lemma ScalarsRead(s: string, v: Value)
    ensures FormatScalar(Some(Str(s))) == s && FormatScalar(Some(Num(s))) == s
    ensures FormatScalar(Some(Bool(true))) == "true" && FormatScalar(Some(Bool(false))) == "false"
    ensures FormatScalar(None) == "" && FormatScalar(Some(Null)) == ""
    ensures v.Obj? || v.Arr? ==> FormatScalar(Some(v)) == ""
  {
  }

  predicate FieldAt(fields: seq<Field>, i: nat, key: string) {
    i < |fields| && fields[i].key == key && forall j :: 0 <= j < i ==> fields[j].key != key
  }

  /** A key is answered by its own field, and by nothing when no field has it. */
  lemma {:induction false} FieldOfIs(fields: seq<Field>, key: string)
    ensures FieldOf(fields, key).None? <==> forall i :: 0 <= i < |fields| ==> fields[i].key != key
    ensures forall i: nat :: FieldAt(fields, i, key) ==> FieldOf(fields, key) == Some(fields[i].value)
  {
    if fields != [] {
      FieldOfIs(fields[1..], key);
      assert forall i :: 0 < i < |fields| ==> fields[i] == fields[1..][i - 1];
      assert forall i :: 0 <= i < |fields[1..]| ==> fields[1..][i] == fields[i + 1];
      forall i: nat | FieldAt(fields, i, key) ensures FieldOf(fields, key) == Some(fields[i].value) {
        if i > 0 {
          assert fields[0].key != key;
          assert forall j :: 0 <= j < i - 1 ==> fields[1..][j] == fields[j + 1];
          assert FieldAt(fields[1..], i - 1, key);
        }
      }
    }
  }

  /** Only nesting counts as depth: a scalar has none, and a container one more than its deepest part. */
  lemma DepthIs(v: Value, d: nat)
    ensures Depth(v) == 0 <==> !v.Obj? && !v.Arr?
    ensures v.Arr? ==> (Depth(v) > d + 1 <==> exists i :: 0 <= i < |v.items| && Depth(v.items[i]) > d)
    ensures v.Obj? ==> (Depth(v) > d + 1 <==> exists i :: 0 <= i < |v.fields| && Depth(v.fields[i].value) > d)
    ensures v == Arr([]) || v == Obj([]) ==> Depth(v) == 1
  {
    if v.Arr? {
      ItemsDepthIs(v.items, d);
    } else if v.Obj? {
      FieldsDepthIs(v.fields, d);
    }
  }

  lemma {:induction false} ItemsDepthIs(items: seq<Value>, d: nat)
    ensures ItemsDepth(items) > d <==> exists i :: 0 <= i < |items| && Depth(items[i]) > d
  {
    if items != [] {
      ItemsDepthIs(items[1..], d);
      assert items == [items[0]] + items[1..];
    }
  }

  lemma {:induction false} FieldsDepthIs(fields: seq<Field>, d: nat)
    ensures FieldsDepth(fields) > d <==> exists i :: 0 <= i < |fields| && Depth(fields[i].value) > d
  {
    if fields != [] {
      FieldsDepthIs(fields[1..], d);
      assert fields == [fields[0]] + fields[1..];
    }
  }
}
