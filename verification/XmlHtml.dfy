/** The XML/HTML prettifier of mitmproxy/contentviews/_view_xml_html.py: a tokenizer with two modes, and a
    formatter that is meant to change nothing but whitespace. `textwrap` is a parameter, `indentText`. */
module XmlHtml {
  import opened Prelude

  datatype Token = Text(data: string) | Tag(data: string)

  // ----- strings -----

  /** `str.isspace` */
  predicate IsSpace(c: char) {
    var n := c as int;
    || 0x09 <= n <= 0x0D || 0x1C <= n <= 0x20 || n == 0x85 || n == 0xA0 || n == 0x1680
    || 0x2000 <= n <= 0x200A || n == 0x2028 || n == 0x2029 || n == 0x202F || n == 0x205F || n == 0x3000
  }

  predicate Blank(s: string) {
    forall c | c in s :: IsSpace(c)
  }

  function StripLeft(s: string): string {
    if s != "" && IsSpace(s[0]) then StripLeft(s[1..]) else s
  }

  function StripRight(s: string): string {
    if s != "" && IsSpace(s[|s| - 1]) then StripRight(s[..|s| - 1]) else s
  }

  function Strip(s: string): string {
    StripRight(StripLeft(s))
  }

  predicate EndsWith(s: string, suffix: string) {
    |suffix| <= |s| && s[|s| - |suffix|..] == suffix
  }

  /** The position of c, or the length where there is none. */
  function Find(s: string, c: char): (i: nat)
    ensures i <= |s| && c !in s[..i] && (i < |s| ==> s[i] == c)
  {
    if s == "" || s[0] == c then 0 else 1 + Find(s[1..], c)
  }

  // ----- tags -----

  predicate IsNameChar(c: char) {
    'a' <= c <= 'z' || 'A' <= c <= 'Z' || '0' <= c <= '9' || c in "._:-"
  }

  function NameEnd(s: string, i: nat): (j: nat)
    requires i <= |s|
    ensures i <= j <= |s|
    decreases |s| - i
  {
    if i < |s| && IsNameChar(s[i]) then NameEnd(s, i + 1) else i
  }

  /** The first run of name characters that an equals sign does not follow; one is given back for that. */
  function SearchName(s: string, i: nat): Option<string>
    requires i <= |s|
    decreases |s| - i
  {
    if i == |s| then None
    else
      var j := NameEnd(s, i);
      if j == i then SearchName(s, i + 1)
      else if j < |s| && s[j] == '=' then (if j - 1 > i then Some(s[i..j - 1]) else SearchName(s, i + 1))
      else Some(s[i..j])
  }

  function Lower(s: string): (r: string)
    ensures |r| == |s|
  {
    seq(|s|, i requires 0 <= i < |s| => if 'A' <= s[i] <= 'Z' then s[i] - 'A' + 'a' else s[i])
  }

  function TagName(data: string): string {
    match SearchName(data, 0)
    case None => "<empty>"
    case Some(name) => Lower(name)
  }

  const VOID_ELEMENTS: set<string> :=
    {"area", "base", "br", "col", "embed", "hr", "img", "input", "keygen", "link", "meta", "param", "source",
     "track", "wbr"}

  const NO_INDENT_TAGS: set<string> := {"xml", "doctype", "html"}

  predicate IsComment(data: string) {
    "<!--" <= data
  }

  predicate IsCdata(data: string) {
    "<![CDATA[" <= data
  }

  predicate IsClosing(data: string) {
    "</" <= data
  }

  predicate IsSelfClosing(data: string) {
    IsComment(data) || IsCdata(data) || EndsWith(data, "/>") || TagName(data) in VOID_ELEMENTS
  }

  predicate IsOpening(data: string) {
    !IsClosing(data) && !IsSelfClosing(data)
  }

  predicate Done(data: string) {
    if IsComment(data) then EndsWith(data, "-->")
    else if IsCdata(data) then EndsWith(data, "]]>")
    else EndsWith(data, ">")
  }

  // ----- tokenizing -----

  /** The tokens of s, read in text mode. */
  function TextMode(s: string): seq<Token>
    decreases |s|, 1
  {
    if s == "" then []
    else
      var e := Find(s, '<');
      (if Strip(s[..e]) != "" then [Text(s[..e])] else []) + TagMode("", s[e..])
  }

  /** The tokens of s, read in tag mode with the beginning of a tag in hand. */
  function TagMode(begun: string, s: string): seq<Token>
    decreases |s|, 0
  {
    if s == "" then (if Strip(begun) != "" then [Tag(begun)] else [])
    else
      var n := PyBound(|s|, Find(s, '>') + 1);
      var tag := begun + s[..n];
      if Done(tag) then [Tag(tag)] + TextMode(s[n..]) else TagMode(tag, s[n..])
  }

  function Tokens(s: string): seq<Token> {
    TextMode(s)
  }

  // ----- inline decisions -----

  function At(ts: seq<Token>, i: int): Option<Token> {
    if 0 <= i < |ts| then Some(ts[i]) else None
  }

  predicate IsTag(t: Option<Token>) {
    t.Some? && t.value.Tag?
  }

  predicate IsInlineText(a: Option<Token>, b: Option<Token>, c: Option<Token>) {
    && IsTag(a) && b.Some? && b.value.Text? && IsTag(c)
    && IsOpening(a.value.data) && '\n' !in b.value.data && IsClosing(c.value.data)
    && TagName(a.value.data) == TagName(c.value.data)
  }

  /** An opening tag directly before its closing tag. */
  predicate IsEmptyElement(a: Option<Token>, b: Option<Token>) {
    && IsTag(a) && IsTag(b) && IsOpening(a.value.data) && IsClosing(b.value.data)
    && TagName(a.value.data) == TagName(b.value.data)
  }

  predicate IsInline(prev2: Option<Token>, prev1: Option<Token>, t: Token, next1: Option<Token>, next2: Option<Token>) {
    match t
    case Text(_) => IsInlineText(prev1, Some(t), next1)
    case Tag(_) =>
      || IsInlineText(prev2, prev1, Some(t))
      || IsInlineText(Some(t), next1, next2)
      || IsEmptyElement(Some(t), next1)
      || IsEmptyElement(prev1, Some(t))
  }

  // ----- the element stack -----

  datatype Stack = Stack(open: seq<string>, indent: string)

  function Indenting(tags: seq<string>): nat {
    if tags == [] then 0
    else Indenting(tags[..|tags| - 1]) + (if tags[|tags| - 1] in NO_INDENT_TAGS then 0 else 1)
  }

  function Push(s: Stack, tag: string): Stack {
    if |s.open| > 16 then s
    else Stack(s.open + [tag], if tag in NO_INDENT_TAGS then s.indent else s.indent + "  ")
  }

  /** The position of the innermost element with this tag. */
  function Innermost(open: seq<string>, tag: string): (i: nat)
    requires tag in open
    ensures i < |open| && open[i] == tag && tag !in open[i + 1..]
  {
    if open[|open| - 1] == tag then |open| - 1 else Innermost(open[..|open| - 1], tag)
  }

  /** With nothing to remove, the slice `indent[:-0]` is empty. */
  function Pop(s: Stack, tag: string): Stack {
    if tag !in s.open then s
    else
      var i := Innermost(s.open, tag);
      Stack(s.open[..i], PyTake(s.indent, -2 * Indenting(s.open[i..])))
  }

  // ----- formatting -----

  type IndentText = (string, string) -> string

  /** What is written for token i, and the stack afterwards. */
  function Write(ts: seq<Token>, i: nat, s: Stack, indentText: IndentText): (string, Stack)
    requires i < |ts|
  {
    var inlined := IsInline(At(ts, i - 2), At(ts, i - 1), ts[i], At(ts, i + 1), At(ts, i + 2));
    var d := ts[i].data;
    match ts[i]
    case Text(_) => (if inlined then Strip(d) else indentText(d, s.indent) + "\n", s)
    case Tag(_) =>
      if IsOpening(d) then (indentText(d, s.indent) + (if inlined then "" else "\n"), Push(s, TagName(d)))
      else if IsClosing(d) then
        var t := Pop(s, TagName(d));
        ((if inlined then d else indentText(d, t.indent)) + "\n", t)
      else (indentText(d, s.indent) + "\n", s)
  }

  function StackBefore(ts: seq<Token>, i: nat, indentText: IndentText): Stack
    requires i <= |ts|
  {
    if i == 0 then Stack([], "") else Write(ts, i - 1, StackBefore(ts, i - 1, indentText), indentText).1
  }

  /** What is written for each of the first n tokens. */
  function Chunks(ts: seq<Token>, n: nat, indentText: IndentText): (r: seq<string>)
    requires n <= |ts|
    ensures |r| == n
  {
    if n == 0 then []
    else Chunks(ts, n - 1, indentText) + [Write(ts, n - 1, StackBefore(ts, n - 1, indentText), indentText).0]
  }

  function Join(ss: seq<string>): string {
    if ss == [] then "" else Join(ss[..|ss| - 1]) + ss[|ss| - 1]
  }

  function Format(ts: seq<Token>, indentText: IndentText): string {
    Join(Chunks(ts, |ts|, indentText))
  }

  // ----- the code -----

  /** The tokens still to come, with a token in hand. */
  function Pending(token: Token, rest: string): seq<Token> {
    if token.Text? then TextMode(rest) else TagMode(token.data, rest)
  }

  lemma TextStep(rest: string)
    requires rest != ""
    ensures
      var e := Find(rest, '<');
      var text := PyTake(rest, e);
      TextMode(rest) == (if Strip(text) != "" then [Text(text)] else []) + Pending(Tag(""), PyDrop(rest, e))
  {
    hide Strip;
  }

  lemma TagStep(begun: string, rest: string)
    requires rest != ""
    ensures
      var n := Find(rest, '>') + 1;
      var tag := begun + PyTake(rest, n);
      TagMode(begun, rest)
      == if Done(tag) then [Tag(tag)] + Pending(Text(""), PyDrop(rest, n)) else Pending(Tag(tag), PyDrop(rest, n))
  {
    hide Done;
  }

  lemma PendingAtEnd(token: Token)
    requires token.Text? ==> token.data == ""
    ensures Pending(token, "") == if Strip(token.data) != "" then [token] else []
  {
  }

  /** `tokenize`: the text step may consume nothing, but it changes the mode. */
  method Tokenize(data: string) returns (out: seq<Token>)
    ensures out == Tokens(data)
  {
    hide Done, Strip, Find, TextMode, TagMode, Pending, PyTake, PyDrop, PyBound;
    out := [];
    var token := Text("");
    var i := 0;
    DropDrop(data, 0, 0);
    assert Pending(token, PyDrop(data, i)) == Tokens(data) by { InTextMode(data); }
    while i < |data|
      invariant i <= |data| + 1
      invariant token.Text? ==> token.data == ""
      invariant Tokens(data) == out + Pending(token, PyDrop(data, i))
      decreases |data| + 1 - i, token.Text?
    {
      var rest := PyDrop(data, i);
      if token.Text? {
        var e := Find(rest, '<');
        DropDrop(data, i, e);
        InTextMode(rest);
        TextStep(rest);
        token := Text(PyTake(rest, e));
        i := i + e;
        if Strip(token.data) != "" {
          out := out + [token];
        }
        token := Tag("");
      } else {
        var e := Find(rest, '>');
        DropDrop(data, i, e + 1);
        InTagMode(token.data, rest);
        TagStep(token.data, rest);
        token := Tag(token.data + PyTake(rest, e + 1));
        i := i + e + 1;
        if Done(token.data) {
          out := out + [token];
          token := Text("");
        }
      }
    }
    DropAll(data, i);
    PendingAtEnd(token);
    if Strip(token.data) != "" {
      out := out + [token];
    }
  }

  lemma DropDrop(data: string, i: nat, e: nat)
    requires i <= |data|
    ensures |PyDrop(data, i)| == |data| - i && PyDrop(data, i + e) == PyDrop(PyDrop(data, i), e)
    ensures i == 0 ==> PyDrop(data, i) == data
  {
  }

  lemma DropAll(data: string, i: nat)
    requires i >= |data|
    ensures PyDrop(data, i) == ""
  {
  }

  lemma InTextMode(rest: string)
    ensures Pending(Text(""), rest) == TextMode(rest) == Tokens(rest)
  {
  }

  lemma InTagMode(begun: string, rest: string)
    ensures Pending(Tag(begun), rest) == TagMode(begun, rest)
  {
  }

  class ElementStack {
    var openTags: seq<string>
    var indent: string

    ghost function Model(): Stack
      reads this
    {
      Stack(openTags, indent)
    }

    constructor ()
      ensures Model() == Stack([], "")
    {
      openTags, indent := [], "";
    }

    method PushTag(tag: string)
      modifies this
      ensures Model() == Push(old(Model()), tag)
    {
      if |openTags| > 16 {
        return;
      }
      openTags := openTags + [tag];
      if tag !in NO_INDENT_TAGS {
        indent := indent + "  ";
      }
    }

    method PopTag(tag: string)
      modifies this
      ensures Model() == Pop(old(Model()), tag)
    {
      if tag in openTags {
        ghost var open := openTags;
        ghost var k := Innermost(open, tag);
        hide Indenting, Innermost;
        var removeIndent := 0;
        while true
          invariant k < |openTags| <= |open| && openTags == open[..|openTags|]
          invariant tag !in open[|openTags|..]
          invariant removeIndent == 2 * Indenting(open[k..]) - 2 * Indenting(open[k..|openTags|])
          invariant indent == old(indent)
          decreases |openTags|
        {
          ghost var n := |openTags|;
          var t := openTags[|openTags| - 1];
          openTags := openTags[..|openTags| - 1];
          IndentingLast(open, k, n);
          if t !in NO_INDENT_TAGS {
            removeIndent := removeIndent + 2;
          }
          if t == tag {
            assert n - 1 == k by { InnermostIs(open, tag, n - 1); }
            break;
          }
          assert n - 1 != k;
        }
        assert open[k..k] == [];
        indent := PyTake(indent, -removeIndent);
      }
    }
  }

  lemma IndentingLast(tags: seq<string>, k: nat, n: nat)
    requires k < n <= |tags|
    ensures Indenting(tags[k..n]) == Indenting(tags[k..n - 1]) + (if tags[n - 1] in NO_INDENT_TAGS then 0 else 1)
  {
    assert tags[k..n][..n - 1 - k] == tags[k..n - 1] && tags[k..n][n - 1 - k] == tags[n - 1];
  }

  lemma InnermostIs(open: seq<string>, tag: string, i: nat)
    requires i < |open| && open[i] == tag && tag !in open[i + 1..]
    ensures Innermost(open, tag) == i
  {
    var j := Innermost(open, tag);
    assert open[j] == tag;
  }

  /** `format_xml` */
  method FormatXml(tokens: seq<Token>, indentText: IndentText) returns (out: string)
    ensures out == Format(tokens, indentText)
  {
    out := "";
    var context := new ElementStack();
    for i := 0 to |tokens|
      invariant out == Join(Chunks(tokens, i, indentText))
      invariant context.Model() == StackBefore(tokens, i, indentText)
    {
      hide IsInline, IsOpening, IsClosing, TagName, Strip, Push, Pop;
      var d := tokens[i].data;
      var inlined := IsInline(At(tokens, i - 2), At(tokens, i - 1), tokens[i], At(tokens, i + 1), At(tokens, i + 2));
      ghost var before := Chunks(tokens, i, indentText);
      ghost var w := Write(tokens, i, context.Model(), indentText).0;
      var written;
      if tokens[i].Tag? {
        if IsOpening(d) {
          written := indentText(d, context.indent);
          if !inlined {
            written := written + "\n";
          }
          context.PushTag(TagName(d));
        } else if IsClosing(d) {
          context.PopTag(TagName(d));
          if inlined {
            written := d;
          } else {
            written := indentText(d, context.indent);
          }
          written := written + "\n";
        } else {
          written := indentText(d, context.indent) + "\n";
        }
      } else if inlined {
        written := Strip(d);
      } else {
        written := indentText(d, context.indent) + "\n";
      }
      out := out + written;
      assert written == w;
      assert (before + [w])[..i] == before;
    }
  }
}
