/** The layout of the formatted text: which line each token is put on, and behind how many spaces. */
module XmlHtmlLayout {
  import opened Prelude
  import opened XmlHtml
  import opened XmlHtmlProperties

  // ----- the kinds of tags -----

  ghost predicate Starts(d: string, prefix: string) {
    |d| >= |prefix| && d[..|prefix|] == prefix
  }

  ghost predicate Ends(d: string, suffix: string) {
    |d| >= |suffix| && d[|d| - |suffix|..] == suffix
  }

  ghost predicate SelfClosing(d: string) {
    || Starts(d, "<!--") || Starts(d, "<![CDATA[") || Ends(d, "/>")
    || TagName(d) in {"area", "base", "br", "col", "embed", "hr", "img", "input", "keygen", "link", "meta", "param",
                      "source", "track", "wbr"}
  }

  /** Closing tags, opening tags and the others, and where a tag ends. */
  lemma Kinds(d: string)
    ensures IsClosing(d) <==> Starts(d, "</")
    ensures IsOpening(d) <==> !Starts(d, "</") && !SelfClosing(d)
    ensures Done(d) <==> Ends(d, if Starts(d, "<!--") then "-->" else if Starts(d, "<![CDATA[") then "]]>" else ">")
  {
    PrefixIs(d, "<!--");
    PrefixIs(d, "<![CDATA[");
    PrefixIs(d, "</");
    SuffixIs(d, "-->");
    SuffixIs(d, "]]>");
    SuffixIs(d, ">");
    SuffixIs(d, "/>");
    hide TagName, Starts, Ends, EndsWith;
  }

  lemma PrefixIs(d: string, prefix: string)
    ensures Starts(d, prefix) <==> prefix <= d
  {
  }

  lemma SuffixIs(d: string, suffix: string)
    ensures Ends(d, suffix) <==> EndsWith(d, suffix)
  {
  }

  ghost predicate NameChar(c: char) {
    'a' <= c <= 'z' || 'A' <= c <= 'Z' || '0' <= c <= '9' || c == '.' || c == '_' || c == ':' || c == '-'
  }

  ghost function Small(c: char): char {
    if 'A' <= c <= 'Z' then ((c as int) + 32) as char else c
  }

  /** The name of a tag is its first run of letters, digits, dots, underscores, colons and hyphens, in lower case. */
  lemma NameOfTag(d: string, a: nat, b: nat)
    requires a < b <= |d|
    requires (forall k :: 0 <= k < a ==> !NameChar(d[k])) && (forall k :: a <= k < b ==> NameChar(d[k]))
    requires b < |d| ==> !NameChar(d[b]) && d[b] != '='
    ensures |TagName(d)| == b - a && forall k :: 0 <= k < b - a ==> TagName(d)[k] == Small(d[a + k])
  {
    NameFrom(d, 0, a, b);
    LowerIs(d[a..b]);
    hide SearchName, NameChar, Lower, Small;
    assert TagName(d) == Lower(d[a..b]);
  }

  lemma LowerIs(s: string)
    ensures |Lower(s)| == |s| && forall k :: 0 <= k < |s| ==> Lower(s)[k] == Small(s[k])
  {
  }

  lemma {:induction false} NameFrom(d: string, i: nat, a: nat, b: nat)
    requires i <= a < b <= |d|
    requires (forall k :: i <= k < a ==> !NameChar(d[k])) && (forall k :: a <= k < b ==> NameChar(d[k]))
    requires b < |d| ==> !NameChar(d[b]) && d[b] != '='
    ensures SearchName(d, i) == Some(d[a..b])
    decreases a - i
  {
    assert forall c :: NameChar(c) <==> IsNameChar(c);
    hide NameChar, IsNameChar;
    if i < a {
      NameFrom(d, i + 1, a, b);
    } else {
      RunEnd(d, a, b);
    }
  }

  lemma {:induction false} RunEnd(d: string, i: nat, b: nat)
    requires i <= b <= |d| && (forall k :: i <= k < b ==> IsNameChar(d[k])) && (b < |d| ==> !IsNameChar(d[b]))
    ensures NameEnd(d, i) == b
    decreases b - i
  {
    hide IsNameChar;
    if i < b {
      RunEnd(d, i + 1, b);
    }
  }

  /** The run that is directly before an equals sign loses its last character to it, and does not count if it has no
      other; the search goes on behind it then. */
  lemma NameBeforeEquals(d: string, i: nat, b: nat)
    requires i < b < |d| && (forall k :: i <= k < b ==> NameChar(d[k])) && d[b] == '='
    ensures SearchName(d, i) == if b - i >= 2 then Some(d[i..b - 1]) else SearchName(d, b)
  {
    assert forall c :: NameChar(c) <==> IsNameChar(c);
    RunEnd(d, i, b);
  }

  /** A run that is the last thing or is followed by something else is the name, and what is no run is passed over. */
  lemma NameElsewhere(d: string, i: nat, b: nat)
    requires i <= b <= |d| && (forall k :: i <= k < b ==> NameChar(d[k]))
    requires b < |d| ==> !NameChar(d[b]) && d[b] != '='
    ensures b > i ==> SearchName(d, i) == Some(d[i..b])
    ensures b == i < |d| ==> SearchName(d, i) == SearchName(d, i + 1)
    ensures SearchName(d, |d|) == None
  {
    assert forall c :: NameChar(c) <==> IsNameChar(c);
    RunEnd(d, i, b);
  }

  lemma TagNameIs(d: string)
    ensures SearchName(d, 0).None? ==> TagName(d) == "<empty>"
    ensures SearchName(d, 0).Some? ==>
      var name := SearchName(d, 0).value;
      |TagName(d)| == |name| && forall k :: 0 <= k < |name| ==> TagName(d)[k] == Small(name[k])
  {
    if SearchName(d, 0).Some? {
      LowerIs(SearchName(d, 0).value);
    }
    hide SearchName, Lower, Small;
  }

  lemma {:induction false} NoName(d: string)
    requires forall k :: 0 <= k < |d| ==> !NameChar(d[k])
    ensures TagName(d) == "<empty>"
  {
    NoNameFrom(d, 0);
  }

  lemma {:induction false} NoNameFrom(d: string, i: nat)
    requires i <= |d| && forall k :: 0 <= k < |d| ==> !NameChar(d[k])
    ensures SearchName(d, i) == None
    decreases |d| - i
  {
    if i < |d| {
      NoNameFrom(d, i + 1);
    }
  }

  // ----- blanks around a text -----

  /** The code points that `str.isspace` accepts. */
  lemma Whitespace(c: char)
    ensures IsSpace(c) <==> c as int in {
      0x09, 0x0A, 0x0B, 0x0C, 0x0D, 0x1C, 0x1D, 0x1E, 0x1F, 0x20, 0x85, 0xA0, 0x1680,
      0x2000, 0x2001, 0x2002, 0x2003, 0x2004, 0x2005, 0x2006, 0x2007, 0x2008, 0x2009, 0x200A,
      0x2028, 0x2029, 0x202F, 0x205F, 0x3000}
  {
  }

  lemma {:induction false} StripLeftIs(s: string) returns (n: nat)
    ensures n <= |s| && StripLeft(s) == s[n..] && (forall i :: 0 <= i < n ==> IsSpace(s[i]))
    ensures n < |s| ==> !IsSpace(s[n])
  {
    hide IsSpace;
    n := 0;
    if s != "" && IsSpace(s[0]) {
      var m := StripLeftIs(s[1..]);
      n := m + 1;
      hide StripLeft;
      assert s[1..][m..] == s[n..];
      assert forall i :: 0 < i < n ==> s[i] == s[1..][i - 1];
    }
  }

  lemma {:induction false} StripRightIs(s: string) returns (m: nat)
    ensures m <= |s| && StripRight(s) == s[..m] && (forall i :: m <= i < |s| ==> IsSpace(s[i]))
    ensures m > 0 ==> !IsSpace(s[m - 1])
  {
    hide IsSpace;
    m := |s|;
    if s != "" && IsSpace(s[|s| - 1]) {
      m := StripRightIs(s[..|s| - 1]);
    }
  }

  /** A stripped text is the text from its first to its last character that is no whitespace. */
  lemma StripIs(s: string) returns (a: nat, b: nat)
    ensures a <= b <= |s| && Strip(s) == s[a..b]
    ensures forall i :: 0 <= i < a || b <= i < |s| ==> IsSpace(s[i])
    ensures a < b ==> !IsSpace(s[a]) && !IsSpace(s[b - 1])
  {
    a := StripLeftIs(s);
    var m := StripRightIs(s[a..]);
    b := a + m;
    hide StripLeft, StripRight, IsSpace;
    assert s[a..][..m] == s[a..b];
    assert forall i :: b <= i < |s| ==> s[i] == s[a..][i - a];
  }

  // ----- depth -----

  /** The elements that are open after a token. At most 17 are tracked; a closing tag closes everything from the
      innermost element with its name on, and nothing if there is none. */
  ghost function OpenAfter(open: seq<string>, t: Token): seq<string> {
    if t.Text? then open
    else if IsOpening(t.data) then (if |open| < 17 then open + [TagName(t.data)] else open)
    else if IsClosing(t.data) then open[..LastOf(open, TagName(t.data))]
    else open
  }

  /** The last position of a name, or the length. */
  ghost function LastOf(open: seq<string>, name: string): (i: nat)
    ensures i <= |open|
  {
    if name !in open then |open|
    else if open[|open| - 1] == name then |open| - 1
    else LastOf(open[..|open| - 1], name)
  }

  ghost function OpenBefore(ts: seq<Token>, i: nat): seq<string>
    requires i <= |ts|
  {
    if i == 0 then [] else OpenAfter(OpenBefore(ts, i - 1), ts[i - 1])
  }

  /** How many of the elements indent what is inside them. */
  ghost function Depth(open: seq<string>): nat {
    if open == [] then 0
    else (if open[0] == "xml" || open[0] == "doctype" || open[0] == "html" then 0 else 1) + Depth(open[1..])
  }

  /** The number of spaces after a token: two more for an indenting element, and two less for each one that is closed,
      but none at all after a tag that closes only elements of the other kind. */
  ghost function SpacesAfter(open: seq<string>, spaces: nat, t: Token): nat {
    var u := OpenAfter(open, t);
    if |u| > |open| then spaces + 2 * Depth(u[|open|..])
    else if |u| == |open| then spaces
    else
      var closed := 2 * Depth(open[|u|..]);
      if closed == 0 || closed > spaces then 0 else spaces - closed
  }

  ghost function SpacesBefore(ts: seq<Token>, i: nat): nat
    requires i <= |ts|
  {
    if i == 0 then 0 else SpacesAfter(OpenBefore(ts, i - 1), SpacesBefore(ts, i - 1), ts[i - 1])
  }

  ghost function Spaces(n: nat): (s: string)
    ensures |s| == n && forall i :: 0 <= i < n ==> s[i] == ' '
  {
    if n == 0 then "" else Spaces(n - 1) + " "
  }

  lemma {:induction false} DepthConcat(a: seq<string>, b: seq<string>)
    ensures Depth(a + b) == Depth(a) + Depth(b)
  {
    if a == [] {
      assert a + b == b;
    } else {
      assert (a + b)[0] == a[0] && (a + b)[1..] == a[1..] + b;
      DepthConcat(a[1..], b);
    }
  }

  lemma {:induction false} DepthIs(open: seq<string>)
    ensures Depth(open) == Indenting(open)
  {
    if open != [] {
      var n := |open| - 1;
      DepthIs(open[..n]);
      assert open == open[..n] + [open[n]];
      DepthConcat(open[..n], [open[n]]);
      DepthOne(open[n]);
    }
  }

  lemma DepthOne(tag: string)
    ensures Depth([tag]) == if tag in NO_INDENT_TAGS then 0 else 1
  {
    assert [tag][1..] == [] && Depth([]) == 0;
  }

  lemma {:induction false} LastOfIs(open: seq<string>, name: string)
    requires name in open
    ensures LastOf(open, name) == Innermost(open, name)
  {
    if open[|open| - 1] != name {
      LastOfIs(open[..|open| - 1], name);
    }
  }

  lemma SpacesCut(n: nat, k: nat)
    ensures PyTake(Spaces(n), 0 - k) == if k == 0 || k > n then "" else Spaces(n - k)
    ensures Spaces(n) + "  " == Spaces(n + 2)
  {
    if 0 < k <= n {
      var a, b := PyTake(Spaces(n), 0 - k), Spaces(n - k);
      assert |a| == |b| && forall i :: 0 <= i < |a| ==> a[i] == b[i];
    }
    var c, d := Spaces(n) + "  ", Spaces(n + 2);
    assert |c| == |d| && forall i :: 0 <= i < |c| ==> c[i] == d[i];
  }

  lemma PushIs(open: seq<string>, n: nat, tag: string)
    ensures Push(Stack(open, Spaces(n)), tag)
         == if |open| < 17 then Stack(open + [tag], Spaces(n + 2 * Depth([tag]))) else Stack(open, Spaces(n))
  {
    DepthOne(tag);
    SpacesCut(n, 0);
    hide Spaces, Depth;
  }

  lemma PopIs(open: seq<string>, n: nat, tag: string)
    ensures Pop(Stack(open, Spaces(n)), tag)
         == var i := LastOf(open, tag);
            var closed := 2 * Depth(open[i..]);
            if i == |open| then Stack(open, Spaces(n))
            else Stack(open[..i], if closed == 0 || closed > n then "" else Spaces(n - closed))
  {
    if tag in open {
      LastOfIs(open, tag);
      var i := Innermost(open, tag);
      DepthIs(open[i..]);
      SpacesCut(n, 2 * Depth(open[i..]));
      hide Innermost, LastOf, Indenting, Depth, Spaces, PyTake;
    }
  }

  lemma StepIs(open: seq<string>, n: nat, t: Token)
    ensures
      var s, tag := Stack(open, Spaces(n)), TagName(t.data);
      (if t.Text? then s
       else if IsOpening(t.data) then Push(s, tag)
       else if IsClosing(t.data) then Pop(s, tag)
       else s)
      == Stack(OpenAfter(open, t), Spaces(SpacesAfter(open, n, t)))
  {
    var tag := TagName(t.data);
    PushIs(open, n, tag);
    PopIs(open, n, tag);
    OneKind(t.data);
    assert (open + [tag])[|open|..] == [tag];
    assert open[..|open|] == open;
    hide TagName, IsOpening, IsClosing, Push, Pop, LastOf, Depth, Spaces;
  }

  /** The stack of the formatter before each token of any document. */
  lemma {:induction false} StackIs(ts: seq<Token>, i: nat, indentText: IndentText)
    requires i <= |ts|
    ensures StackBefore(ts, i, indentText) == Stack(OpenBefore(ts, i), Spaces(SpacesBefore(ts, i)))
  {
    hide TagName, IsOpening, IsClosing, Push, Pop, LastOf, Depth, Spaces, Write, OpenAfter, SpacesAfter;
    if i > 0 {
      StackIs(ts, i - 1, indentText);
      WriteStackIs(ts, i - 1, StackBefore(ts, i - 1, indentText), indentText);
      StepIs(OpenBefore(ts, i - 1), SpacesBefore(ts, i - 1), ts[i - 1]);
    } else {
      NoSpaces();
    }
  }

  lemma NoSpaces()
    ensures Spaces(0) == ""
  {
  }

  lemma WriteStackIs(ts: seq<Token>, i: nat, s: Stack, indentText: IndentText)
    requires i < |ts|
    ensures
      var d := ts[i].data;
      Write(ts, i, s, indentText).1
      == if ts[i].Text? then s
         else if IsOpening(d) then Push(s, TagName(d))
         else if IsClosing(d) then Pop(s, TagName(d))
         else s
  {
    hide IsOpening, IsClosing, IsInline, TagName, Push, Pop, Strip;
  }

  // ----- what is put on one line -----

  ghost predicate Opens(ts: seq<Token>, i: int) {
    0 <= i < |ts| && ts[i].Tag? && IsOpening(ts[i].data)
  }

  ghost predicate Closes(ts: seq<Token>, i: int) {
    0 <= i < |ts| && ts[i].Tag? && IsClosing(ts[i].data)
  }

  /** An opening tag, a text without a line break, and the closing tag of the same name. */
  ghost predicate TextElement(ts: seq<Token>, i: int) {
    && Opens(ts, i) && Closes(ts, i + 2) && ts[i + 1].Text? && '\n' !in ts[i + 1].data
    && TagName(ts[i].data) == TagName(ts[i + 2].data)
  }

  /** An opening tag and the closing tag of the same name. */
  ghost predicate EmptyElement(ts: seq<Token>, i: int) {
    Opens(ts, i) && Closes(ts, i + 1) && TagName(ts[i].data) == TagName(ts[i + 1].data)
  }

  /** What is written for a token: an element that is empty or holds one line of text goes on one line, with its text
      stripped and its closing tag as it is; every other token goes on a line of its own; and each line starts as far
      in as its first token stands, closing tags already outside their element. */
  ghost function Line(ts: seq<Token>, i: nat, indentText: IndentText): string
    requires i < |ts|
  {
    var d := ts[i].data;
    var indented := indentText(d, Spaces(SpacesBefore(ts, i)));
    if ts[i].Text? then (if TextElement(ts, i - 1) then Strip(d) else indented + "\n")
    else if Opens(ts, i) then (if TextElement(ts, i) || EmptyElement(ts, i) then indented else indented + "\n")
    else if Closes(ts, i) then
      (if TextElement(ts, i - 2) || EmptyElement(ts, i - 1) then d
       else indentText(d, Spaces(SpacesBefore(ts, i + 1)))) + "\n"
    else indented + "\n"
  }

  lemma InlineIs(ts: seq<Token>, i: nat)
    requires i < |ts|
    ensures
      IsInline(At(ts, i - 2), At(ts, i - 1), ts[i], At(ts, i + 1), At(ts, i + 2))
      == if ts[i].Text? then TextElement(ts, i - 1)
         else TextElement(ts, i - 2) || TextElement(ts, i) || EmptyElement(ts, i) || EmptyElement(ts, i - 1)
  {
    InlineTextIs(ts, i - 2);
    InlineTextIs(ts, i - 1);
    InlineTextIs(ts, i);
    EmptyIs(ts, i - 1);
    EmptyIs(ts, i);
    hide IsInlineText, IsEmptyElement, TextElement, EmptyElement;
  }

  lemma InlineTextIs(ts: seq<Token>, i: int)
    ensures IsInlineText(At(ts, i), At(ts, i + 1), At(ts, i + 2)) <==> TextElement(ts, i)
  {
    hide IsOpening, IsClosing, TagName;
  }

  lemma EmptyIs(ts: seq<Token>, i: int)
    ensures IsEmptyElement(At(ts, i), At(ts, i + 1)) <==> EmptyElement(ts, i)
  {
    hide IsOpening, IsClosing, TagName;
  }

  /** A tag is not both. */
  lemma OneKind(d: string)
    ensures !(IsOpening(d) && IsClosing(d))
  {
  }

  lemma WriteIs(ts: seq<Token>, i: nat, indentText: IndentText)
    requires i < |ts|
    ensures Write(ts, i, StackBefore(ts, i, indentText), indentText).0 == Line(ts, i, indentText)
  {
    InlineIs(ts, i);
    StackIs(ts, i, indentText);
    StackIs(ts, i + 1, indentText);
    OneKind(ts[i].data);
    var s := StackBefore(ts, i, indentText);
    assert StackBefore(ts, i + 1, indentText) == Write(ts, i, s, indentText).1 by {
      hide Write;
    }
    NotOpen(ts, i);
    hide IsInline, IsOpening, IsClosing, TagName, Push, Pop, Strip, StackBefore, SpacesBefore, OpenBefore, Spaces;
    hide TextElement, EmptyElement;
    WriteStackIs(ts, i, s, indentText);
  }

  /** Only an opening tag starts such an element, and only a closing one ends it. */
  lemma NotOpen(ts: seq<Token>, i: nat)
    requires i < |ts|
    ensures TextElement(ts, i) || EmptyElement(ts, i) ==> Opens(ts, i)
    ensures TextElement(ts, i - 2) || EmptyElement(ts, i - 1) ==> Closes(ts, i)
    ensures !(Opens(ts, i) && Closes(ts, i))
  {
    OneKind(ts[i].data);
  }

  /** The formatted text is the lines of all tokens in order. */
  ghost function Lines(ts: seq<Token>, i: nat, indentText: IndentText): string
    requires i <= |ts|
    decreases |ts| - i
  {
    if i == |ts| then "" else Line(ts, i, indentText) + Lines(ts, i + 1, indentText)
  }

  lemma {:induction false} FormatFrom(ts: seq<Token>, i: nat, indentText: IndentText)
    requires i <= |ts|
    ensures Format(ts, indentText) == Join(Chunks(ts, i, indentText)) + Lines(ts, i, indentText)
    decreases |ts| - i
  {
    hide Chunks, Line, Lines, Join, Format;
    LinesMore(ts, i, indentText);
    if i < |ts| {
      FormatFrom(ts, i + 1, indentText);
      ChunksMore(ts, i, indentText);
      Associative(Join(Chunks(ts, i, indentText)), Line(ts, i, indentText), Lines(ts, i + 1, indentText));
    } else {
      FormatAll(ts, indentText);
    }
  }

  lemma LinesMore(ts: seq<Token>, i: nat, indentText: IndentText)
    requires i <= |ts|
    ensures Lines(ts, i, indentText) == if i == |ts| then "" else Line(ts, i, indentText) + Lines(ts, i + 1, indentText)
  {
  }

  lemma FormatAll(ts: seq<Token>, indentText: IndentText)
    ensures Format(ts, indentText) == Join(Chunks(ts, |ts|, indentText)) + ""
  {
  }

  lemma ChunksMore(ts: seq<Token>, i: nat, indentText: IndentText)
    requires i < |ts|
    ensures Join(Chunks(ts, i + 1, indentText)) == Join(Chunks(ts, i, indentText)) + Line(ts, i, indentText)
  {
    hide Chunks, Line, Join, Write, StackBefore;
    WriteIs(ts, i, indentText);
    JoinMore(ts, i, indentText);
  }

  lemma Associative(a: string, b: string, c: string)
    ensures a + b + c == a + (b + c)
  {
  }

  lemma JoinMore(ts: seq<Token>, i: nat, indentText: IndentText)
    requires i < |ts|
    ensures Join(Chunks(ts, i + 1, indentText))
         == Join(Chunks(ts, i, indentText)) + Write(ts, i, StackBefore(ts, i, indentText), indentText).0
  {
    var c := Chunks(ts, i, indentText);
    hide Write, StackBefore;
    assert Chunks(ts, i + 1, indentText)[..i] == c;
  }

  lemma FormatIs(ts: seq<Token>, indentText: IndentText)
    ensures Format(ts, indentText) == Lines(ts, 0, indentText)
  {
    FormatFrom(ts, 0, indentText);
    assert Join(Chunks(ts, 0, indentText)) == "";
    assert "" + Lines(ts, 0, indentText) == Lines(ts, 0, indentText);
  }

  /** As long as no closing tag has lost the indentation, a line starts two spaces further in for each open element that
      indents. */
  lemma SpacesAreDepth(ts: seq<Token>, i: nat, indentText: IndentText)
    requires i <= |ts| && NoneLoses(ts, i, indentText)
    ensures SpacesBefore(ts, i) == 2 * Depth(OpenBefore(ts, i))
  {
    IndentInStep(ts, i, indentText);
    StackIs(ts, i, indentText);
    DepthIs(OpenBefore(ts, i));
    assert InStep(StackBefore(ts, i, indentText));
  }
}
