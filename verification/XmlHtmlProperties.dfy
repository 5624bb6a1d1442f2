/** The prettifier modifies whitespace only, on any input; what the tokens look like; and how far the
    indentation follows the nesting. */
module XmlHtmlProperties {
  import opened Prelude
  import opened XmlHtml

  // ----- the ink: what is not whitespace -----

  ghost function Ink(s: string): string {
    if s == "" then ""
    else if IsSpace(s[0]) then Ink(s[1..])
    else [s[0]] + Ink(s[1..])
  }

  ghost function TokenInk(ts: seq<Token>): string {
    if ts == [] then "" else Ink(ts[0].data) + TokenInk(ts[1..])
  }

  /** All that is asked of `textwrap.dedent` and `textwrap.indent`. */
  ghost predicate KeepsInk(indentText: IndentText) {
    forall d, p :: Blank(p) ==> Ink(indentText(d, p)) == Ink(d)
  }

  lemma {:induction false} InkConcat(a: string, b: string)
    ensures Ink(a + b) == Ink(a) + Ink(b)
  {
    hide IsSpace, Ink;
    if a == "" {
      EmptyInk();
      assert a + b == b;
    } else {
      InkConcat(a[1..], b);
      InkFirst(a[0], a[1..]);
      InkFirst(a[0], a[1..] + b);
      assert a == [a[0]] + a[1..];
      assert a + b == [a[0]] + (a[1..] + b);
    }
  }

  lemma InkFirst(c: char, s: string)
    ensures Ink([c] + s) == (if IsSpace(c) then "" else [c]) + Ink(s)
  {
    assert ([c] + s)[1..] == s;
  }

  lemma InkSplit(s: string, n: nat)
    requires n <= |s|
    ensures Ink(s) == Ink(s[..n]) + Ink(s[n..])
  {
    hide Ink;
    assert s == s[..n] + s[n..];
    InkConcat(s[..n], s[n..]);
  }

  lemma {:induction false} StripLeftInk(s: string)
    ensures Ink(StripLeft(s)) == Ink(s)
  {
    if s != "" && IsSpace(s[0]) {
      StripLeftInk(s[1..]);
    }
  }

  lemma {:induction false} StripRightInk(s: string)
    ensures Ink(StripRight(s)) == Ink(s)
  {
    var n := |s| - 1;
    if s != "" && IsSpace(s[n]) {
      StripRightInk(s[..n]);
      InkSplit(s, n);
      assert Ink(s[n..]) == "";
    }
  }

  lemma StripInk(s: string)
    ensures Ink(Strip(s)) == Ink(s)
  {
    StripLeftInk(s);
    StripRightInk(StripLeft(s));
  }

  // ----- tokenizing loses no ink -----

  lemma {:induction false} TextModeInk(s: string)
    ensures TokenInk(TextMode(s)) == Ink(s)
    decreases |s|, 1
  {
    EmptyInk();
    hide Ink, Strip, Find, TagMode, IsSpace;
    if s != "" {
      var e := Find(s, '<');
      InkSplit(s, e);
      TagModeInk("", s[e..]);
      TextStep(s);
      InTagMode("", s[e..]);
      if Strip(s[..e]) == "" {
        StripInk(s[..e]);
        assert [] + TagMode("", s[e..]) == TagMode("", s[e..]);
      } else {
        assert ([Text(s[..e])] + TagMode("", s[e..]))[1..] == TagMode("", s[e..]);
      }
    }
  }

  lemma {:induction false} TagModeInk(begun: string, s: string)
    ensures TokenInk(TagMode(begun, s)) == Ink(begun) + Ink(s)
    decreases |s|, 0
  {
    hide Ink, Done, Strip, TextMode;
    EmptyInk();
    if s == "" {
      if Strip(begun) == "" {
        StripInk(begun);
      } else {
        assert [Tag(begun)][1..] == [];
      }
      assert Ink(begun) + "" == Ink(begun);
    } else {
      var n := PyBound(|s|, Find(s, '>') + 1);
      var tag := begun + s[..n];
      InkSplit(s, n);
      InkConcat(begun, s[..n]);
      if Done(tag) {
        TextModeInk(s[n..]);
        assert ([Tag(tag)] + TextMode(s[n..]))[1..] == TextMode(s[n..]);
      } else {
        TagModeInk(tag, s[n..]);
      }
    }
  }

  // ----- formatting writes the ink of every token once -----

  lemma {:induction false} StackIndentBlank(ts: seq<Token>, i: nat, indentText: IndentText)
    requires i <= |ts|
    ensures Blank(StackBefore(ts, i, indentText).indent)
  {
    if i > 0 {
      StackIndentBlank(ts, i - 1, indentText);
      var s := StackBefore(ts, i - 1, indentText);
      var tag := TagName(ts[i - 1].data);
      PushPopBlank(s, tag);
      WriteStack(ts, i - 1, s, indentText);
      hide Push, Pop, Blank, TagName, Write;
    }
  }

  /** A token pushes or pops its tag, or leaves the stack alone. */
  lemma WriteStack(ts: seq<Token>, i: nat, s: Stack, indentText: IndentText)
    requires i < |ts|
    ensures
      var t, tag := Write(ts, i, s, indentText).1, TagName(ts[i].data);
      t == s || t == Push(s, tag) || t == Pop(s, tag)
  {
    hide IsOpening, IsClosing, IsInline, TagName, Push, Pop, Strip;
  }

  lemma PushPopBlank(s: Stack, tag: string)
    requires Blank(s.indent)
    ensures Blank(Push(s, tag).indent) && Blank(Pop(s, tag).indent)
  {
  }

  /** Whatever is decided about inlining, the ink written for a token is the ink of the token. */
  lemma WriteInk(ts: seq<Token>, i: nat, s: Stack, indentText: IndentText)
    requires i < |ts| && KeepsInk(indentText) && Blank(s.indent)
    ensures Ink(Write(ts, i, s, indentText).0) == Ink(ts[i].data)
  {
    hide IsOpening, IsClosing, IsInline, TagName, Push, Pop, Strip, Blank, Ink, KeepsInk;
    var d := ts[i].data;
    PushPopBlank(s, TagName(d));
    StripInk(d);
    IndentInk(d, s.indent, indentText);
    IndentInk(d, Pop(s, TagName(d)).indent, indentText);
    LineInk(d);
  }

  /** An indented text has the ink of the text, with or without its newline. */
  lemma IndentInk(d: string, p: string, indentText: IndentText)
    requires KeepsInk(indentText) && Blank(p)
    ensures Ink(indentText(d, p) + "\n") == Ink(d) && Ink(indentText(d, p) + "") == Ink(d)
  {
    assert Ink(indentText(d, p)) == Ink(d);
    hide Ink;
    LineInk(indentText(d, p));
    assert indentText(d, p) + "" == indentText(d, p);
  }

  lemma LineInk(d: string)
    ensures Ink(d + "\n") == Ink(d)
  {
    hide Ink;
    InkConcat(d, "\n");
    NewlineInk();
    assert Ink(d) + "" == Ink(d);
  }

  lemma NewlineInk()
    ensures Ink("\n") == ""
  {
    assert "\n"[1..] == "";
  }

  /** Every token is written exactly once: one chunk to a token, with its ink. */
  lemma {:induction false} ChunksInk(ts: seq<Token>, n: nat, indentText: IndentText)
    requires n <= |ts| && KeepsInk(indentText)
    ensures forall i :: 0 <= i < n ==> Ink(Chunks(ts, n, indentText)[i]) == Ink(ts[i].data)
  {
    hide Ink, Write, StackBefore, KeepsInk;
    if n > 0 {
      ChunksInk(ts, n - 1, indentText);
      StackIndentBlank(ts, n - 1, indentText);
      WriteInk(ts, n - 1, StackBefore(ts, n - 1, indentText), indentText);
    }
  }

  lemma {:induction false} JoinInk(ss: seq<string>, ts: seq<Token>)
    requires |ss| == |ts| && forall i :: 0 <= i < |ss| ==> Ink(ss[i]) == Ink(ts[i].data)
    ensures Ink(Join(ss)) == TokenInk(ts)
  {
    hide Ink;
    if ss == [] {
      EmptyInk();
    } else {
      var n := |ss| - 1;
      JoinInk(ss[..n], ts[..n]);
      InkConcat(Join(ss[..n]), ss[n]);
      TokenInkLast(ts);
    }
  }

  lemma EmptyInk()
    ensures Ink("") == ""
  {
  }

  lemma {:induction false} TokenInkLast(ts: seq<Token>)
    requires ts != []
    ensures TokenInk(ts) == TokenInk(ts[..|ts| - 1]) + Ink(ts[|ts| - 1].data)
  {
    hide Ink;
    var n := |ts| - 1;
    if n > 0 {
      TokenInkLast(ts[1..]);
      assert ts[1..][..n - 1] == ts[..n][1..];
    } else {
      assert TokenInk(ts[1..]) == "";
    }
  }

  lemma FormatInk(ts: seq<Token>, indentText: IndentText)
    requires KeepsInk(indentText)
    ensures Ink(Format(ts, indentText)) == TokenInk(ts)
  {
    ChunksInk(ts, |ts|, indentText);
    JoinInk(Chunks(ts, |ts|, indentText), ts);
  }

  /** The prettifier modifies whitespace only, for every string. */
  lemma WhitespaceOnly(s: string, indentText: IndentText)
    requires KeepsInk(indentText)
    ensures Ink(Format(Tokens(s), indentText)) == Ink(s)
  {
    FormatInk(Tokens(s), indentText);
    TextModeInk(s);
  }

  // ----- the shape of the tokens -----

  ghost function Flat(ts: seq<Token>): string {
    if ts == [] then "" else ts[0].data + Flat(ts[1..])
  }

  /** No beginning of d that ends in ">" is a finished tag, up to length n. */
  ghost predicate Open(d: string, n: nat) {
    forall k :: 0 < k <= n && k <= |d| && d[k - 1] == '>' ==> !Done(d[..k])
  }

  /** A tag as short as it can be. */
  ghost predicate Complete(d: string) {
    d != "" && d[0] == '<' && Done(d) && Open(d, |d| - 1)
  }

  /** A tag that the end of the input cuts off. */
  ghost predicate CutOff(d: string) {
    d != "" && d[0] == '<' && Open(d, |d|)
  }

  /** Tokens that start in text mode: texts hold no "<" and some ink, tags are complete except perhaps the last
      token, and no two texts are neighbours. */
  ghost predicate FromText(ts: seq<Token>)
    decreases |ts|, 1
  {
    if ts != [] && ts[0].Text? then '<' !in ts[0].data && Strip(ts[0].data) != "" && FromTag(ts[1..])
    else FromTag(ts)
  }

  ghost predicate FromTag(ts: seq<Token>)
    decreases |ts|, 0
  {
    ts != [] ==>
      && ts[0].Tag?
      && (Complete(ts[0].data) || (|ts| == 1 && CutOff(ts[0].data)))
      && FromText(ts[1..])
  }

  lemma DoneEnds(d: string)
    requires Done(d)
    ensures d != "" && d[|d| - 1] == '>'
  {
    if IsComment(d) {
      assert d[|d| - 3..][2] == '>';
    } else if IsCdata(d) {
      assert d[|d| - 3..][2] == '>';
    } else {
      assert d[|d| - 1..][0] == '>';
    }
  }

  /** Reading up to the next ">" leaves no finished tag behind. */
  lemma NextClose(begun: string, s: string)
    requires s != "" && Open(begun, |begun|)
    ensures
      var n := PyBound(|s|, Find(s, '>') + 1);
      Open(begun + s[..n], |begun| + n - 1)
  {
    var n := PyBound(|s|, Find(s, '>') + 1);
    var t := s[..n];
    forall j | 0 <= j < n - 1
      ensures t[j] != '>'
    {
      assert s[..Find(s, '>')][j] == t[j];
    }
    OpenAppend(begun, t);
  }

  lemma OpenAppend(begun: string, t: string)
    requires t != "" && Open(begun, |begun|) && forall j :: 0 <= j < |t| - 1 ==> t[j] != '>'
    ensures Open(begun + t, |begun| + |t| - 1)
  {
    hide Done;
    var tag := begun + t;
    forall k | 0 < k <= |tag| - 1 && tag[k - 1] == '>'
      ensures !Done(tag[..k])
    {
      assert tag[..k] == begun[..k];
    }
  }

  lemma OpenToEnd(d: string)
    requires d != "" && Open(d, |d| - 1) && !Done(d)
    ensures Open(d, |d|)
  {
    assert d[..|d|] == d;
  }

  lemma {:induction false} TextModeShape(s: string)
    ensures FromText(TextMode(s))
    decreases |s|, 1
  {
    if s != "" {
      var e := Find(s, '<');
      TagModeShape("", s[e..]);
      TextStep(s);
      InTagMode("", s[e..]);
      hide Strip, TextMode, TagMode, Complete, CutOff, Find;
      var rest := TagMode("", s[e..]);
      if Strip(s[..e]) == "" {
        assert [] + rest == rest;
      } else {
        assert ([Text(s[..e])] + rest)[1..] == rest;
      }
    }
  }

  lemma {:induction false} TagModeShape(begun: string, s: string)
    requires begun + s != "" ==> (begun + s)[0] == '<'
    requires Open(begun, |begun|)
    ensures FromTag(TagMode(begun, s))
    decreases |s|, 0
  {
    if s == "" {
      assert begun + s == begun;
      if begun != "" {
        CutOffShape(begun);
      }
    } else {
      var n := PyBound(|s|, Find(s, '>') + 1);
      var tag := begun + s[..n];
      StepShape(begun, s, n, tag);
      TagModeUnfold(begun, s);
      hide TagMode, TextMode, Find, Done, Open, Complete, Strip, FromTag, FromText;
      if Done(tag) {
        TextModeShape(s[n..]);
        TagThenText(tag, TextMode(s[n..]));
      } else {
        TagModeShape(tag, s[n..]);
      }
    }
  }

  /** The tag in hand, after reading up to the next ">". */
  lemma StepShape(begun: string, s: string, n: nat, tag: string)
    requires s != "" && (begun + s)[0] == '<' && Open(begun, |begun|)
    requires n == PyBound(|s|, Find(s, '>') + 1) && tag == begun + s[..n]
    ensures Done(tag) ==> Complete(tag)
    ensures !Done(tag) ==> Open(tag, |tag|)
    ensures tag + s[n..] == begun + s
  {
    NextClose(begun, s);
    Regroup(begun, s, n);
    hide Find, Done, Open;
    if !Done(tag) {
      OpenToEnd(tag);
    }
  }

  lemma Regroup(a: string, s: string, n: nat)
    requires 0 < n <= |s|
    ensures (a + s[..n]) + s[n..] == a + s
    ensures (a + s[..n])[0] == (a + s)[0]
  {
  }

  lemma CutOffShape(d: string)
    requires CutOff(d)
    ensures FromTag([Tag(d)])
  {
    assert [Tag(d)][1..] == [];
  }

  lemma TagThenText(d: string, ts: seq<Token>)
    requires Complete(d) && FromText(ts)
    ensures FromTag([Tag(d)] + ts)
  {
    assert ([Tag(d)] + ts)[1..] == ts;
  }

  /** Reading a complete tag, from any point inside it. */
  lemma {:induction false} ReadComplete(d: string, b: nat, r: string)
    requires Complete(d) && b < |d|
    ensures TagMode(d[..b], d[b..] + r) == [Tag(d)] + TextMode(r)
    decreases |d| - b
  {
    hide Done, TextMode;
    DoneEnds(d);
    var s := d[b..] + r;
    assert s[|d| - b - 1] == '>';
    var n := Find(s, '>') + 1;
    assert d[..b] + s[..n] == d[..b + n];
    assert s[n..] == d[b + n..] + r;
    if b + n < |d| {
      assert d[b + n - 1] == s[n - 1];
      assert !Done(d[..b + n]);
      ReadComplete(d, b + n, r);
    } else {
      assert d[..b + n] == d;
      assert d[b + n..] + r == r;
    }
  }

  lemma NeverDone(d: string, k: nat)
    requires CutOff(d) && 0 < k <= |d|
    ensures !Done(d[..k])
  {
    if Done(d[..k]) {
      DoneEnds(d[..k]);
    }
  }

  lemma {:induction false} ReadCutOff(d: string, b: nat)
    requires CutOff(d) && b <= |d|
    ensures TagMode(d[..b], d[b..]) == [Tag(d)]
    decreases |d| - b
  {
    hide TagMode, Done, CutOff, Find, Strip;
    if b == |d| {
      CutOffEnd(d);
    } else {
      var s := d[b..];
      var n := PyBound(|s|, Find(s, '>') + 1);
      TagModeUnfold(d[..b], s);
      Resume(d, b, n);
      NeverDone(d, b + n);
      ReadCutOff(d, b + n);
    }
  }

  lemma Resume(d: string, b: nat, n: nat)
    requires b + n <= |d|
    ensures d[..b] + d[b..][..n] == d[..b + n] && d[b..][n..] == d[b + n..]
  {
  }

  lemma CutOffEnd(d: string)
    requires CutOff(d)
    ensures TagMode(d[..|d|], d[|d|..]) == [Tag(d)]
  {
    CutOffInky(d);
    hide Strip;
    assert d[..|d|] == d && d[|d|..] == "";
  }

  lemma TagModeUnfold(begun: string, s: string)
    requires s != ""
    ensures
      var n := PyBound(|s|, Find(s, '>') + 1);
      var tag := begun + s[..n];
      n > 0 && TagMode(begun, s) == if Done(tag) then [Tag(tag)] + TextMode(s[n..]) else TagMode(tag, s[n..])
  {
  }

  lemma CutOffInky(d: string)
    requires CutOff(d)
    ensures Strip(d) != ""
  {
    StripInk(d);
    assert Ink(d) != "";
    if Strip(d) == "" {
      EmptyInk();
    }
  }

  lemma {:induction false} ReadFromTag(ts: seq<Token>)
    requires FromTag(ts)
    ensures TagMode("", Flat(ts)) == ts
    ensures ts != [] ==> Flat(ts) != "" && Flat(ts)[0] == '<'
    decreases |ts|, 0
  {
    hide Complete, CutOff, TextMode;
    if ts != [] {
      var d := ts[0].data;
      assert d != "" && d[0] == '<' by { TagStarts(d); }
      if Complete(d) {
        ReadComplete(d, 0, Flat(ts[1..]));
        ReadFromText(ts[1..]);
        assert d[0..] == d && d[..0] == "";
        assert ts == [Tag(d)] + ts[1..];
      } else {
        ReadCutOff(d, 0);
        assert d[0..] == d && d[..0] == "" && Flat(ts[1..]) == "";
        assert d + "" == d;
        assert ts == [Tag(d)];
      }
    }
  }

  lemma TagStarts(d: string)
    requires Complete(d) || CutOff(d)
    ensures d != "" && d[0] == '<'
  {
  }

  lemma ReadOneText(d: string, rest: string)
    requires '<' !in d && Strip(d) != "" && (rest != "" ==> rest[0] == '<')
    ensures TextMode(d + rest) == [Text(d)] + TagMode("", rest)
  {
    StripNotEmpty(d);
    var s := d + rest;
    TextStep(s);
    FindIs(s, '<', |d|);
    InTagMode("", rest);
    assert s[..|d|] == d && s[|d|..] == rest;
  }

  lemma FindIs(s: string, c: char, i: nat)
    requires i <= |s| && c !in s[..i] && (i < |s| ==> s[i] == c)
    ensures Find(s, c) == i
  {
    var j := Find(s, c);
    assert j < |s| ==> s[j] == c;
  }

  lemma {:induction false} ReadFromText(ts: seq<Token>)
    requires FromText(ts)
    ensures TextMode(Flat(ts)) == ts
    decreases |ts|, 1
  {
    hide Complete, CutOff, Strip, Find;
    if ts != [] && ts[0].Text? {
      var d, rest := ts[0].data, Flat(ts[1..]);
      ReadFromTag(ts[1..]);
      ReadOneText(d, rest);
      assert ts == [Text(d)] + ts[1..];
    } else {
      ReadFromTag(ts);
      ReadNoText(Flat(ts));
    }
  }

  lemma ReadNoText(s: string)
    requires s != "" ==> s[0] == '<'
    ensures TextMode(s) == TagMode("", s)
  {
    if s != "" {
      TextStep(s);
      InTagMode("", s);
      assert s[0..] == s && s[..0] == "";
      assert [] + TagMode("", s) == TagMode("", s);
    }
  }

  lemma StripNotEmpty(d: string)
    requires Strip(d) != ""
    ensures d != ""
  {
  }

  /** Exactly the sequences of this shape are tokenizations; each is found again in its own text. */
  lemma ShapeIsExact(ts: seq<Token>)
    ensures Tokens(Flat(ts)) == ts <==> FromText(ts)
  {
    TextModeShape(Flat(ts));
    if FromText(ts) {
      ReadFromText(ts);
    }
  }

  /** Tokenizing what the tokens hold changes nothing. */
  lemma TokensStable(s: string)
    ensures Tokens(Flat(Tokens(s))) == Tokens(s)
  {
    TextModeShape(s);
    ShapeIsExact(Tokens(s));
  }

  // ----- indentation and nesting -----

  lemma {:induction false} IndentingSplit(tags: seq<string>, i: nat)
    requires i <= |tags|
    ensures Indenting(tags) == Indenting(tags[..i]) + Indenting(tags[i..])
  {
    var n := |tags| - 1;
    if i == |tags| {
      assert tags[..i] == tags && tags[i..] == [];
    } else {
      IndentingSplit(tags[..n], i);
      assert tags[..n][..i] == tags[..i] && tags[..n][i..] == tags[i..][..n - i];
      assert tags[i..][n - i] == tags[n];
    }
  }

  /** The indentation is never deeper than the nesting of indenting elements, of which at most 17 are tracked. */
  lemma {:induction false} IndentBounded(ts: seq<Token>, i: nat, indentText: IndentText)
    requires i <= |ts|
    ensures var s := StackBefore(ts, i, indentText); |s.indent| <= 2 * Indenting(s.open) && |s.open| <= 17
  {
    if i > 0 {
      hide Push, Pop, TagName, Indenting, Write;
      IndentBounded(ts, i - 1, indentText);
      StackStep(ts, i - 1, indentText);
      StackBounded(StackBefore(ts, i - 1, indentText), TagName(ts[i - 1].data));
      hide StackBefore;
    }
  }

  lemma StackStep(ts: seq<Token>, i: nat, indentText: IndentText)
    requires i < |ts|
    ensures
      var s, t, tag := StackBefore(ts, i, indentText), StackBefore(ts, i + 1, indentText), TagName(ts[i].data);
      t == s || t == Push(s, tag) || t == Pop(s, tag)
  {
    hide Write, Push, Pop, TagName;
    WriteStack(ts, i, StackBefore(ts, i, indentText), indentText);
  }

  lemma StackBounded(s: Stack, tag: string)
    requires |s.indent| <= 2 * Indenting(s.open) && |s.open| <= 17
    ensures |Push(s, tag).indent| <= 2 * Indenting(Push(s, tag).open) && |Push(s, tag).open| <= 17
    ensures |Pop(s, tag).indent| <= 2 * Indenting(Pop(s, tag).open) && |Pop(s, tag).open| <= 17
  {
    assert (s.open + [tag])[..|s.open|] == s.open;
    if tag in s.open {
      IndentingSplit(s.open, Innermost(s.open, tag));
    }
  }

  /** Two columns for each indenting element. */
  ghost predicate InStep(s: Stack) {
    |s.indent| == 2 * Indenting(s.open)
  }

  /** What a closing tag does to a stack in step: it stays in step exactly when the tag closes an indenting element,
      or nothing at all, or there is no indentation left to lose. */
  lemma PopKeepsDepth(s: Stack, tag: string)
    requires InStep(s)
    ensures InStep(Pop(s, tag))
        <==> tag !in s.open || Indenting(s.open[Innermost(s.open, tag)..]) > 0 || s.indent == ""
  {
    if tag in s.open {
      IndentingSplit(s.open, Innermost(s.open, tag));
    }
  }

  /** Token i is a closing tag, it closes open elements of which none indents, and there is indentation to lose. */
  ghost predicate LosesIndent(ts: seq<Token>, i: nat, indentText: IndentText)
    requires i < |ts|
  {
    var s, tag := StackBefore(ts, i, indentText), TagName(ts[i].data);
    && ts[i].Tag? && IsClosing(ts[i].data) && tag in s.open
    && Indenting(s.open[Innermost(s.open, tag)..]) == 0 && s.indent != ""
  }

  lemma StepInStep(ts: seq<Token>, i: nat, indentText: IndentText)
    requires i < |ts| && InStep(StackBefore(ts, i, indentText))
    ensures InStep(StackBefore(ts, i + 1, indentText)) <==> !LosesIndent(ts, i, indentText)
  {
    var s, tag := StackBefore(ts, i, indentText), TagName(ts[i].data);
    PopKeepsDepth(s, tag);
    PushInStep(s, tag);
    hide InStep, TagName, Push, Pop, Innermost, Indenting, IsInline;
  }

  lemma PushInStep(s: Stack, tag: string)
    requires InStep(s)
    ensures InStep(Push(s, tag))
  {
    assert (s.open + [tag])[..|s.open|] == s.open;
  }

  ghost predicate StaysInStep(ts: seq<Token>, n: nat, indentText: IndentText)
    requires n <= |ts|
  {
    forall i :: 0 <= i <= n ==> InStep(StackBefore(ts, i, indentText))
  }

  ghost predicate NoneLoses(ts: seq<Token>, n: nat, indentText: IndentText)
    requires n <= |ts|
  {
    forall i :: 0 <= i < n ==> !LosesIndent(ts, i, indentText)
  }

  /** The indentation is in step with the nesting before every token of a document exactly when none of the tokens
      loses it; it goes out of step at the first one that does. */
  lemma {:induction false} IndentInStep(ts: seq<Token>, n: nat, indentText: IndentText)
    requires n <= |ts|
    ensures StaysInStep(ts, n, indentText) <==> NoneLoses(ts, n, indentText)
  {
    hide LosesIndent, InStep, StackBefore;
    if n == 0 {
      NothingInStep(ts, indentText);
    } else {
      IndentInStep(ts, n - 1, indentText);
      if InStep(StackBefore(ts, n - 1, indentText)) {
        StepInStep(ts, n - 1, indentText);
      }
      assert StaysInStep(ts, n, indentText)
        <==> StaysInStep(ts, n - 1, indentText) && InStep(StackBefore(ts, n, indentText));
      assert NoneLoses(ts, n, indentText)
        <==> NoneLoses(ts, n - 1, indentText) && !LosesIndent(ts, n - 1, indentText);
    }
  }

  lemma NothingInStep(ts: seq<Token>, indentText: IndentText)
    ensures InStep(StackBefore(ts, 0, indentText))
  {
  }

  /** A document that loses it: after `<a><html></html>` the element a is still open, but nothing is indented. */
  lemma HtmlLosesIndent(indentText: IndentText)
    ensures
      var ts := Tokens("<a><html></html>");
      ts == [Tag("<a>"), Tag("<html>"), Tag("</html>")]
      && StackBefore(ts, 3, indentText) == Stack(["a"], "") && LosesIndent(ts, 2, indentText)
  {
    var ts := [Tag("<a>"), Tag("<html>"), Tag("</html>")];
    HtmlTokens();
    HtmlNames();
    HtmlStack(indentText);
  }

  lemma HtmlTokens()
    ensures Tokens("<a><html></html>") == [Tag("<a>"), Tag("<html>"), Tag("</html>")]
  {
    hide Complete, Tokens;
    HtmlComplete();
    ThreeTags("<a>", "<html>", "</html>");
    assert "<a>" + ("<html>" + "</html>") == "<a><html></html>";
  }

  lemma HtmlComplete()
    ensures Complete("<a>") && Complete("<html>") && Complete("</html>")
  {
    hide Complete;
    PlainComplete("<a>");
    PlainComplete("<html>");
    PlainComplete("</html>");
  }

  lemma ThreeTags(a: string, b: string, c: string)
    requires Complete(a) && Complete(b) && Complete(c)
    ensures Tokens(a + (b + c)) == [Tag(a), Tag(b), Tag(c)]
  {
    var ts := [Tag(a), Tag(b), Tag(c)];
    hide Complete, Flat, Tokens;
    FlatThree(ts[0], ts[1], ts[2]);
    assert [Tag(c)] + [] == [Tag(c)] && [Tag(b)] + [Tag(c)] == [Tag(b), Tag(c)] && [Tag(a)] + [Tag(b), Tag(c)] == ts;
    TagFirst(c, []);
    TagFirst(b, [Tag(c)]);
    TagFirst(a, [Tag(b), Tag(c)]);
    ShapeIsExact(ts);
  }

  lemma TagFirst(d: string, ts: seq<Token>)
    requires Complete(d) && (ts != [] ==> FromText(ts))
    ensures FromText([Tag(d)] + ts)
  {
    hide Complete;
    TagThenText(d, ts);
  }

  lemma FlatThree(a: Token, b: Token, c: Token)
    ensures Flat([a, b, c]) == a.data + (b.data + c.data)
  {
    assert Flat([]) == "";
    assert [c][1..] == [] && Flat([c]) == c.data + "";
    assert [b, c][1..] == [c] && Flat([b, c]) == b.data + Flat([c]);
    assert [a, b, c][1..] == [b, c] && Flat([a, b, c]) == a.data + Flat([b, c]);
  }

  lemma PlainComplete(d: string)
    requires |d| >= 2 && d[0] == '<' && d[1] != '!' && d[|d| - 1] == '>'
    requires forall k :: 0 <= k < |d| - 1 ==> d[k] != '>'
    ensures Complete(d)
  {
    assert !IsComment(d) && !IsCdata(d) by {
      assert "<!--"[1] == '!' && "<![CDATA["[1] == '!';
    }
    assert d[|d| - 1..] == ">";
  }

  lemma HtmlNames()
    ensures TagName("<a>") == "a" && TagName("<html>") == "html" && TagName("</html>") == "html"
    ensures IsOpening("<a>") && IsOpening("<html>") && IsClosing("</html>") && !IsOpening("</html>")
  {
    hide TagName, IsOpening, IsClosing;
    OpenTag("a");
    OpenTag("html");
    CloseTag("html");
    NotVoid();
    assert "<" + "a" + ">" == "<a>" && "<" + "html" + ">" == "<html>" && "</" + "html" + ">" == "</html>";
  }

  lemma NotVoid()
    ensures "a" !in VOID_ELEMENTS && "html" !in VOID_ELEMENTS
  {
  }

  ghost predicate Letters(name: string) {
    name != "" && forall k :: 0 <= k < |name| ==> 'a' <= name[k] <= 'z'
  }

  lemma OpenTag(name: string)
    requires Letters(name)
    ensures TagName("<" + name + ">") == name
    ensures name !in VOID_ELEMENTS ==> IsOpening("<" + name + ">")
  {
    var d := "<" + name + ">";
    NameIs(d, 0, 1, |name| + 1);
    LowerLetters(name);
    assert d[1..|name| + 1] == name;
    hide SearchName, Letters, Lower;
    assert d[1] == name[0] && d[|d| - 2] == name[|name| - 1];
    NotSpecial(d);
  }

  lemma CloseTag(name: string)
    requires Letters(name)
    ensures TagName("</" + name + ">") == name && IsClosing("</" + name + ">") && !IsOpening("</" + name + ">")
  {
    var d := "</" + name + ">";
    NameIs(d, 0, 2, |name| + 2);
    LowerLetters(name);
    assert d[2..|name| + 2] == name;
  }

  lemma LowerLetters(name: string)
    requires Letters(name)
    ensures Lower(name) == name
  {
  }

  /** A tag with neither "!" nor "/" behind the bracket or before the end. */
  lemma NotSpecial(d: string)
    requires |d| >= 3 && d[1] != '!' && d[1] != '/' && d[|d| - 2] != '/'
    ensures !IsComment(d) && !IsCdata(d) && !IsClosing(d) && !EndsWith(d, "/>")
  {
    assert "<!--"[1] == '!' && "<![CDATA["[1] == '!' && "</"[1] == '/';
    assert d[|d| - 2..][0] == d[|d| - 2];
  }

  lemma {:induction false} NameIs(data: string, i: nat, a: nat, b: nat)
    requires i <= a < b < |data| && !IsNameChar(data[b]) && data[b] != '='
    requires forall k :: i <= k < a ==> !IsNameChar(data[k])
    requires forall k :: a <= k < b ==> IsNameChar(data[k])
    ensures SearchName(data, i) == Some(data[a..b])
    decreases a - i
  {
    hide IsNameChar;
    if i < a {
      NameIs(data, i + 1, a, b);
    } else {
      NameEndIs(data, a, b);
    }
  }

  lemma {:induction false} NameEndIs(data: string, i: nat, b: nat)
    requires i <= b < |data| && !IsNameChar(data[b]) && forall k :: i <= k < b ==> IsNameChar(data[k])
    ensures NameEnd(data, i) == b
    decreases b - i
  {
    hide IsNameChar;
    if i < b {
      NameEndIs(data, i + 1, b);
    }
  }

  lemma HtmlStack(indentText: IndentText)
    requires TagName("<a>") == "a" && TagName("<html>") == "html" && TagName("</html>") == "html"
    requires IsOpening("<a>") && IsOpening("<html>") && IsClosing("</html>") && !IsOpening("</html>")
    ensures
      var ts := [Tag("<a>"), Tag("<html>"), Tag("</html>")];
      StackBefore(ts, 2, indentText) == Stack(["a", "html"], "  ") && StackBefore(ts, 3, indentText) == Stack(["a"], "")
  {
    hide TagName, IsOpening, IsClosing, IsInline;
    var ts := [Tag("<a>"), Tag("<html>"), Tag("</html>")];
    assert StackBefore(ts, 0, indentText) == Stack([], "");
  }
}
