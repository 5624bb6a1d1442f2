/** The lexer of mitmproxy/command_lexer.py, on which every input is valid, and the quoting that it undoes. */
module CommandLexer {
  import opened Prelude

  predicate IsQuote(c: char) {
    c == '"' || c == '\''
  }

  predicate IsWhite(c: char) {
    c == ' ' || c == '\r' || c == '\n' || c == '\t'
  }

  predicate IsPlain(c: char) {
    !IsQuote(c) && !IsWhite(c)
  }

  // ----- tokens -----

  /** The length of the longest beginning of s whose characters satisfy p. */
  function Span(s: string, p: char -> bool): (n: nat)
    ensures n <= |s| && (forall i :: 0 <= i < n ==> p(s[i])) && (n < |s| ==> !p(s[n]))
  {
    if s == "" || !p(s[0]) then 0 else 1 + Span(s[1..], p)
  }

  /** The token at the front: a string up to its closing quote or the end of the input, a run of whitespace, or a run
      of anything else. */
  function TokenLength(s: string): (n: nat)
    requires s != ""
    ensures 0 < n <= |s|
  {
    if IsQuote(s[0]) then PyBound(|s|, Span(s[1..], c => c != s[0]) + 2)
    else if IsWhite(s[0]) then Span(s, IsWhite)
    else Span(s, IsPlain)
  }

  function Lex(s: string): seq<string>
    decreases |s|
  {
    if s == "" then [] else [s[..TokenLength(s)]] + Lex(s[TokenLength(s)..])
  }

  // ----- tabs -----

  function NextColumn(c: char, column: nat): nat {
    if c == '\t' then column + (8 - column % 8) else if c == '\n' || c == '\r' then 0 else column + 1
  }

  function ColumnAfter(s: string, column: nat): nat {
    if s == "" then column else ColumnAfter(s[1..], NextColumn(s[0], column))
  }

  /** Python's `str.expandtabs` of a text that starts in the given column: every tab becomes one to eight spaces. */
  function ExpandTabs(s: string, column: nat): string {
    if s == "" then ""
    else
      (if s[0] == '\t' then seq(8 - column % 8, _ => ' ') else [s[0]]) + ExpandTabs(s[1..], NextColumn(s[0], column))
  }

  /** `expr.parseString(s)`: pyparsing expands the tabs of a text before it matches. */
  function ParseString(s: string): seq<string> {
    Lex(ExpandTabs(s, 0))
  }

  lemma {:induction false} ExpandCut(a: string, b: string, column: nat)
    ensures ExpandTabs(a + b, column) == ExpandTabs(a, column) + ExpandTabs(b, ColumnAfter(a, column))
  {
    if a == "" {
      assert a + b == b;
    } else {
      assert (a + b)[0] == a[0] && (a + b)[1..] == a[1..] + b;
      ExpandCut(a[1..], b, NextColumn(a[0], column));
    }
  }

  /** Expanding adds nothing but spaces. */
  lemma {:induction false} ExpandAdds(s: string, column: nat, c: char)
    requires c != ' ' && c !in s
    ensures c !in ExpandTabs(s, column)
  {
    if s != "" {
      assert forall d :: d in s[1..] ==> d in s;
      ExpandAdds(s[1..], NextColumn(s[0], column), c);
      assert s[0] in s;
    }
  }

  /** Expanding leaves no tab, and changes exactly the texts that hold one. */
  lemma {:induction false} ExpandExact(s: string, column: nat)
    ensures '\t' !in ExpandTabs(s, column)
    ensures ExpandTabs(s, column) == s <==> '\t' !in s
  {
    if s != "" {
      ExpandExact(s[1..], NextColumn(s[0], column));
      assert s == [s[0]] + s[1..];
      var head := if s[0] == '\t' then seq(8 - column % 8, _ => ' ') else [s[0]];
      assert '\t' !in head;
      if s[0] != '\t' {
        assert ExpandTabs(s, column)[1..] == ExpandTabs(s[1..], NextColumn(s[0], column));
      }
    }
  }

  // ----- quoting -----

  /** `val.replace('"', r"\x22")` */
  function EscapeQuotes(val: string): string {
    if val == "" then ""
    else (if val[0] == '"' then "\\x22" else [val[0]]) + EscapeQuotes(val[1..])
  }

  function Quote(val: string): string {
    if val != "" && (forall c | c in val :: IsPlain(c)) then val
    else if '"' !in val then "\"" + val + "\""
    else if '\'' !in val then "'" + val + "'"
    else "\"" + EscapeQuotes(val) + "\""
  }

  function Unquote(x: string): string {
    if |x| > 1 && IsQuote(x[0]) && x[0] == x[|x| - 1] then x[1..|x| - 1] else x
  }

  // ----- the lexer loses nothing but tabs -----

  ghost function Concat(ts: seq<string>): string {
    if ts == [] then "" else ts[0] + Concat(ts[1..])
  }

  lemma {:induction false} LexConcat(s: string)
    ensures Concat(Lex(s)) == s
    decreases |s|
  {
    if s != "" {
      var n := TokenLength(s);
      LexConcat(s[n..]);
      assert s == s[..n] + s[n..];
    }
  }

  /** The tokens of any input make up the input with its tabs expanded, so the input itself exactly when it holds no
      tab. */
  lemma LexLossless(s: string)
    ensures Concat(ParseString(s)) == ExpandTabs(s, 0)
    ensures Concat(ParseString(s)) == s <==> '\t' !in s
  {
    LexConcat(ExpandTabs(s, 0));
    ExpandExact(s, 0);
  }

  /** The two ways in which a token can end where it does. */
  lemma SpanIs(s: string, p: char -> bool, n: nat)
    requires n <= |s| && (forall i :: 0 <= i < n ==> p(s[i])) && (n < |s| ==> !p(s[n]))
    ensures Span(s, p) == n
  {
    var m := Span(s, p);
    assert m < |s| ==> !p(s[m]);
  }

  /** Every token of the grammar is a token by itself. */
  lemma {:induction false} LexStable(s: string, i: nat)
    requires i < |Lex(s)|
    ensures Lex(s)[i] != "" && Lex(Lex(s)[i]) == [Lex(s)[i]]
    ensures forall c :: c in Lex(s)[i] ==> c in s
    decreases |s|
  {
    var n := TokenLength(s);
    if i > 0 {
      LexStable(s[n..], i - 1);
    } else {
      var t := s[..n];
      TokenAlone(s, t);
      assert t[..|t|] == t && t[|t|..] == "";
    }
  }

  /** Every token is a token by itself, as it holds no tab any more. */
  lemma TokenStable(s: string, i: nat)
    requires i < |ParseString(s)|
    ensures ParseString(s)[i] != "" && ParseString(ParseString(s)[i]) == [ParseString(s)[i]]
  {
    LexStable(ExpandTabs(s, 0), i);
    ExpandExact(s, 0);
    ExpandExact(ParseString(s)[i], 0);
  }

  lemma TokenAlone(s: string, t: string)
    requires s != "" && t == s[..TokenLength(s)]
    ensures TokenLength(t) == |t|
  {
    var n := TokenLength(s);
    assert t[0] == s[0];
    if IsQuote(s[0]) {
      var p := (c: char) => c != s[0];
      var m := Span(s[1..], p);
      forall i | 0 <= i < |t| - 1 && i < m
        ensures p(t[1..][i])
      {
        assert t[1..][i] == s[1..][i];
      }
      if m < |t| - 1 {
        assert t[1..][m] == s[1..][m];
      }
      SpanIs(t[1..], p, Min(m, |t| - 1));
      SpanIs(t[1..], c => c != t[0], Min(m, |t| - 1));
    } else if IsWhite(s[0]) {
      SpanIs(t, IsWhite, |t|);
    } else {
      SpanIs(t, IsPlain, |t|);
    }
  }

  // ----- quoting is undone -----

  ghost predicate HasBoth(val: string) {
    '"' in val && '\'' in val
  }

  /** What an argument becomes on its way through quoting and unquoting. */
  ghost function Recovered(val: string): string {
    if HasBoth(val) then EscapeQuotes(val) else val
  }

  lemma {:induction false} EscapedPlain(val: string)
    ensures '"' !in EscapeQuotes(val)
    ensures '"' in val ==> |EscapeQuotes(val)| > |val|
    ensures '"' !in val ==> EscapeQuotes(val) == val
  {
    if val != "" {
      EscapedPlain(val[1..]);
      assert val == [val[0]] + val[1..];
    }
  }

  /** How Quote encloses an argument: not at all, or in quotes that do not occur inside. */
  lemma QuoteShape(val: string)
    ensures
      var q := Quote(val);
      || (q != "" && q == val == Recovered(val) && forall c | c in q :: IsPlain(c))
      || (q == "\"" + Recovered(val) + "\"" && '"' !in Recovered(val))
      || (q == "'" + Recovered(val) + "'" && '\'' !in Recovered(val))
  {
    EscapedPlain(val);
    assert !IsPlain('"');
  }

  /** Unquoting undoes quoting exactly for the arguments that do not hold both kinds of quotes. */
  lemma UnquoteQuote(val: string)
    ensures Unquote(Quote(val)) == Recovered(val)
    ensures Unquote(Quote(val)) == val <==> !HasBoth(val)
  {
    QuoteShape(val);
    EscapedPlain(val);
    var q := Quote(val);
    if q == val && q != "" && (forall c | c in q :: IsPlain(c)) {
      assert q[0] in q && IsPlain(q[0]);
    }
  }

  /** A quoted argument with its tabs expanded is one token, before a space and at the end, and unquotes to the argument
      with its tabs expanded. */
  lemma QuoteIsToken(val: string, column: nat, r: string)
    requires r == "" || r[0] == ' '
    ensures
      var q := ExpandTabs(Quote(val), column);
      && q != ""
      && !IsWhite(q[0])
      && TokenLength(q + r) == |q|
      && Unquote(q) == ExpandTabs(Recovered(val), column + 1)
  {
    QuoteShape(val);
    var q, inside := Quote(val), Recovered(val);
    hide Quote, Recovered, TokenLength;
    if q == "\"" + inside + "\"" && '"' !in inside {
      EnclosedIsToken('"', inside, column, r);
    } else if q == "'" + inside + "'" && '\'' !in inside {
      EnclosedIsToken('\'', inside, column, r);
    } else {
      assert '\t' !in q by {
        assert !IsPlain('\t');
      }
      ExpandExact(q, column);
      ExpandExact(q, column + 1);
      BareIsToken(q, r);
    }
  }

  lemma BareIsToken(q: string, r: string)
    requires q != "" && (forall c | c in q :: IsPlain(c)) && (r == "" || r[0] == ' ')
    ensures TokenLength(q + r) == |q| && !IsWhite(q[0]) && Unquote(q) == q
  {
    assert forall i :: 0 <= i < |q| ==> (q + r)[i] in q;
    SpanIs(q + r, IsPlain, |q|);
    assert q[0] in q;
  }

  lemma EnclosedIsToken(c: char, inside: string, column: nat, r: string)
    requires IsQuote(c) && c !in inside
    ensures
      var q := ExpandTabs([c] + inside + [c], column);
      && q == [c] + ExpandTabs(inside, column + 1) + [c]
      && TokenLength(q + r) == |q|
      && Unquote(q) == ExpandTabs(inside, column + 1)
  {
    ExpandEnclosed(c, inside, column);
    ExpandAdds(inside, column + 1, c);
    hide ExpandTabs;
    EnclosedToken(c, ExpandTabs(inside, column + 1), r);
  }

  lemma ExpandEnclosed(c: char, inside: string, column: nat)
    requires IsQuote(c)
    ensures ExpandTabs([c] + inside + [c], column) == [c] + ExpandTabs(inside, column + 1) + [c]
  {
    assert [c] + inside + [c] == [c] + (inside + [c]);
    ExpandCut([c], inside + [c], column);
    assert [c][1..] == "";
    ExpandCut(inside, [c], column + 1);
  }

  lemma EnclosedToken(c: char, inside: string, r: string)
    requires IsQuote(c) && c !in inside
    ensures TokenLength([c] + inside + [c] + r) == |inside| + 2
    ensures Unquote([c] + inside + [c]) == inside
  {
    var s := [c] + inside + [c] + r;
    assert s[1..] == inside + ([c] + r);
    assert forall i :: 0 <= i < |inside| ==> s[1..][i] in inside;
    SpanIs(s[1..], x => x != s[0], |inside|);
  }

  function Spaced(s: string): (r: string)
    ensures r != "" && r[0] == ' '
  {
    " " + s
  }

  /** A command line: the quoted arguments, with single spaces between them. */
  ghost function Line(args: seq<string>): string {
    if args == [] then ""
    else if |args| == 1 then Quote(args[0])
    else Quote(args[0]) + Spaced(Line(args[1..]))
  }

  /** The tokens of a line that starts in the given column: the arguments with their tabs expanded where they stand. */
  ghost function LineTokens(args: seq<string>, column: nat): seq<string> {
    if args == [] then []
    else if |args| == 1 then [ExpandTabs(Quote(args[0]), column)]
    else
      [ExpandTabs(Quote(args[0]), column), " "] + LineTokens(args[1..], ColumnAfter(Quote(args[0]), column) + 1)
  }

  lemma LexCut(q: string, r: string)
    requires q != "" && TokenLength(q + r) == |q|
    ensures Lex(q + r) == [q] + Lex(r)
  {
    assert (q + r)[..|q|] == q && (q + r)[|q|..] == r;
  }

  /** Lexing a command line gives one token for each argument, with the separators between them, for every list of
      arguments. */
  lemma LexLine(args: seq<string>)
    ensures ParseString(Line(args)) == LineTokens(args, 0)
  {
    LexLineAt(args, 0);
  }

  lemma {:induction false} LexLineAt(args: seq<string>, column: nat)
    ensures Lex(ExpandTabs(Line(args), column)) == LineTokens(args, column)
  {
    hide Quote, ExpandTabs, Lex, ColumnAfter, TokenLength;
    if |args| == 1 {
      LexLast(args[0], column);
    } else if args != [] {
      var next := ColumnAfter(Quote(args[0]), column) + 1;
      LexFirst(args, column);
      LexLineAt(args[1..], next);
      hide Line;
    } else {
      LexNothing(column);
    }
  }

  lemma LexNothing(column: nat)
    ensures Lex(ExpandTabs("", column)) == []
  {
  }

  lemma LexLast(val: string, column: nat)
    ensures Lex(ExpandTabs(Quote(val), column)) == [ExpandTabs(Quote(val), column)]
  {
    var q := ExpandTabs(Quote(val), column);
    QuoteIsToken(val, column, "");
    hide Quote, ExpandTabs;
    assert q + "" == q;
    LexCut(q, "");
  }

  /** The first argument of several, and the space behind it. */
  lemma LexFirst(args: seq<string>, column: nat)
    requires |args| > 1
    ensures
      var next := ColumnAfter(Quote(args[0]), column) + 1;
      Lex(ExpandTabs(Line(args), column))
      == [ExpandTabs(Quote(args[0]), column), " "] + Lex(ExpandTabs(Line(args[1..]), next))
  {
    hide Quote, ExpandTabs, Lex, ColumnAfter, TokenLength, Spaced;
    var first, tail := Quote(args[0]), Line(args[1..]);
    var after := ColumnAfter(first, column);
    assert Line(args) == first + Spaced(tail);
    hide Line;
    LineStart(args[1..], after + 1);
    var q, rest := ExpandTabs(first, column), ExpandTabs(tail, after + 1);
    ExpandCut(first, Spaced(tail), column);
    ExpandSpace(tail, after);
    QuoteIsToken(args[0], column, Spaced(rest));
    LexCut(q, Spaced(rest));
    LexSpace(rest);
    assert [q, " "] == [q] + [" "];
  }

  lemma LexSpace(rest: string)
    requires rest != "" && !IsWhite(rest[0])
    ensures Lex(Spaced(rest)) == [" "] + Lex(rest)
  {
    SpanIs(" " + rest, IsWhite, 1);
    LexCut(" ", rest);
  }

  lemma ExpandSpace(s: string, column: nat)
    ensures ExpandTabs(Spaced(s), column) == Spaced(ExpandTabs(s, column + 1))
  {
    assert Spaced(s)[0] == ' ' && Spaced(s)[1..] == s;
  }

  lemma LineStart(args: seq<string>, column: nat)
    requires args != []
    ensures ExpandTabs(Line(args), column) != "" && !IsWhite(ExpandTabs(Line(args), column)[0])
  {
    hide Quote, ExpandTabs, TokenLength, Spaced;
    QuoteIsToken(args[0], column, "");
    if |args| > 1 {
      ExpandCut(Quote(args[0]), Spaced(Line(args[1..])), column);
    }
  }

  /** The tokens at the even positions of a line, unquoted. */
  ghost function Arguments(ts: seq<string>): seq<string>
    decreases |ts|
  {
    if ts == [] then []
    else [Unquote(ts[0])] + Arguments(if |ts| == 1 then [] else ts[2..])
  }

  /** What comes back of the arguments of a line that starts in the given column. */
  ghost function AllRecovered(args: seq<string>, column: nat): seq<string> {
    if args == [] then []
    else
      [ExpandTabs(Recovered(args[0]), column + 1)] + AllRecovered(args[1..], ColumnAfter(Quote(args[0]), column) + 1)
  }

  lemma {:induction false} ArgumentsOfLine(args: seq<string>, column: nat)
    ensures Arguments(LineTokens(args, column)) == AllRecovered(args, column)
  {
    hide Quote, ExpandTabs, Recovered, ColumnAfter, TokenLength, Unquote;
    if args != [] {
      QuoteIsToken(args[0], column, "");
      if |args| > 1 {
        var next := ColumnAfter(Quote(args[0]), column) + 1;
        ArgumentsOfLine(args[1..], next);
        assert LineTokens(args, column)[2..] == LineTokens(args[1..], next);
      } else {
        assert args[1..] == [];
      }
    }
  }

  /** An argument comes back as it was exactly when it holds no tab and not both kinds of quotes. */
  ghost predicate Survives(val: string) {
    '\t' !in val && !HasBoth(val)
  }

  lemma SurvivesExactly(val: string, column: nat)
    ensures ExpandTabs(Recovered(val), column) == val <==> Survives(val)
  {
    UnquoteQuote(val);
    ExpandExact(Recovered(val), column);
    EscapeKeepsTabs(val);
  }

  lemma {:induction false} EscapeKeepsTabs(val: string)
    ensures '\t' in EscapeQuotes(val) <==> '\t' in val
  {
    if val != "" {
      EscapeKeepsTabs(val[1..]);
      assert val == [val[0]] + val[1..];
    }
  }

  lemma {:induction false} NothingLost(args: seq<string>, column: nat)
    ensures AllRecovered(args, column) == args <==> forall a :: a in args ==> Survives(a)
  {
    hide Quote, ExpandTabs, Recovered, Survives, ColumnAfter;
    if args != [] {
      var next := ColumnAfter(Quote(args[0]), column) + 1;
      var first := ExpandTabs(Recovered(args[0]), column + 1);
      SurvivesExactly(args[0], column + 1);
      NothingLost(args[1..], next);
      FirstAndRest(first, AllRecovered(args[1..], next), args);
      hide AllRecovered;
      assert forall a :: a in args <==> a == args[0] || a in args[1..];
    }
  }

  lemma FirstAndRest<T>(first: T, rest: seq<T>, s: seq<T>)
    requires s != []
    ensures [first] + rest == s <==> first == s[0] && rest == s[1..]
  {
    if [first] + rest == s {
      assert s[1..] == rest;
    }
  }

  /** Quoting arguments, joining, lexing and unquoting gives the arguments back exactly when none of them holds a tab or
      both kinds of quotes. */
  lemma RoundTrip(args: seq<string>)
    ensures Arguments(ParseString(Line(args))) == args <==> forall a :: a in args ==> '\t' !in a && !HasBoth(a)
  {
    LexLine(args);
    ArgumentsOfLine(args, 0);
    NothingLost(args, 0);
    assert forall a :: Survives(a) <==> '\t' !in a && !HasBoth(a);
  }

  lemma OneArgument(val: string)
    ensures Arguments(ParseString(Line([val]))) == [ExpandTabs(Recovered(val), 1)]
  {
    LexLine([val]);
    ArgumentsOfLine([val], 0);
    hide ExpandTabs, Recovered, Quote, ColumnAfter;
    assert AllRecovered([val], 0) == [ExpandTabs(Recovered(val), 1)] + [];
  }

  /** The argument that is one tab comes back as the seven spaces from its place behind the quote to column eight. */
  lemma TabComesBackAsSpaces()
    ensures Arguments(ParseString(Line(["\t"]))) == ["       "]
  {
    var val := "\t";
    OneArgument(val);
    hide Arguments, ParseString, Line;
    assert Recovered(val) == val;
    assert val[0] == '\t' && val[1..] == "" && NextColumn('\t', 1) == 8;
    assert ExpandTabs("", 8) == "";
    assert ExpandTabs(val, 1) == seq(7, _ => ' ') + ExpandTabs(val[1..], 8);
    var spaces := seq(7, _ => ' ');
    assert spaces == "       ";
    assert spaces + "" == spaces;
  }

  // ----- what quoting and lexing do, character by character -----

  ghost predicate White(c: char) {
    c == ' ' || c == '\r' || c == '\n' || c == '\t'
  }

  /** The text with `\x22` for each double quote. */
  ghost function Replaced(val: string): string {
    if val == "" then ""
    else Replaced(val[..|val| - 1]) + (if val[|val| - 1] == '"' then ['\\', 'x', '2', '2'] else [val[|val| - 1]])
  }

  lemma {:induction false} EscapeConcat(a: string, b: string)
    ensures EscapeQuotes(a + b) == EscapeQuotes(a) + EscapeQuotes(b)
  {
    if a == "" {
      assert a + b == b;
    } else {
      assert (a + b)[0] == a[0] && (a + b)[1..] == a[1..] + b;
      EscapeConcat(a[1..], b);
    }
  }

  lemma {:induction false} EscapeIs(val: string)
    ensures EscapeQuotes(val) == Replaced(val)
  {
    if val != "" {
      var n := |val| - 1;
      EscapeIs(val[..n]);
      EscapeConcat(val[..n], [val[n]]);
      assert val == val[..n] + [val[n]];
      EscapeOne(val[n]);
    }
  }

  lemma EscapeOne(c: char)
    ensures EscapeQuotes([c]) == if c == '"' then ['\\', 'x', '2', '2'] else [c]
  {
    assert [c][1..] == "";
  }

  /** A text stays bare exactly if it is not empty and holds no quote and no whitespace; otherwise it is put in quotes
      of a kind that it does not hold, double ones if possible, and if it holds both, in double ones with its own
      replaced. */
  lemma QuoteIs(val: string)
    ensures
      Quote(val)
      == if val != "" && forall c :: c in val ==> c != '"' && c != '\'' && !White(c) then val
         else if '"' !in val then ['"'] + val + ['"']
         else if '\'' !in val then ['\''] + val + ['\'']
         else ['"'] + Replaced(val) + ['"']
  {
    EscapeIs(val);
    hide EscapeQuotes, Replaced;
  }

  /** The first token ends at n. */
  ghost predicate EndsAt(s: string, n: nat) {
    && 0 < n <= |s|
    && if s[0] == '"' || s[0] == '\'' then
         // at the next quote of this kind, or at the end of the input
         && (forall i :: 1 <= i < n - 1 ==> s[i] != s[0])
         && ((n >= 2 && s[n - 1] == s[0]) || (n == |s| && (n >= 2 ==> s[n - 1] != s[0])))
       else if White(s[0]) then
         // at the end of a run of whitespace
         (forall i :: 0 <= i < n ==> White(s[i])) && (n < |s| ==> !White(s[n]))
       else
         // at the end of a run without quotes and whitespace
         && (forall i :: 0 <= i < n ==> s[i] != '"' && s[i] != '\'' && !White(s[i]))
         && (n < |s| ==> s[n] == '"' || s[n] == '\'' || White(s[n]))
  }

  /** Lexing takes such a token off the front, again and again. */
  lemma LexIs(s: string, n: nat)
    requires EndsAt(s, n)
    ensures Lex(s) == [s[..n]] + Lex(s[n..]) && Lex("") == []
  {
    if s[0] == '"' || s[0] == '\'' {
      QuotedEnd(s, n);
    } else if White(s[0]) {
      SpanIs(s, IsWhite, n);
    } else {
      SpanIs(s, IsPlain, n);
    }
    hide EndsAt;
  }

  lemma QuotedEnd(s: string, n: nat)
    requires EndsAt(s, n) && (s[0] == '"' || s[0] == '\'')
    ensures TokenLength(s) == n
  {
    var p, rest := (c: char) => c != s[0], s[1..];
    if n >= 2 && s[n - 1] == s[0] {
      SpanIs(rest, p, n - 2);
      SpanIs(rest, c => c != s[0], n - 2);
    } else {
      SpanIs(rest, p, n - 1);
      SpanIs(rest, c => c != s[0], n - 1);
    }
  }

  /** There is always such an end. */
  lemma EndFound(s: string)
    requires s != ""
    ensures EndsAt(s, TokenLength(s))
  {
    var n := TokenLength(s);
    if s[0] == '"' || s[0] == '\'' {
      var m := Span(s[1..], c => c != s[0]);
      assert forall i :: 0 <= i < m ==> s[1..][i] == s[i + 1];
      assert m < |s| - 1 ==> s[1..][m] == s[m + 1];
    }
  }

  /** Unquoting takes off a pair of equal quotes at the two ends, and changes nothing else. */
  lemma UnquoteIs(x: string, inside: string, c: char)
    ensures c == '"' || c == '\'' ==> Unquote([c] + inside + [c]) == inside
    ensures Unquote(x) != x ==> |x| >= 2 && x[0] == x[|x| - 1] && (x[0] == '"' || x[0] == '\'')
  {
    var q := [c] + inside + [c];
    assert q[1..|q| - 1] == inside;
  }

  /** How many characters follow the last line break. */
  ghost function SinceBreak(s: string): nat {
    if s == "" || s[|s| - 1] == '\n' || s[|s| - 1] == '\r' then 0 else 1 + SinceBreak(s[..|s| - 1])
  }

  lemma {:induction false} SinceSpaces(s: string, n: nat, spaces: string)
    requires |spaces| == n && forall i :: 0 <= i < n ==> spaces[i] == ' '
    ensures SinceBreak(s + spaces) == SinceBreak(s) + n
  {
    if n == 0 {
      assert s + spaces == s;
    } else {
      SinceSpaces(s, n - 1, spaces[..n - 1]);
      assert (s + spaces)[..|s| + n - 1] == s + spaces[..n - 1];
    }
  }

  lemma ColumnStep(s: string, c: char)
    ensures ColumnAfter(s + [c], 0) == NextColumn(c, ColumnAfter(s, 0))
  {
    ColumnConcat(s, [c], 0);
    assert [c][1..] == "";
  }

  lemma {:induction false} ColumnConcat(a: string, b: string, column: nat)
    ensures ColumnAfter(a + b, column) == ColumnAfter(b, ColumnAfter(a, column))
  {
    if a == "" {
      assert a + b == b;
    } else {
      assert (a + b)[0] == a[0] && (a + b)[1..] == a[1..] + b;
      ColumnConcat(a[1..], b, NextColumn(a[0], column));
    }
  }

  lemma {:induction false} ColumnIs(s: string)
    ensures ColumnAfter(s, 0) == SinceBreak(ExpandTabs(s, 0))
  {
    if s != "" {
      var n := |s| - 1;
      var c, before := s[n], s[..n];
      assert s == before + [c];
      ColumnIs(before);
      ColumnStep(before, c);
      ExpandCut(before, [c], 0);
      ExpandOne(c, ColumnAfter(before, 0));
      var e := ExpandTabs(before, 0);
      hide ExpandTabs, ColumnAfter;
      if c == '\t' {
        var spaces := seq(8 - ColumnAfter(before, 0) % 8, _ => ' ');
        SinceSpaces(e, |spaces|, spaces);
      } else {
        assert (e + [c])[..|e|] == e;
      }
    }
  }

  lemma ExpandOne(c: char, column: nat)
    ensures ExpandTabs([c], column) == if c == '\t' then seq(8 - column % 8, _ => ' ') else [c]
  {
    assert [c][1..] == "";
    var spaces := seq(8 - column % 8, _ => ' ');
    assert spaces + "" == spaces && [c] + "" == [c];
  }

  /** Expanding a text from the left: a tab becomes spaces up to the next multiple of eight places behind the last line
      break, and every other character stays. */
  lemma ExpandIs(s: string, c: char)
    ensures ExpandTabs("", 0) == ""
    ensures
      var e := ExpandTabs(s, 0);
      ExpandTabs(s + [c], 0) == e + (if c == '\t' then seq(8 - SinceBreak(e) % 8, _ => ' ') else [c])
  {
    ColumnIs(s);
    ExpandCut(s, [c], 0);
    ExpandOne(c, ColumnAfter(s, 0));
  }
}
