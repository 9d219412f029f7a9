/** Tokens and text: a text has given tokens if and only if it spells them out with white space that keeps them apart. */
module ShellText {
  import opened ShellSpec
  import opened ShellProofs
  import opened ShellGrammar

  function Spelled(t: Tok): (s: string) {
    match t
    case Sym(c) => if c == '+' then ">>" else [c]
    case Word(w) => w
  }

  predicate Blank(gap: string) {
    forall i :: 0 <= i < |gap| ==> IsSpace(gap[i])
  }

  /** Without white space in between these two would be read as one, or as others. */
  predicate MustPart(a: Tok, b: Tok) {
    (a.Word? && b.Word?) || (a == Sym('>') && (b == Sym('>') || b == Sym('+')))
  }

  /** gaps[i] stands in front of token i, and the last gap at the end. */
  ghost predicate LaidOut(ts: seq<Tok>, gaps: seq<string>) {
    && |gaps| == |ts| + 1
    && (forall i :: 0 <= i < |gaps| ==> Blank(gaps[i])) && (forall i :: 0 <= i < |ts| ==> TokOk(ts[i]))
    && (forall i :: 0 < i < |ts| && MustPart(ts[i - 1], ts[i]) ==> gaps[i] != [])
  }

  function Layout(ts: seq<Tok>, gaps: seq<string>): (s: string)
    requires |gaps| == |ts| + 1
    decreases |ts|
  {
    if ts == [] then gaps[0] else gaps[0] + (Spelled(ts[0]) + Layout(ts[1..], gaps[1..]))
  }

  lemma {:induction false} SkipBlank(gap: string, s: string)
    requires Blank(gap)
    ensures Skip(gap + s) == Skip(s)
    decreases |gap|
  {
    if gap == [] {
      assert gap + s == s;
    } else {
      assert (gap + s)[1..] == gap[1..] + s && (gap + s)[0] == gap[0];
      SkipBlank(gap[1..], s);
    }
  }

  /** The character after token a, if the next token is b. */
  predicate Ends(a: Tok, rest: string) {
    rest == [] || (if a.Word? then !InWord(rest[0]) else if a == Sym('>') then rest[0] != '>' else true)
  }

  lemma SpelledToken(t: Tok, rest: string)
    requires TokOk(t) && Ends(t, rest)
    ensures var s := Spelled(t) + rest; Skip(s) == s != [] && TokOf(GetToken(s)) == t && GetToken(s).rest == Skip(rest)
  {
    hide Skip, WordLen;
    match t
    case Word(w) => WordToken(w, rest);
    case Sym(c) =>
      if c == '+' { DoubleToken(rest); } else if c == '>' { SingleToken(rest); } else { SymbolToken(c, rest); }
  }

  lemma DoubleToken(rest: string)
    ensures var s := ">>" + rest; Skip(s) == s && GetToken(s) == Token('+', ">>", Skip(rest))
  {
    hide WordLen;
    var s := ">>" + rest;
    assert s[0] == '>' && s[1] == '>' && Skip(s) == s;
    assert s[..2] == ">>" && s[2..] == rest;
  }

  lemma SingleToken(rest: string)
    requires rest == [] || rest[0] != '>'
    ensures var s := ['>'] + rest; Skip(s) == s && GetToken(s) == Token('>', ['>'], Skip(rest))
  {
    hide WordLen;
    var s := ['>'] + rest;
    assert s[0] == '>' && Skip(s) == s && (rest != [] ==> s[1] == rest[0]);
    assert s[..1] == ['>'] && s[1..] == rest;
  }

  /** What follows a token keeps it apart. */
  lemma LayoutEnds(ts: seq<Tok>, gaps: seq<string>)
    requires LaidOut(ts, gaps) && ts != []
    ensures |gaps[1..]| == |ts[1..]| + 1 && Ends(ts[0], Layout(ts[1..], gaps[1..]))
  {
    var rest := Layout(ts[1..], gaps[1..]);
    if gaps[1] != [] {
      assert rest[0] == gaps[1][0] && IsSpace(gaps[1][0]) by { assert Blank(gaps[1]); }
    } else if |ts| > 1 {
      assert ts[1..][0] == ts[1] && gaps[1..][0] == gaps[1];
      assert rest == Spelled(ts[1]) + Layout(ts[1..][1..], gaps[1..][1..]);
      SpelledStart(ts[1], Layout(ts[1..][1..], gaps[1..][1..]));
      assert !MustPart(ts[1 - 1], ts[1]);
    }
  }

  lemma SpelledStart(t: Tok, rest: string)
    requires TokOk(t)
    ensures var s := Spelled(t) + rest; s != [] && s[0] == First(t) && (t.Sym? ==> !InWord(s[0])) && (s[0] == '>' ==> t == Sym('>') || t == Sym('+'))
  {
    FirstInWord(t);
  }

  lemma LaidOutRest(ts: seq<Tok>, gaps: seq<string>)
    requires LaidOut(ts, gaps) && ts != []
    ensures LaidOut(ts[1..], gaps[1..])
  {
    forall i | 0 < i < |ts[1..]| && MustPart(ts[1..][i - 1], ts[1..][i]) ensures gaps[1..][i] != [] {
      assert ts[1..][i - 1] == ts[i + 1 - 1] && ts[1..][i] == ts[i + 1] && gaps[1..][i] == gaps[i + 1];
    }
  }

  /** A text that spells tokens out has these tokens, whatever the white space. */
  lemma {:induction false} LexLayout(ts: seq<Tok>, gaps: seq<string>)
    requires LaidOut(ts, gaps)
    ensures Lex(Layout(ts, gaps)) == ts
    decreases |ts|
  {
    hide Skip, GetToken, Spelled, TokOk, MustPart, Ends;
    var s := Layout(ts, gaps);
    assert Blank(gaps[0]);
    if ts == [] {
      assert gaps[0] + [] == gaps[0];
      SkipBlank(gaps[0], []);
      SkipNothing();
    } else {
      LayoutEnds(ts, gaps);
      LaidOutRest(ts, gaps);
      var rest := Layout(ts[1..], gaps[1..]);
      var u := Spelled(ts[0]) + rest;
      SkipBlank(gaps[0], u);
      SpelledToken(ts[0], rest);
      LexLayout(ts[1..], gaps[1..]);
      LexSkip(rest);
      SameToken(s, u);
    }
  }

  lemma SkipNothing()
    ensures Skip([]) == []
  {
  }

  lemma SameToken(s: string, u: string)
    requires Skip(s) == Skip(u)
    ensures GetToken(s) == GetToken(u) && Lex(s) == Lex(u)
  {
    hide Skip, Lexeme;
  }

  // ---- every text ----

  lemma {:induction false} Prefix(s: string) returns (gap: string)
    ensures Blank(gap) && s == gap + Skip(s)
    decreases |s|
  {
    gap := [];
    if s != [] && IsSpace(s[0]) {
      var g := Prefix(s[1..]);
      gap := [s[0]] + g;
      assert s == [s[0]] + s[1..];
    }
  }

  /** Every text spells its tokens out. */
  lemma {:induction false} EveryText(s: string) returns (gaps: seq<string>)
    ensures LaidOut(Lex(s), gaps) && s == Layout(Lex(s), gaps)
    decreases |s|
  {
    hide GetToken, Skip, Spelled, MustPart, Blank, TokOk;
    var gap := Prefix(s);
    if Skip(s) == [] {
      gaps := [gap];
      assert gap + [] == gap && Lex(s) == [];
    } else {
      TokenIs(s);
      var t, rest := TokOf(GetToken(s)), GetToken(s).rest;
      var tail := TokenSplit(s);
      var pre := Prefix(tail);
      var more := EveryText(rest);
      var more' := more[0 := pre + more[0]];
      Widened(Lex(rest), more, pre);
      gaps := [gap] + more';
      assert gaps[1..] == more' && Lex(s)[1..] == Lex(rest);
      PartIfNeeded(s, t, tail, pre, rest, more);
      LaidOutMore(t, Lex(rest), gap, more');
    }
  }

  /** The text of the first token, and what is left before white space is skipped. */
  lemma TokenSplit(s: string) returns (tail: string)
    requires Skip(s) != []
    ensures Skip(s) == Spelled(TokOf(GetToken(s))) + tail && GetToken(s).rest == Skip(tail) && Ends(TokOf(GetToken(s)), tail)
  {
    hide Skip;
    var u := Skip(s);
    var n := Lexeme(u).1;
    tail := u[n..];
    assert u == u[..n] + tail;
    if IsSymbol(u[0]) {
      SymbolSpelled(u);
    } else {
      assert InWord(u[0]);
      WordLexeme(u);
    }
  }

  lemma SymbolSpelled(u: string)
    requires u != [] && IsSymbol(u[0])
    ensures var (kind, n) := Lexeme(u); kind != 'a' && n <= |u| && Spelled(Sym(kind)) == u[..n] && Ends(Sym(kind), u[n..])
  {
    if u[0] == '>' && |u| > 1 && u[1] == '>' { assert u[..2] == ">>"; } else { assert u[..1] == [u[0]]; }
  }

  lemma Widened(ts: seq<Tok>, gaps: seq<string>, pre: string)
    requires LaidOut(ts, gaps) && Blank(pre)
    ensures LaidOut(ts, gaps[0 := pre + gaps[0]]) && Layout(ts, gaps[0 := pre + gaps[0]]) == pre + Layout(ts, gaps)
  {
    var gaps' := gaps[0 := pre + gaps[0]];
    assert Blank(gaps[0]);
    assert forall i :: 0 < i < |gaps| ==> gaps'[i] == gaps[i];
    assert gaps'[1..] == gaps[1..];
    if ts != [] {
      assert pre + gaps[0] + (Spelled(ts[0]) + Layout(ts[1..], gaps[1..])) == pre + (gaps[0] + (Spelled(ts[0]) + Layout(ts[1..], gaps[1..])));
    }
  }

  lemma PartIfNeeded(s: string, t: Tok, tail: string, pre: string, rest: string, more: seq<string>)
    requires Ends(t, tail) && rest == Skip(tail) && tail == pre + rest && LaidOut(Lex(rest), more)
    ensures Lex(rest) != [] && MustPart(t, Lex(rest)[0]) ==> pre + more[0] != []
  {
    hide Skip, Lex;
    if Lex(rest) != [] && MustPart(t, Lex(rest)[0]) && pre == [] {
      NextToken(rest);
      FirstChar(rest, tail);
      FirstInWord(Lex(rest)[0]);
    }
  }

  lemma FirstChar(rest: string, tail: string)
    requires rest == Skip(tail) && Lex(rest) != [] && TokOk(Lex(rest)[0])
    ensures rest != [] && rest[0] == First(Lex(rest)[0])
  {
    hide GetToken;
    SkipTwice(tail);
    LexSkip(rest);
    TokenIs(rest);
  }

  lemma LaidOutMore(t: Tok, ts: seq<Tok>, gap: string, gaps: seq<string>)
    requires TokOk(t) && Blank(gap) && LaidOut(ts, gaps) && (ts != [] && MustPart(t, ts[0]) ==> gaps[0] != [])
    ensures LaidOut([t] + ts, [gap] + gaps)
  {
    var all, g := [t] + ts, [gap] + gaps;
    forall i | 0 < i < |all| && MustPart(all[i - 1], all[i]) ensures g[i] != [] {
      if i > 1 { assert all[i - 1] == ts[i - 1 - 1] && all[i] == ts[i - 1] && g[i] == gaps[i - 1]; }
    }
  }

  /** Every tree, spelled out with any white space that keeps its tokens apart, parses to what it means. */
  lemma AnyLayout(l: Line, gaps: seq<string>)
    requires LineOk(l) && LaidOut(LineToks(l), gaps)
    ensures ParseCmd(Layout(LineToks(l), gaps)) == Parsed(LineMeans(l), [])
  {
    hide ParseCmd, LineOk, LineToks, LineMeans, Lex, Layout;
    LexLayout(LineToks(l), gaps);
    assert StandsFor(Layout(LineToks(l), gaps), LineMeans(l));
    ParsesExactly(Layout(LineToks(l), gaps), LineMeans(l));
  }

  /** And every text that is accepted is one of these. */
  lemma Accepted(s: string) returns (l: Line, gaps: seq<string>)
    requires ParseCmd(s).Parsed?
    ensures LineOk(l) && LaidOut(LineToks(l), gaps) && s == Layout(LineToks(l), gaps) && ParseCmd(s) == Parsed(LineMeans(l), [])
  {
    hide ParseCmd, LineOk, LineToks, LineMeans, Lex, Layout, LaidOut;
    ParsesExactly(s, ParseCmd(s).cmd);
    l :| LineOk(l) && LineToks(l) == Lex(s) && LineMeans(l) == ParseCmd(s).cmd;
    gaps := EveryText(s);
  }
}
