/**
 * The language that the shell accepts, as syntax trees: commands with arguments and redirections in any
 * order, pipelines, background marks, lists and parentheses.  The parser accepts a text if and only if its
 * tokens are those of a tree, and then gives what the tree means; and a text has given tokens if and only if
 * it writes them out with any white space that keeps them apart.
 */
module ShellGrammar {
  import opened ShellSpec
  import opened ShellProofs

  // ---- tokens ----

  /** Sym('+') is >>. */
  datatype Tok = Sym(c: char) | Word(w: string)

  predicate TokOk(t: Tok) {
    match t
    case Sym(c) => c in ['<', '|', '>', '&', ';', '(', ')', '+']
    case Word(w) => PlainWord(w)
  }

  function TokOf(t: Token): (r: Tok) {
    if t.kind == 'a' then Word(t.word) else Sym(t.kind)
  }

  function Lex(s: string): (ts: seq<Tok>)
    decreases |s|
  {
    if Skip(s) == [] then [] else [TokOf(GetToken(s))] + Lex(GetToken(s).rest)
  }

  /** The first character of a token. */
  function First(t: Tok): (c: char)
    requires TokOk(t)
  {
    match t
    case Sym(c) => if c == '+' then '>' else c
    case Word(w) => w[0]
  }

  lemma FirstInWord(t: Tok)
    requires TokOk(t)
    ensures t.Word? <==> InWord(First(t))
  {
  }

  lemma TokenIs(s: string)
    requires Skip(s) != []
    ensures var t := GetToken(s);
      && TokOk(TokOf(t)) && First(TokOf(t)) == Skip(s)[0] && Lex(s) == [TokOf(t)] + Lex(t.rest)
      && (t.kind == 'a' <==> TokOf(t).Word?) && (t.kind != 'a' ==> IsSymbol(Skip(s)[0]))
  {
    hide Lexeme, Skip, TokOk, First;
    LexemeIs(Skip(s));
  }

  /** The lexeme at the front is a token that starts with the first character. */
  lemma LexemeIs(u: string)
    requires u != [] && !IsSpace(u[0])
    ensures var t := Token(Lexeme(u).0, u[..Lexeme(u).1], []);
      TokOk(TokOf(t)) && First(TokOf(t)) == u[0] && (t.kind == 'a' <==> TokOf(t).Word?) && (t.kind != 'a' ==> IsSymbol(u[0]))
  {
    if !IsSymbol(u[0]) {
      assert InWord(u[0]);
      WordLexeme(u);
    }
  }

  lemma WordLexeme(u: string)
    requires u != [] && InWord(u[0])
    ensures Lexeme(u) == ('a', WordLen(u)) && WordLen(u) > 0 && PlainWord(u[..WordLen(u)]) && u[..WordLen(u)][0] == u[0]
  {
  }

  lemma {:induction false} LexOk(s: string)
    ensures forall i :: 0 <= i < |Lex(s)| ==> TokOk(Lex(s)[i])
    decreases |s|
  {
    hide GetToken;
    if Skip(s) != [] {
      TokenIs(s);
      LexOk(GetToken(s).rest);
    }
  }

  lemma LexSkip(s: string)
    ensures Lex(Skip(s)) == Lex(s) && (Skip(s) == [] <==> Lex(s) == [])
  {
    SkipTwice(s);
  }

  lemma SkipTwice(s: string)
    ensures Skip(Skip(s)) == Skip(s)
  {
  }

  /** peek looks at the first character of the next token. */
  lemma PeekIs(s: string, toks: string)
    ensures Peek(s, toks) <==> Lex(s) != [] && TokOk(Lex(s)[0]) && First(Lex(s)[0]) in toks
  {
    hide GetToken;
    if Skip(s) != [] { TokenIs(s); }
  }

  // ---- trees ----

  /** An argument, or a redirection with its sign and file. */
  datatype Item = Arg(word: string) | Redirect(sign: char, name: string)

  datatype Unit = Simple(items: seq<Item>) | Paren(line: Line, files: seq<Item>)

  datatype Pipeline = Last(unit: Unit) | Piped(unit: Unit, more: Pipeline)

  /** A pipeline, background marks, and perhaps more after a semicolon. */
  datatype Line = End(pipe: Pipeline, amps: nat) | Semi(pipe: Pipeline, amps: nat, next: Line)

  predicate ItemOk(i: Item) {
    match i
    case Arg(w) => PlainWord(w)
    case Redirect(sign, name) => sign in ['<', '>', '+'] && PlainWord(name)
  }

  function Args(items: seq<Item>): (r: seq<string>) {
    if items == [] then [] else (if items[0].Arg? then [items[0].word] else []) + Args(items[1..])
  }

  function FilesOf(items: seq<Item>): (r: seq<File>) {
    if items == [] then []
    else (if items[0].Redirect? then [File(items[0].name, if items[0].sign == '<' then In else Out)] else []) + FilesOf(items[1..])
  }

  predicate UnitOk(u: Unit) {
    match u
    case Simple(items) => (forall i :: 0 <= i < |items| ==> ItemOk(items[i])) && |Args(items)| < MAXARGS
    case Paren(line, files) => LineOk(line) && forall i :: 0 <= i < |files| ==> ItemOk(files[i]) && files[i].Redirect?
  }

  predicate PipelineOk(p: Pipeline) {
    UnitOk(p.unit) && (p.Piped? ==> PipelineOk(p.more))
  }

  predicate LineOk(l: Line) {
    PipelineOk(l.pipe) && (l.Semi? ==> LineOk(l.next))
  }

  // ---- what a tree means ----

  /** The redirections apply from the first on, the last one outermost. */
  function Redirected(c: Cmd, files: seq<File>): (r: Cmd)
    decreases |files|
  {
    if files == [] then c else Redirected(Redir(c, files[0]), files[1..])
  }

  function InBackground(c: Cmd, n: nat): (r: Cmd) {
    if n == 0 then c else Back(InBackground(c, n - 1))
  }

  function UnitMeans(u: Unit): (c: Cmd) {
    match u
    case Simple(items) => Redirected(Exec(Args(items)), FilesOf(items))
    case Paren(line, files) => Redirected(LineMeans(line), FilesOf(files))
  }

  function PipelineMeans(p: Pipeline): (c: Cmd) {
    if p.Last? then UnitMeans(p.unit) else Pipe(UnitMeans(p.unit), PipelineMeans(p.more))
  }

  function LineMeans(l: Line): (c: Cmd) {
    var first := InBackground(PipelineMeans(l.pipe), l.amps);
    if l.End? then first else List(first, LineMeans(l.next))
  }

  // ---- the tokens of a tree ----

  function ItemToks(i: Item): (ts: seq<Tok>) {
    match i
    case Arg(w) => [Word(w)]
    case Redirect(sign, name) => [Sym(sign), Word(name)]
  }

  function ItemsToks(items: seq<Item>): (ts: seq<Tok>) {
    if items == [] then [] else ItemToks(items[0]) + ItemsToks(items[1..])
  }

  function Repeated(t: Tok, n: nat): (ts: seq<Tok>) {
    if n == 0 then [] else [t] + Repeated(t, n - 1)
  }

  function UnitToks(u: Unit): (ts: seq<Tok>) {
    match u
    case Simple(items) => ItemsToks(items)
    case Paren(line, files) => [Sym('(')] + LineToks(line) + [Sym(')')] + ItemsToks(files)
  }

  function PipelineToks(p: Pipeline): (ts: seq<Tok>) {
    if p.Last? then UnitToks(p.unit) else UnitToks(p.unit) + [Sym('|')] + PipelineToks(p.more)
  }

  function LineToks(l: Line): (ts: seq<Tok>) {
    PipelineToks(l.pipe) + Repeated(Sym('&'), l.amps) + (if l.End? then [] else [Sym(';')] + LineToks(l.next))
  }

  // ---- what may follow ----

  predicate Follow(ts: seq<Tok>, marks: string) {
    ts == [] || (ts[0].Sym? && ts[0].c in marks)
  }

  // ---- redirections ----

  lemma {:induction false} RedirectedWrapped(c: Cmd, files: seq<File>)
    ensures Redirected(c, files) == Wrapped(c, files)
    decreases |files|
  {
    if |files| == 1 {
      assert files[..0] == [] && files[1..] == [];
      assert Redirected(Redir(c, files[0]), []) == Redir(c, files[0]);
    } else if files != [] {
      RedirectedWrapped(Redir(c, files[0]), files[1..]);
      WrappedFront(c, files);
    }
  }

  lemma {:induction false} WrappedFront(c: Cmd, files: seq<File>)
    requires files != []
    ensures Wrapped(c, files) == Wrapped(Redir(c, files[0]), files[1..])
    decreases |files|
  {
    var n := |files| - 1;
    if n == 0 {
      assert files[..0] == [] && files[1..] == [];
      assert Wrapped(c, []) == c;
    } else {
      WrappedFront(c, files[..n]);
      assert files[..n][1..] == files[1..][..n - 1] && files[..n][0] == files[0] && files[1..][n - 1] == files[n];
    }
  }

  function FileOf(i: Item): (f: File)
    requires i.Redirect?
  {
    File(i.name, if i.sign == '<' then In else Out)
  }

  lemma OneRedirect(s: string, i: Item, more: seq<Tok>, files: seq<File>) returns (rest: string)
    requires i.Redirect? && ItemOk(i) && Lex(s) == [Sym(i.sign), Word(i.name)] + more
    ensures Lex(rest) == more && |rest| < |s| && ParseRedirs(s, files) == ParseRedirs(rest, files + [FileOf(i)])
  {
    hide GetToken, Lex, Skip, Peek;
    PeekIs(s, "<>");
    NextToken(s);
    var tok := GetToken(s);
    assert Lex(tok.rest) == [Word(i.name)] + more;
    NextToken(tok.rest);
    rest := GetToken(tok.rest).rest;
  }

  lemma NoRedirect(s: string, files: seq<File>)
    requires Lex(s) == [] || (TokOk(Lex(s)[0]) && First(Lex(s)[0]) !in "<>")
    ensures ParseRedirs(s, files) == Files(files, Skip(s)) && Lex(Skip(s)) == Lex(s)
  {
    hide GetToken, Lex, Skip;
    PeekIs(s, "<>");
    LexSkip(s);
  }

  lemma RedirectFront(items: seq<Item>)
    requires items != [] && items[0].Redirect?
    ensures ItemsToks(items) == [Sym(items[0].sign), Word(items[0].name)] + ItemsToks(items[1..])
    ensures FilesOf(items) == [FileOf(items[0])] + FilesOf(items[1..])
  {
  }

  lemma {:induction false} RedirsIs(items: seq<Item>, s: string, files: seq<File>, ts: seq<Tok>)
    requires Lex(s) == ItemsToks(items) + ts && forall i :: 0 <= i < |items| ==> ItemOk(items[i]) && items[i].Redirect?
    requires ts == [] || (TokOk(ts[0]) && First(ts[0]) !in "<>")
    ensures var f := ParseRedirs(s, files); f.Files? && f.files == files + FilesOf(items) && Lex(f.rest) == ts
    decreases |items|
  {
    hide Lex, Skip, ParseRedirs, TokOk, First, ItemOk, ItemsToks, FilesOf;
    if items == [] {
      NoItems();
      assert [] + ts == ts && files + [] == files;
      NoRedirect(s, files);
    } else {
      var i := items[0];
      RedirectFront(items);
      assert ItemsToks(items) + ts == [Sym(i.sign), Word(i.name)] + (ItemsToks(items[1..]) + ts);
      var rest := OneRedirect(s, i, ItemsToks(items[1..]) + ts, files);
      RedirsIs(items[1..], rest, files + [FileOf(i)], ts);
      assert files + [FileOf(i)] + FilesOf(items[1..]) == files + FilesOf(items);
    }
  }

  /** The next token, if there is one. */
  lemma NextToken(s: string)
    requires Lex(s) != []
    ensures var t := GetToken(s);
      && Lex(s)[0] == TokOf(t) && Lex(t.rest) == Lex(s)[1..] && Skip(s) != [] && TokOk(Lex(s)[0])
      && (t.kind == 'a' <==> Lex(s)[0].Word?) && (Lex(s)[0].Sym? ==> t.kind == Lex(s)[0].c) && (Lex(s)[0].Word? ==> t.word == Lex(s)[0].w)
  {
    hide GetToken;
    LexSkip(s);
    TokenIs(s);
  }

  // ---- arguments ----

  /** The redirections in front of the next argument. */
  function Leading(items: seq<Item>): (k: nat)
    ensures k <= |items| && (forall i :: 0 <= i < k ==> items[i].Redirect?) && (k < |items| ==> items[k].Arg?)
  {
    if items != [] && items[0].Redirect? then 1 + Leading(items[1..]) else 0
  }

  lemma {:induction false} ToksConcat(a: seq<Item>, b: seq<Item>)
    ensures ItemsToks(a + b) == ItemsToks(a) + ItemsToks(b)
    decreases |a|
  {
    if a == [] {
      assert a + b == b;
    } else {
      assert (a + b)[1..] == a[1..] + b;
      ToksConcat(a[1..], b);
    }
  }

  lemma {:induction false} ArgsConcat(a: seq<Item>, b: seq<Item>)
    ensures Args(a + b) == Args(a) + Args(b)
    decreases |a|
  {
    if a == [] {
      assert a + b == b;
    } else {
      assert (a + b)[1..] == a[1..] + b;
      ArgsConcat(a[1..], b);
    }
  }

  lemma {:induction false} FilesConcat(a: seq<Item>, b: seq<Item>)
    ensures FilesOf(a + b) == FilesOf(a) + FilesOf(b)
    decreases |a|
  {
    if a == [] {
      assert a + b == b;
    } else {
      assert (a + b)[1..] == a[1..] + b;
      FilesConcat(a[1..], b);
    }
  }

  /** Items as leading redirections and the rest. */
  lemma ItemsSplit(items: seq<Item>, k: nat)
    requires k <= |items| && forall i :: 0 <= i < k ==> items[i].Redirect?
    ensures ItemsToks(items) == ItemsToks(items[..k]) + ItemsToks(items[k..])
    ensures Args(items) == Args(items[k..]) && FilesOf(items) == FilesOf(items[..k]) + FilesOf(items[k..])
  {
    hide ItemsToks, Args, FilesOf;
    assert items == items[..k] + items[k..];
    ToksConcat(items[..k], items[k..]);
    ArgsConcat(items[..k], items[k..]);
    FilesConcat(items[..k], items[k..]);
    NoArgsIn(items[..k]);
  }

  /** An argument in front. */
  lemma ArgFront(items: seq<Item>)
    requires items != [] && items[0].Arg?
    ensures ItemsToks(items) == [Word(items[0].word)] + ItemsToks(items[1..])
    ensures Args(items) == [items[0].word] + Args(items[1..]) && FilesOf(items) == FilesOf(items[1..])
  {
  }

  lemma {:induction false} NoArgsIn(items: seq<Item>)
    requires forall i :: 0 <= i < |items| ==> items[i].Redirect?
    ensures Args(items) == []
    decreases |items|
  {
    if items != [] { NoArgsIn(items[1..]); }
  }

  lemma ItemsFirst(items: seq<Item>, ts: seq<Tok>)
    requires items == [] || (items[0].Arg? && ItemOk(items[0]))
    requires Follow(ts, "|)&;")
    ensures var all := ItemsToks(items) + ts;
      && (items == [] ==> all == ts) && (items != [] ==> all[0] == Word(items[0].word) && TokOk(all[0]))
      && (all == [] || (TokOk(all[0]) && First(all[0]) !in "<>(" && (items != [] <==> First(all[0]) !in "|)&;")))
  {
    if items != [] { assert InWord(items[0].word[0]); }
  }

  /** One argument and the redirections after it. */
  lemma ArgStep(s: string, w: string, more: seq<Tok>, argv: seq<string>, files: seq<File>)
    requires PlainWord(w) && Lex(s) == [Word(w)] + more && |argv| + 1 < MAXARGS
    ensures ParseArgs(s, argv, files) ==
      var f := ParseRedirs(GetToken(s).rest, files); if f.NoFiles? then Fail(f.error) else ParseArgs(f.rest, argv + [w], f.files)
    ensures Lex(GetToken(s).rest) == more
  {
    hide GetToken, Lex, Skip, Peek, ParseRedirs, Wrapped;
    PeekIs(s, "|)&;");
    assert InWord(w[0]);
    NextToken(s);
  }

  lemma ArgsEnd(s: string, argv: seq<string>, files: seq<File>)
    requires Follow(Lex(s), "|)&;") && (Lex(s) != [] ==> TokOk(Lex(s)[0]))
    ensures ParseArgs(s, argv, files) == Parsed(Wrapped(Exec(argv), files), Skip(s)) && Lex(Skip(s)) == Lex(s)
  {
    hide GetToken, Lex, Skip, Peek, ParseRedirs, Wrapped;
    PeekIs(s, "|)&;");
    LexSkip(s);
  }

  lemma {:induction false} ItemsParse(items: seq<Item>, s: string, argv: seq<string>, files: seq<File>, ts: seq<Tok>)
    requires Lex(s) == ItemsToks(items) + ts && (forall i :: 0 <= i < |items| ==> ItemOk(items[i])) && (items == [] || items[0].Arg?)
    requires Follow(ts, "|)&;") && (ts != [] ==> TokOk(ts[0])) && |argv| + |Args(items)| < MAXARGS
    ensures var p := ParseArgs(s, argv, files);
      p.Parsed? && p.cmd == Wrapped(Exec(argv + Args(items)), files + FilesOf(items)) && Lex(p.rest) == ts
    decreases |items|
  {
    hide Lex, Skip, ParseArgs, ParseRedirs, Wrapped, GetToken, ItemOk, TokOk, First, Follow, ItemsToks, Args, FilesOf;
    if items == [] {
      NoItems();
      assert argv + [] == argv && files + [] == files && [] + ts == ts;
      assert Lex(s) == ts;
      ArgsEnd(s, argv, files);
    } else {
      var w, rest := items[0].word, items[1..];
      ArgIs(items[0]);
      ArgFront(items);
      var k := Leading(rest);
      ItemsSplit(rest, k);
      var more := ItemsToks(rest[k..]) + ts;
      assert Lex(s) == [Word(w)] + (ItemsToks(rest[..k]) + more);
      ArgStep(s, w, ItemsToks(rest[..k]) + more, argv, files);
      ItemsFirst(rest[k..], ts);
      RedirsIs(rest[..k], GetToken(s).rest, files, more);
      var f := ParseRedirs(GetToken(s).rest, files);
      ItemsParse(rest[k..], f.rest, argv + [w], f.files, ts);
      assert argv + [w] + Args(rest[k..]) == argv + Args(items);
      assert files + FilesOf(rest[..k]) + FilesOf(rest[k..]) == files + FilesOf(items);
    }
  }

  lemma NoItems()
    ensures ItemsToks([]) == [] && Args([]) == [] && FilesOf([]) == []
  {
  }

  lemma ArgIs(i: Item)
    requires ItemOk(i) && i.Arg?
    ensures PlainWord(i.word)
  {
  }

  // ---- every tree is parsed to what it means ----

  ghost predicate Gives(p: Parsed, c: Cmd, ts: seq<Tok>) {
    p.Parsed? && p.cmd == c && Lex(p.rest) == ts
  }

  ghost predicate FollowOk(ts: seq<Tok>, marks: string) {
    Follow(ts, marks) && (ts != [] ==> TokOk(ts[0]))
  }

  lemma SimpleParse(items: seq<Item>, s: string, ts: seq<Tok>)
    requires Lex(s) == ItemsToks(items) + ts && (forall i :: 0 <= i < |items| ==> ItemOk(items[i])) && |Args(items)| < MAXARGS
    requires FollowOk(ts, "|)&;")
    ensures Gives(ParseExec(s), Redirected(Exec(Args(items)), FilesOf(items)), ts)
  {
    hide Lex, Skip, ParseArgs, ParseRedirs, ParseExec, Wrapped, Redirected, GetToken, ItemOk, TokOk, First, Follow, ItemsToks, Args, FilesOf, Peek, Leading;
    var k := Leading(items);
    ItemsSplit(items, k);
    var more := ItemsToks(items[k..]) + ts;
    assert Lex(s) == ItemsToks(items[..k]) + more;
    ItemsFirst(items[k..], ts);
    RedirsIs(items[..k], s, [], more);
    NotOpen(items, s, ts);
    ExecGives(s);
    var f := ParseRedirs(s, []);
    assert f.files == FilesOf(items[..k]) by { assert [] + FilesOf(items[..k]) == FilesOf(items[..k]); }
    ItemsParse(items[k..], f.rest, [], f.files, ts);
    assert [] + Args(items[k..]) == Args(items);
    RedirectedWrapped(Exec(Args(items)), FilesOf(items));
  }

  /** A simple command does not start with a parenthesis. */
  lemma NotOpen(items: seq<Item>, s: string, ts: seq<Tok>)
    requires Lex(s) == ItemsToks(items) + ts && (forall i :: 0 <= i < |items| ==> ItemOk(items[i])) && FollowOk(ts, "|)&;")
    ensures !Peek(s, "(")
  {
    hide Lex, Peek, Skip, TokOk, First, ItemOk, ItemToks, ItemsToks, FollowOk;
    PeekIs(s, "(");
    NoItems();
    if items == [] {
      assert Lex(s) == ts;
      if ts != [] { NotParen(ts); }
    } else {
      ItemStarts(items[0]);
      ItemsFront(items);
      assert Lex(s)[0] == ItemToks(items[0])[0];
    }
  }

  lemma ExecGives(s: string)
    requires !Peek(s, "(")
    ensures ParseExec(s) == var f := ParseRedirs(s, []); if f.NoFiles? then Fail(f.error) else ParseArgs(f.rest, [], f.files)
  {
    hide Peek, ParseRedirs, ParseArgs;
  }

  lemma ItemsFront(items: seq<Item>)
    requires items != []
    ensures ItemsToks(items) == ItemToks(items[0]) + ItemsToks(items[1..])
  {
  }

  lemma NotParen(ts: seq<Tok>)
    requires FollowOk(ts, "|)&;") && ts != []
    ensures TokOk(ts[0]) && First(ts[0]) !in "("
  {
  }

  lemma ItemStarts(i: Item)
    requires ItemOk(i)
    ensures ItemToks(i) != [] && TokOk(ItemToks(i)[0]) && First(ItemToks(i)[0]) !in "("
  {
    FirstInWord(ItemToks(i)[0]);
  }

  lemma Open(s: string, c: char, more: seq<Tok>)
    requires c in ['(', ')', '|', '&', ';'] && Lex(s) == [Sym(c)] + more
    ensures Peek(s, [c]) && Lex(GetToken(s).rest) == more && |GetToken(s).rest| < |s|
    ensures forall d :: d != c ==> !Peek(s, [d])
  {
    hide Lex, GetToken, Skip;
    NextToken(s);
    forall d: char ensures Peek(s, [d]) <==> c == d { PeekIs(s, [d]); }
  }

  lemma {:induction false} UnitParse(u: Unit, s: string, ts: seq<Tok>)
    requires UnitOk(u) && Lex(s) == UnitToks(u) + ts && FollowOk(ts, "|)&;")
    ensures Gives(ParseExec(s), UnitMeans(u), ts)
    decreases u
  {
    hide Lex, Skip, ParseArgs, ParseRedirs, ParseLine, ParseExec, Wrapped, Redirected, GetToken, ItemOk, TokOk, First, Follow, ItemsToks, Args, FilesOf, Peek;
    match u
    case Simple(items) => SimpleParse(items, s, ts);
    case Paren(line, files) =>
      var after := ItemsToks(files) + ts;
      assert Lex(s) == [Sym('(')] + (LineToks(line) + ([Sym(')')] + after));
      Open(s, '(', LineToks(line) + ([Sym(')')] + after));
      CloseFollows(after);
      LineParse(line, GetToken(s).rest, [Sym(')')] + after);
      var l := ParseLine(GetToken(s).rest);
      Open(l.rest, ')', after);
      NotRedirect(ts);
      RedirsIs(files, GetToken(l.rest).rest, [], after[|ItemsToks(files)|..]);
      assert after[|ItemsToks(files)|..] == ts;
      assert [] + FilesOf(files) == FilesOf(files);
      RedirectedWrapped(LineMeans(line), FilesOf(files));
      BlockGives(s);
  }

  lemma CloseFollows(after: seq<Tok>)
    ensures FollowOk([Sym(')')] + after, ")")
  {
  }

  lemma NotRedirect(ts: seq<Tok>)
    requires FollowOk(ts, "|)&;")
    ensures ts == [] || (TokOk(ts[0]) && First(ts[0]) !in "<>")
  {
  }

  lemma BlockGives(s: string)
    requires Peek(s, "(")
    ensures ParseExec(s) ==
      var l := ParseLine(GetToken(s).rest);
      if l.Fail? then l
      else if !Peek(l.rest, ")") then Fail(MissingParen)
      else
        var f := ParseRedirs(GetToken(l.rest).rest, []);
        if f.NoFiles? then Fail(f.error) else Parsed(Wrapped(l.cmd, f.files), f.rest)
  {
    hide Peek, GetToken, ParseLine, ParseRedirs, Wrapped;
  }

  lemma {:induction false} PipelineParse(p: Pipeline, s: string, ts: seq<Tok>)
    requires PipelineOk(p) && Lex(s) == PipelineToks(p) + ts && FollowOk(ts, ")&;")
    ensures Gives(ParsePipe(s), PipelineMeans(p), ts)
    decreases p
  {
    hide Lex, Skip, ParseExec, GetToken, TokOk, First, Follow, UnitToks, UnitMeans, UnitOk, Peek;
    FollowMore(ts);
    if p.Last? {
      UnitParse(p.unit, s, ts);
      var e := ParseExec(s);
      NotPiped(e.rest);
      LexSkip(e.rest);
    } else {
      var more := PipelineToks(p.more) + ts;
      assert Lex(s) == UnitToks(p.unit) + ([Sym('|')] + more);
      BarFollows(more);
      UnitParse(p.unit, s, [Sym('|')] + more);
      var e := ParseExec(s);
      Open(e.rest, '|', more);
      PipelineParse(p.more, GetToken(e.rest).rest, ts);
    }
  }

  lemma FollowMore(ts: seq<Tok>)
    requires FollowOk(ts, ")&;")
    ensures FollowOk(ts, "|)&;")
  {
  }

  lemma BarFollows(more: seq<Tok>)
    ensures FollowOk([Sym('|')] + more, "|)&;")
  {
  }

  lemma NotPiped(s: string)
    requires FollowOk(Lex(s), ")&;")
    ensures !Peek(s, "|")
  {
    hide Lex, Peek;
    PeekIs(s, "|");
  }

  lemma {:induction false} BacksParse(c: Cmd, n: nat, s: string, ts: seq<Tok>)
    requires Lex(s) == Repeated(Sym('&'), n) + ts && FollowOk(ts, ");")
    ensures Gives(ParseBacks(c, s), InBackground(c, n), ts)
    decreases n
  {
    hide Lex, Skip, GetToken, TokOk, First, Follow, Peek;
    if n == 0 {
      assert [] + ts == ts;
      NoAmp(s);
      LexSkip(s);
    } else {
      assert Lex(s) == [Sym('&')] + (Repeated(Sym('&'), n - 1) + ts);
      Open(s, '&', Repeated(Sym('&'), n - 1) + ts);
      BacksParse(Back(c), n - 1, GetToken(s).rest, ts);
      BackInside(c, n - 1);
    }
  }

  lemma {:induction false} BackInside(c: Cmd, n: nat)
    ensures InBackground(Back(c), n) == Back(InBackground(c, n))
    decreases n
  {
    if n > 0 { BackInside(c, n - 1); }
  }

  lemma NoAmp(s: string)
    requires FollowOk(Lex(s), ");")
    ensures !Peek(s, "&")
  {
    hide Lex, Peek;
    PeekIs(s, "&");
  }

  lemma {:induction false} LineParse(l: Line, s: string, ts: seq<Tok>)
    requires LineOk(l) && Lex(s) == LineToks(l) + ts && FollowOk(ts, ")")
    ensures Gives(ParseLine(s), LineMeans(l), ts)
    decreases l
  {
    hide Lex, Skip, ParsePipe, ParseBacks, GetToken, TokOk, First, Follow, PipelineToks, PipelineMeans, PipelineOk, Repeated, Peek;
    var tail := if l.End? then ts else [Sym(';')] + (LineToks(l.next) + ts);
    assert Lex(s) == PipelineToks(l.pipe) + (Repeated(Sym('&'), l.amps) + tail);
    TailFollows(l, ts, tail);
    PipelineParse(l.pipe, s, Repeated(Sym('&'), l.amps) + tail);
    var p := ParsePipe(s);
    BacksParse(p.cmd, l.amps, p.rest, tail);
    var b := ParseBacks(p.cmd, p.rest);
    if l.End? {
      NoSemi(b.rest);
      LexSkip(b.rest);
    } else {
      Open(b.rest, ';', LineToks(l.next) + ts);
      LineParse(l.next, GetToken(b.rest).rest, ts);
    }
  }

  lemma NoSemi(s: string)
    requires FollowOk(Lex(s), ")")
    ensures !Peek(s, ";")
  {
    hide Lex, Peek;
    PeekIs(s, ";");
  }

  lemma TailFollows(l: Line, ts: seq<Tok>, tail: seq<Tok>)
    requires FollowOk(ts, ")") && tail == if l.End? then ts else [Sym(';')] + (LineToks(l.next) + ts)
    ensures FollowOk(tail, ");") && FollowOk(Repeated(Sym('&'), l.amps) + tail, ")&;")
  {
    if l.amps == 0 { assert Repeated(Sym('&'), 0) + tail == tail; }
  }

  // ---- whatever is parsed comes from a tree ----

  ghost predicate ItemsOk(items: seq<Item>) {
    forall i :: 0 <= i < |items| ==> ItemOk(items[i])
  }

  lemma OneItem(i: Item, items: seq<Item>)
    ensures ItemsToks([i] + items) == ItemToks(i) + ItemsToks(items)
    ensures Args([i] + items) == (if i.Arg? then [i.word] else []) + Args(items)
    ensures FilesOf([i] + items) == (if i.Redirect? then [FileOf(i)] else []) + FilesOf(items)
  {
    assert ([i] + items)[1..] == items;
  }

  lemma {:induction false} RedirsSound(s: string, files: seq<File>) returns (items: seq<Item>)
    requires ParseRedirs(s, files).Files?
    ensures ItemsOk(items) && (forall i :: 0 <= i < |items| ==> items[i].Redirect?)
    ensures var f := ParseRedirs(s, files); Lex(s) == ItemsToks(items) + Lex(f.rest) && f.files == files + FilesOf(items)
    decreases |s|
  {
    hide Lex, Skip, Peek, ItemsToks, FilesOf, Args, TokOk, ItemOk, ParseRedirs, ItemToks;
    NoItems();
    items := [];
    if Peek(s, "<>") {
      var i, rest := RedirectRead(s, files);
      var more := RedirsSound(rest, files + [FileOf(i)]);
      items := [i] + more;
      OneItem(i, more);
      assert ItemToks(i) + (ItemsToks(more) + Lex(ParseRedirs(s, files).rest)) == ItemsToks(items) + Lex(ParseRedirs(s, files).rest);
      assert files + [FileOf(i)] + FilesOf(more) == files + FilesOf(items);
    } else {
      PeekIs(s, "<>");
      LexOk(s);
      NoRedirect(s, files);
      assert [] + Lex(s) == Lex(s) && files + [] == files;
    }
  }

  lemma RedirectRead(s: string, files: seq<File>) returns (i: Item, rest: string)
    requires Peek(s, "<>") && ParseRedirs(s, files).Files?
    ensures i.Redirect? && ItemOk(i) && Lex(s) == ItemToks(i) + Lex(rest) && |rest| < |s|
    ensures ParseRedirs(s, files) == ParseRedirs(rest, files + [FileOf(i)])
  {
    hide Lex, Skip, GetToken, Peek, TokOk, ItemOk, First, ItemToks;
    PeekIs(s, "<>");
    NextToken(s);
    var tok := GetToken(s);
    NextNothing(tok.rest);
    var name := GetToken(tok.rest);
    NextToken(tok.rest);
    i, rest := Redirect(tok.kind, name.word), name.rest;
    RedirectOk(Lex(s)[0], Lex(tok.rest)[0], i);
    assert Lex(s) == [Lex(s)[0]] + ([Lex(tok.rest)[0]] + Lex(rest));
  }

  lemma RedirectOk(a: Tok, b: Tok, i: Item)
    requires TokOk(a) && First(a) in "<>" && TokOk(b) && b.Word? && i.Redirect? && i.name == b.w && (a.Sym? ==> i.sign == a.c)
    ensures a == Sym(i.sign) && ItemOk(i) && ItemToks(i) == [a, b]
  {
    FirstInWord(a);
  }

  /** At the end of the text there is no word. */
  lemma NextNothing(s: string)
    ensures GetToken(s).kind == 'a' ==> Lex(s) != []
  {
    LexSkip(s);
    if Skip(s) == [] { assert GetToken(s).kind == '\0'; }
  }

  lemma {:induction false} ArgsSound(s: string, argv: seq<string>, files: seq<File>) returns (items: seq<Item>)
    requires ParseArgs(s, argv, files).Parsed? && |argv| < MAXARGS
    ensures ItemsOk(items) && |argv| + |Args(items)| < MAXARGS
    ensures Lex(s) == ItemsToks(items) + Lex(ParseArgs(s, argv, files).rest)
    ensures ParseArgs(s, argv, files).cmd == Wrapped(Exec(argv + Args(items)), files + FilesOf(items))
    decreases |s|
  {
    hide Lex, Skip, GetToken, Peek, ItemsToks, FilesOf, Args, TokOk, ItemOk, ParseRedirs, Wrapped;
    NoItems();
    LexSkip(s);
    items := [];
    if Peek(s, "|)&;") || Skip(s) == [] {
      assert [] + Lex(s) == Lex(s) && files + [] == files && argv + [] == argv;
    } else {
      NextToken(s);
      var tok := GetToken(s);
      var pre := RedirsSound(tok.rest, files);
      var f := ParseRedirs(tok.rest, files);
      var post := ArgsSound(f.rest, argv + [tok.word], f.files);
      var i := Arg(tok.word);
      ArgOk(Lex(s)[0], i);
      items := [i] + (pre + post);
      OneItem(i, pre + post);
      ToksConcat(pre, post);
      ArgsConcat(pre, post);
      FilesConcat(pre, post);
      NoArgsIn(pre);
      assert Lex(s) == [Lex(s)[0]] + (ItemsToks(pre) + (ItemsToks(post) + Lex(ParseArgs(s, argv, files).rest)));
      assert argv + [tok.word] + Args(post) == argv + Args(items);
      assert files + FilesOf(pre) + FilesOf(post) == files + FilesOf(items);
    }
  }

  lemma ArgOk(t: Tok, i: Item)
    requires TokOk(t) && t.Word? && i == Arg(t.w)
    ensures ItemOk(i) && ItemToks(i) == [t]
  {
  }

  lemma {:induction false} UnitSound(s: string) returns (u: Unit)
    requires ParseExec(s).Parsed?
    ensures UnitOk(u) && Lex(s) == UnitToks(u) + Lex(ParseExec(s).rest) && UnitMeans(u) == ParseExec(s).cmd
    decreases |s|, 0
  {
    hide Lex, Skip, GetToken, Peek, ItemsToks, FilesOf, Args, TokOk, ItemOk, ParseRedirs, ParseArgs, ParseLine, Wrapped, Redirected;
    if Peek(s, "(") {
      BlockGives(s);
      Closes(s, '(');
      var l := ParseLine(GetToken(s).rest);
      var line := LineSound(GetToken(s).rest);
      Closes(l.rest, ')');
      var files := RedirsSound(GetToken(l.rest).rest, []);
      var f := ParseRedirs(GetToken(l.rest).rest, []);
      u := Paren(line, files);
      assert [] + FilesOf(files) == FilesOf(files);
      RedirectedWrapped(l.cmd, f.files);
      assert Lex(s) == [Sym('(')] + (LineToks(line) + ([Sym(')')] + (ItemsToks(files) + Lex(f.rest))));
    } else {
      var pre := RedirsSound(s, []);
      var f := ParseRedirs(s, []);
      var post := ArgsSound(f.rest, [], f.files);
      u := Simple(pre + post);
      ToksConcat(pre, post);
      ArgsConcat(pre, post);
      FilesConcat(pre, post);
      NoArgsIn(pre);
      assert [] + Args(post) == Args(pre + post);
      assert [] + FilesOf(pre) + FilesOf(post) == FilesOf(pre + post);
      RedirectedWrapped(Exec(Args(pre + post)), FilesOf(pre + post));
      assert ItemsToks(pre) + (ItemsToks(post) + Lex(ParseExec(s).rest)) == ItemsToks(pre) + ItemsToks(post) + Lex(ParseExec(s).rest);
    }
  }

  /** The mark that peek saw is the next token. */
  lemma Closes(s: string, c: char)
    requires c in ['(', ')', '|', '&', ';'] && Peek(s, [c])
    ensures Lex(s) == [Sym(c)] + Lex(GetToken(s).rest) && |GetToken(s).rest| < |s|
  {
    hide Lex, GetToken, Skip;
    PeekIs(s, [c]);
    NextToken(s);
    var t := Lex(s)[0];
    FirstInWord(t);
    assert Lex(s) == [t] + Lex(s)[1..];
  }

  lemma {:induction false} PipelineSound(s: string) returns (p: Pipeline)
    requires ParsePipe(s).Parsed?
    ensures PipelineOk(p) && Lex(s) == PipelineToks(p) + Lex(ParsePipe(s).rest) && PipelineMeans(p) == ParsePipe(s).cmd
    decreases |s|, 1
  {
    hide Lex, Skip, GetToken, Peek, ParseExec, UnitToks, UnitMeans, UnitOk;
    var u := UnitSound(s);
    var e := ParseExec(s);
    LexSkip(e.rest);
    if Peek(e.rest, "|") {
      Closes(e.rest, '|');
      var more := PipelineSound(GetToken(e.rest).rest);
      p := Piped(u, more);
      assert UnitToks(u) + ([Sym('|')] + (PipelineToks(more) + Lex(ParsePipe(s).rest))) == PipelineToks(p) + Lex(ParsePipe(s).rest);
    } else {
      p := Last(u);
    }
  }

  lemma {:induction false} BacksSound(c: Cmd, s: string) returns (n: nat)
    ensures Lex(s) == Repeated(Sym('&'), n) + Lex(ParseBacks(c, s).rest) && ParseBacks(c, s).cmd == InBackground(c, n)
    decreases |s|
  {
    hide Lex, Skip, GetToken, Peek;
    LexSkip(s);
    n := 0;
    if Peek(s, "&") {
      Closes(s, '&');
      var k := BacksSound(Back(c), GetToken(s).rest);
      n := k + 1;
      BackInside(c, k);
    } else {
      assert [] + Lex(s) == Lex(s);
    }
  }

  lemma {:induction false} LineSound(s: string) returns (l: Line)
    requires ParseLine(s).Parsed?
    ensures LineOk(l) && Lex(s) == LineToks(l) + Lex(ParseLine(s).rest) && LineMeans(l) == ParseLine(s).cmd
    decreases |s|, 2
  {
    hide Lex, Skip, GetToken, Peek, ParsePipe, ParseBacks, PipelineToks, PipelineMeans, PipelineOk, Repeated;
    var pipe := PipelineSound(s);
    var p := ParsePipe(s);
    var n := BacksSound(p.cmd, p.rest);
    var b := ParseBacks(p.cmd, p.rest);
    LexSkip(b.rest);
    if Peek(b.rest, ";") {
      Closes(b.rest, ';');
      var next := LineSound(GetToken(b.rest).rest);
      l := Semi(pipe, n, next);
      assert PipelineToks(pipe) + (Repeated(Sym('&'), n) + ([Sym(';')] + (LineToks(next) + Lex(ParseLine(s).rest)))) == LineToks(l) + Lex(ParseLine(s).rest);
    } else {
      l := End(pipe, n);
      assert PipelineToks(pipe) + (Repeated(Sym('&'), n) + Lex(b.rest)) == LineToks(l) + Lex(b.rest);
    }
  }

  /** The text stands for command c: its tokens are those of a tree that means c. */
  ghost predicate StandsFor(s: string, c: Cmd) {
    exists l :: LineOk(l) && LineToks(l) == Lex(s) && LineMeans(l) == c
  }

  /** parsecmd decides the grammar: it gives c if and only if the text stands for c. */
  lemma ParsesExactly(s: string, c: Cmd)
    ensures ParseCmd(s) == Parsed(c, []) <==> StandsFor(s, c)
    ensures ParseCmd(s).Parsed? ==> ParseCmd(s).rest == []
  {
    hide Lex, Skip, ParseLine, LineToks, LineMeans, LineOk;
    var p := ParseLine(s);
    if p.Parsed? {
      LexSkip(p.rest);
      RestSkipped(s);
      var l := LineSound(s);
      if p.cmd == c && p.rest == [] {
        assert LineToks(l) + [] == LineToks(l);
        assert Lex([]) == [] by { LexSkip([]); }
      }
    }
    if StandsFor(s, c) {
      var l :| LineOk(l) && LineToks(l) == Lex(s) && LineMeans(l) == c;
      assert LineToks(l) + [] == LineToks(l);
      LineParse(l, s, []);
    }
  }

  lemma RestSkipped(s: string)
    requires ParseLine(s).Parsed?
    ensures Skip(ParseLine(s).rest) == ParseLine(s).rest
    decreases |s|
  {
    hide ParsePipe, GetToken;
    var p := ParsePipe(s);
    var b := ParseBacks(p.cmd, p.rest);
    SkipTwice(b.rest);
    if Peek(b.rest, ";") { RestSkipped(GetToken(b.rest).rest); }
  }
}
