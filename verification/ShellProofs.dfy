/** Parsing the parenthesised rendering of a command gives the command back. */
module ShellProofs {
  import opened ShellSpec

  predicate PlainWord(w: string) { w != [] && forall i :: 0 <= i < |w| ==> InWord(w[i]) }

  /** What the parser can produce: non-empty plain words and at most 9 arguments. */
  predicate Plain(c: Cmd) {
    match c
    case Exec(argv) => |argv| < MAXARGS && forall i :: 0 <= i < |argv| ==> PlainWord(argv[i])
    case Redir(d, file) => Plain(d) && PlainWord(file.name)
    case Pipe(l, r) => Plain(l) && Plain(r)
    case List(l, r) => Plain(l) && Plain(r)
    case Back(d) => Plain(d)
  }

  function Words(argv: seq<string>): string {
    if argv == [] then [] else argv[0] + " " + Words(argv[1..])
  }

  function Block(c: Cmd): string
    decreases c, 1
  {
    "(" + Render(c) + ")"
  }

  function Sign(m: Mode): string { if m == In then "<" else ">" }

  function Render(c: Cmd): string
    decreases c, 0
  {
    match c
    case Exec(argv) => Words(argv)
    case Redir(d, file) => Block(d) + (Sign(file.mode) + file.name)
    case Pipe(l, r) => Block(l) + (['|'] + Block(r))
    case List(l, r) => Block(l) + ([';'] + Block(r))
    case Back(d) => Block(d) + (['&'] + [])
  }

  /** Nothing is left, or the parenthesis around this command closes. */
  predicate Stops(rest: string) { rest == [] || rest[0] == ')' }

  lemma StopSkip(rest: string)
    requires Stops(rest)
    ensures Skip(rest) == rest && !Peek(rest, "<>") && !Peek(rest, "|") && !Peek(rest, "&") && !Peek(rest, ";") && !Peek(rest, "(")
    ensures Peek(rest, "|)&;") || Skip(rest) == []
  {
  }

  /** A symbol other than > is one token. */
  lemma SymbolToken(c: char, s: string)
    requires IsSymbol(c) && c != '>'
    ensures GetToken([c] + s) == Token(c, [c], Skip(s)) && Skip([c] + s) == [c] + s
  {
    hide WordLen;
    var u := [c] + s;
    assert u[0] == c && Skip(u) == u;
    assert Lexeme(u) == (c, 1);
    assert u[..1] == [c] && u[1..] == s;
  }

  lemma WordLenIs(w: string, s: string)
    requires (forall i :: 0 <= i < |w| ==> InWord(w[i])) && (s == [] || !InWord(s[0]))
    ensures WordLen(w + s) == |w|
  {
    var u := w + s;
    assert forall i :: 0 <= i < |w| ==> u[i] == w[i];
    assert s != [] ==> u[|w|] == s[0];
  }

  lemma WordToken(w: string, s: string)
    requires PlainWord(w) && (s == [] || !InWord(s[0]))
    ensures GetToken(w + s) == Token('a', w, Skip(s)) && Skip(w + s) == w + s
  {
    WordLenIs(w, s);
    var u := w + s;
    assert u[..|w|] == w && u[|w|..] == s && u[0] == w[0];
  }

  // ---- arguments ----

  lemma OneArg(w: string, more: string, argv: seq<string>)
    requires PlainWord(w) && Skip(more) == more && !Peek(more, "<>") && |argv| + 1 < MAXARGS
    ensures ParseArgs(w + (" " + more), argv, []) == ParseArgs(more, argv + [w], [])
  {
    hide Skip, GetToken, Wrapped;
    WordToken(w, " " + more);
    SkipSpace(more);
    assert (w + (" " + more))[0] == w[0];
  }

  lemma SkipSpace(s: string)
    ensures Skip(" " + s) == Skip(s)
  {
    assert (" " + s)[1..] == s;
  }

  lemma NoArgs(rest: string, argv: seq<string>)
    requires Stops(rest)
    ensures ParseArgs(rest, argv, []) == Parsed(Exec(argv), rest)
  {
    hide Skip, Peek;
    StopSkip(rest);
  }

  lemma {:induction false} ArgsIs(args: seq<string>, rest: string, argv: seq<string>)
    requires |argv| + |args| < MAXARGS && Stops(rest) && forall i :: 0 <= i < |args| ==> PlainWord(args[i])
    ensures ParseArgs(Words(args) + rest, argv, []) == Parsed(Exec(argv + args), rest)
    decreases |args|
  {
    hide Skip, ParseArgs, Peek, Words, Stops;
    WordsStep(args, rest);
    if args == [] {
      NoArgs(rest, argv);
      assert argv + args == argv;
    } else {
      var w, more := args[0], Words(args[1..]) + rest;
      WordsStart(args[1..], rest);
      OneArg(w, more, argv);
      ArgsIs(args[1..], rest, argv + [w]);
      assert argv + [w] + args[1..] == argv + args;
    }
  }

  lemma WordsStep(args: seq<string>, rest: string)
    ensures if args == [] then Words(args) + rest == rest
            else Words(args) + rest == args[0] + (" " + (Words(args[1..]) + rest))
  {
  }

  lemma WordsStart(args: seq<string>, rest: string)
    requires Stops(rest) && forall i :: 0 <= i < |args| ==> PlainWord(args[i])
    ensures var s := Words(args) + rest; Skip(s) == s && !Peek(s, "<>") && !Peek(s, "(")
  {
    if args == [] {
      assert Words(args) + rest == rest;
      StopSkip(rest);
    } else {
      var s := Words(args) + rest;
      assert PlainWord(args[0]) && s[0] == args[0][0];
      WordFirst(s);
    }
  }

  lemma WordFirst(s: string)
    requires s != [] && InWord(s[0])
    ensures Skip(s) == s && !Peek(s, "<>") && !Peek(s, "(")
  {
  }

  lemma ExecIs(args: seq<string>, rest: string)
    requires Stops(rest) && Plain(Exec(args))
    ensures ParseExec(Render(Exec(args)) + rest) == Parsed(Exec(args), rest)
  {
    hide Skip, Peek, Words, ParseArgs;
    WordsStart(args, rest);
    ArgsIs(args, rest, []);
    assert [] + args == args;
  }

  // ---- blocks ----

  /** What follows a closed block is parsed as its redirections. */
  lemma BlockIs(c: Cmd, tail: string)
    requires ParseLine(Render(c) + (")" + tail)) == Parsed(c, ")" + tail)
    requires Skip(Render(c) + (")" + tail)) == Render(c) + (")" + tail) && Skip(tail) == tail
    ensures ParseExec(Block(c) + tail) ==
            var f := ParseRedirs(tail, []); if f.NoFiles? then Fail(f.error) else Parsed(Wrapped(c, f.files), f.rest)
  {
    hide Skip, ParseLine, ParseRedirs, Render, GetToken;
    var s := Block(c) + tail;
    var inner := Render(c) + (")" + tail);
    assert s == ['('] + inner;
    SymbolToken('(', inner);
    SymbolToken(')', tail);
    assert ")" + tail == [')'] + tail;
    assert Peek(s, "(") && Peek(")" + tail, ")");
  }

  lemma RenderStart(c: Cmd, tail: string)
    requires Plain(c)
    ensures Skip(Render(c) + (")" + tail)) == Render(c) + (")" + tail)
  {
    if c.Exec? {
      WordsStart(c.argv, ")" + tail);
    } else {
      assert (Render(c) + (")" + tail))[0] == '(';
    }
  }

  /** A pipeline of one command ends the line when nothing more follows. */
  lemma OnlyExec(s: string, c: Cmd, rest: string)
    requires ParseExec(s) == Parsed(c, rest) && Stops(rest)
    ensures ParsePipe(s) == Parsed(c, rest) && ParseLine(s) == Parsed(c, rest)
  {
    hide Skip, Peek, ParseExec;
    StopSkip(rest);
  }

  lemma FileIs(file: File, rest: string)
    requires PlainWord(file.name) && Stops(rest)
    ensures ParseRedirs(Sign(file.mode) + (file.name + rest), []) == Files([file], rest)
    ensures Skip(Sign(file.mode) + (file.name + rest)) == Sign(file.mode) + (file.name + rest)
  {
    hide Skip, GetToken;
    var s := Sign(file.mode) + (file.name + rest);
    SignToken(file.mode, file.name + rest);
    WordToken(file.name, rest);
    StopSkip(rest);
    assert Peek(s, "<>");
    var files := [] + [file];
    assert files == [file];
    assert ParseRedirs(rest, [file]) == Files([file], rest);
  }

  lemma SignToken(m: Mode, s: string)
    requires s != [] && InWord(s[0])
    ensures GetToken(Sign(m) + s) == Token(if m == In then '<' else '>', Sign(m), Skip(s)) && Skip(Sign(m) + s) == Sign(m) + s
  {
    hide WordLen;
    var u := Sign(m) + s;
    assert u[0] == Sign(m)[0] && u[1] == s[0] && Skip(u) == u;
    assert Lexeme(u) == (Sign(m)[0], 1);
    assert u[..1] == Sign(m) && u[1..] == s;
  }

  /** A block followed by something that is not a redirection. */
  lemma BlockOnly(c: Cmd, tail: string)
    requires ParseLine(Render(c) + (")" + tail)) == Parsed(c, ")" + tail) && Plain(c)
    requires Skip(tail) == tail && !Peek(tail, "<>")
    ensures ParseExec(Block(c) + tail) == Parsed(c, tail)
  {
    hide Skip, Peek, ParseLine, ParseExec, Render, Block;
    RenderStart(c, tail);
    BlockIs(c, tail);
  }

  lemma PipeOf(s: string, l: Cmd, more: string, r: Cmd, rest: string)
    requires ParseExec(s) == Parsed(l, ['|'] + more) && Skip(more) == more && ParsePipe(more) == Parsed(r, rest) && Stops(rest)
    ensures ParseLine(s) == Parsed(Pipe(l, r), rest)
  {
    hide Skip, ParseExec, GetToken;
    SymbolToken('|', more);
    assert Peek(['|'] + more, "|");
    assert ParsePipe(s) == Parsed(Pipe(l, r), rest);
    StopSkip(rest);
  }

  lemma ListOf(s: string, l: Cmd, more: string, r: Cmd, rest: string)
    requires ParseExec(s) == Parsed(l, [';'] + more) && Skip(more) == more && ParseLine(more) == Parsed(r, rest)
    ensures ParseLine(s) == Parsed(List(l, r), rest)
  {
    hide Skip, ParseExec, GetToken;
    SymbolToken(';', more);
    assert !Peek([';'] + more, "|") && !Peek([';'] + more, "&") && Peek([';'] + more, ";");
    assert ParsePipe(s) == Parsed(l, [';'] + more);
  }

  lemma BackOf(s: string, d: Cmd, rest: string)
    requires ParseExec(s) == Parsed(d, ['&'] + rest) && Stops(rest)
    ensures ParseLine(s) == Parsed(Back(d), rest)
  {
    hide Skip, ParseExec, GetToken;
    SymbolToken('&', rest);
    StopSkip(rest);
    assert !Peek(['&'] + rest, "|") && Peek(['&'] + rest, "&");
    assert ParsePipe(s) == Parsed(d, ['&'] + rest);
    assert ParseBacks(Back(d), rest) == Parsed(Back(d), rest);
  }

  lemma Follows(c: char, more: string)
    requires c in ['|', ';', '&']
    ensures Skip([c] + more) == [c] + more && !Peek([c] + more, "<>")
    ensures more == [] || !IsSpace(more[0]) ==> Skip(more) == more
  {
  }

  lemma Join(a: string, sep: char, b: string, rest: string)
    ensures a + ([sep] + b) + rest == a + ([sep] + (b + rest))
    ensures [sep] + b + rest == [sep] + (b + rest)
  {
  }

  ghost predicate Inside(c: Cmd, tail: string) { ParseLine(Render(c) + (")" + tail)) == Parsed(c, ")" + tail) }

  lemma RedirIs(d: Cmd, file: File, rest: string)
    requires Plain(d) && PlainWord(file.name) && Stops(rest) && Inside(d, Sign(file.mode) + (file.name + rest))
    ensures ParseLine(Render(Redir(d, file)) + rest) == Parsed(Redir(d, file), rest)
  {
    hide ParseLine, ParseExec, ParseRedirs, Block, Skip, Peek;
    var tail := Sign(file.mode) + (file.name + rest);
    FileIs(file, rest);
    RenderStart(d, tail);
    BlockIs(d, tail);
    Join(Block(d), Sign(file.mode)[0], file.name, rest);
    assert Sign(file.mode) == [Sign(file.mode)[0]];
    assert Wrapped(d, [file]) == Redir(d, file) by { assert [file][..0] == []; }
    OnlyExec(Block(d) + tail, Redir(d, file), rest);
  }

  /** A block at the end of the line. */
  lemma LastBlock(c: Cmd, rest: string)
    requires Plain(c) && Stops(rest) && Inside(c, rest)
    ensures ParsePipe(Block(c) + rest) == Parsed(c, rest) && ParseLine(Block(c) + rest) == Parsed(c, rest)
    ensures Skip(Block(c) + rest) == Block(c) + rest
  {
    StopSkip(rest);
    BlockOnly(c, rest);
    OnlyExec(Block(c) + rest, c, rest);
    assert (Block(c) + rest)[0] == '(';
  }

  lemma PipeIs(l: Cmd, r: Cmd, rest: string)
    requires Plain(l) && Plain(r) && Stops(rest) && Inside(l, ['|'] + (Block(r) + rest)) && Inside(r, rest)
    ensures ParseLine(Render(Pipe(l, r)) + rest) == Parsed(Pipe(l, r), rest)
  {
    hide ParseLine, ParsePipe, ParseExec, Block, Skip, Peek;
    var more := Block(r) + rest;
    LastBlock(r, rest);
    Follows('|', more);
    BlockOnly(l, ['|'] + more);
    Join(Block(l), '|', Block(r), rest);
    PipeOf(Block(l) + (['|'] + more), l, more, r, rest);
  }

  lemma ListIs(l: Cmd, r: Cmd, rest: string)
    requires Plain(l) && Plain(r) && Stops(rest) && Inside(l, [';'] + (Block(r) + rest)) && Inside(r, rest)
    ensures ParseLine(Render(List(l, r)) + rest) == Parsed(List(l, r), rest)
  {
    hide ParseLine, ParsePipe, ParseExec, Block, Skip, Peek;
    var more := Block(r) + rest;
    LastBlock(r, rest);
    Follows(';', more);
    BlockOnly(l, [';'] + more);
    Join(Block(l), ';', Block(r), rest);
    ListOf(Block(l) + ([';'] + more), l, more, r, rest);
  }

  lemma BackIs(d: Cmd, rest: string)
    requires Plain(d) && Stops(rest) && Inside(d, ['&'] + rest)
    ensures ParseLine(Render(Back(d)) + rest) == Parsed(Back(d), rest)
  {
    hide ParseLine, ParsePipe, ParseExec, Block, Skip, Peek;
    Follows('&', rest);
    BlockOnly(d, ['&'] + rest);
    Join(Block(d), '&', [], rest);
    assert [] + rest == rest;
    BackOf(Block(d) + (['&'] + rest), d, rest);
  }

  /** The round trip, inside a parenthesis or at the end of the text. */
  lemma {:induction false} LineIs(c: Cmd, rest: string)
    requires Plain(c) && Stops(rest)
    ensures ParseLine(Render(c) + rest) == Parsed(c, rest)
    decreases c
  {
    hide ParseLine, ParsePipe, ParseExec, Block, Skip, Peek, Render;
    match c
    case Exec(argv) =>
      ExecIs(argv, rest);
      OnlyExec(Render(c) + rest, c, rest);
    case Redir(d, file) =>
      LineIs(d, ")" + (Sign(file.mode) + (file.name + rest)));
      RedirIs(d, file, rest);
    case Pipe(l, r) =>
      LineIs(l, ")" + (['|'] + (Block(r) + rest)));
      LineIs(r, ")" + rest);
      PipeIs(l, r, rest);
    case List(l, r) =>
      LineIs(l, ")" + ([';'] + (Block(r) + rest)));
      LineIs(r, ")" + rest);
      ListIs(l, r, rest);
    case Back(d) =>
      LineIs(d, ")" + (['&'] + rest));
      BackIs(d, rest);
  }

  /** Every plain command survives rendering and parsing, and all input is consumed. */
  lemma RoundTrip(c: Cmd)
    requires Plain(c)
    ensures ParseCmd(Render(c)) == Parsed(c, [])
  {
    assert Render(c) + [] == Render(c);
    LineIs(c, []);
  }

  // ---- every parse gives a plain command ----

  predicate PlainFiles(files: seq<File>) { forall i :: 0 <= i < |files| ==> PlainWord(files[i].name) }

  lemma {:induction false} WrappedPlain(c: Cmd, files: seq<File>)
    requires Plain(c) && PlainFiles(files)
    ensures Plain(Wrapped(c, files))
    decreases |files|
  {
    if files != [] { WrappedPlain(c, files[..|files| - 1]); }
  }

  lemma {:induction false} RedirsPlain(s: string, files: seq<File>)
    requires PlainFiles(files)
    ensures ParseRedirs(s, files).Files? ==> PlainFiles(ParseRedirs(s, files).files)
    decreases |s|
  {
    hide Skip, GetToken;
    if Peek(s, "<>") {
      var tok := GetToken(s);
      var name := GetToken(tok.rest);
      if name.kind == 'a' {
        TokenPlain(tok.rest);
        RedirsPlain(name.rest, files + [File(name.word, if tok.kind == '<' then In else Out)]);
      }
    }
  }

  lemma TokenPlain(s: string)
    requires GetToken(s).kind == 'a'
    ensures PlainWord(GetToken(s).word)
  {
  }

  lemma {:induction false} ArgsPlain(s: string, argv: seq<string>, files: seq<File>)
    requires Plain(Exec(argv)) && PlainFiles(files)
    ensures ParseArgs(s, argv, files).Parsed? ==> Plain(ParseArgs(s, argv, files).cmd)
    decreases |s|
  {
    hide Skip, GetToken, Wrapped, ParseRedirs, PlainWord;
    if Peek(s, "|)&;") || Skip(s) == [] {
      WrappedPlain(Exec(argv), files);
    } else {
      var tok := GetToken(s);
      if tok.kind == 'a' && |argv| + 1 < MAXARGS {
        TokenPlain(s);
        RedirsPlain(tok.rest, files);
        var f := ParseRedirs(tok.rest, files);
        if f.Files? { ArgsPlain(f.rest, argv + [tok.word], f.files); }
      }
    }
  }

  lemma {:induction false} BacksPlain(c: Cmd, s: string)
    requires Plain(c)
    ensures Plain(ParseBacks(c, s).cmd)
    decreases |s|
  {
    hide Skip, GetToken;
    if Peek(s, "&") { BacksPlain(Back(c), GetToken(s).rest); }
  }

  lemma {:induction false} LinePlain(s: string)
    ensures ParseLine(s).Parsed? ==> Plain(ParseLine(s).cmd)
    decreases |s|, 3
  {
    hide Skip, GetToken, ParsePipe, ParseBacks;
    PipePlain(s);
    var p := ParsePipe(s);
    if p.Parsed? {
      BacksPlain(p.cmd, p.rest);
      var b := ParseBacks(p.cmd, p.rest);
      if Peek(b.rest, ";") { LinePlain(GetToken(b.rest).rest); }
    }
  }

  lemma {:induction false} PipePlain(s: string)
    ensures ParsePipe(s).Parsed? ==> Plain(ParsePipe(s).cmd)
    decreases |s|, 2
  {
    hide Skip, GetToken, ParseExec;
    ExecPlain(s);
    var e := ParseExec(s);
    if e.Parsed? && Peek(e.rest, "|") { PipePlain(GetToken(e.rest).rest); }
  }

  lemma {:induction false} ExecPlain(s: string)
    ensures ParseExec(s).Parsed? ==> Plain(ParseExec(s).cmd)
    decreases |s|, 1
  {
    hide Skip, GetToken, ParseLine, ParseRedirs, ParseArgs, Wrapped;
    if Peek(s, "(") {
      LinePlain(GetToken(s).rest);
      var l := ParseLine(GetToken(s).rest);
      if l.Parsed? && Peek(l.rest, ")") {
        RedirsPlain(GetToken(l.rest).rest, []);
        var f := ParseRedirs(GetToken(l.rest).rest, []);
        if f.Files? { WrappedPlain(l.cmd, f.files); }
      }
    } else {
      RedirsPlain(s, []);
      var f := ParseRedirs(s, []);
      if f.Files? { ArgsPlain(f.rest, [], f.files); }
    }
  }

  /** Rendering is a normal form: it parses to the command that any accepted text stands for. */
  lemma NormalForm(s: string)
    requires ParseCmd(s).Parsed?
    ensures Plain(ParseCmd(s).cmd) && ParseCmd(Render(ParseCmd(s).cmd)) == Parsed(ParseCmd(s).cmd, [])
  {
    LinePlain(s);
    RoundTrip(ParseLine(s).cmd);
  }
}
