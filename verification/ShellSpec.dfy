/**
 * The command parser of sh.c as functions on the text that is left.  A parse function returns
 * the command and the rest of the text, or the panic that ends the shell's child process.
 * A command node that the code fills in after wrapping it in redirections is built here when
 * its arguments are complete.
 */
module ShellSpec {
  const MAXARGS := 10

  datatype Mode = In | Out

  datatype File = File(name: string, mode: Mode)

  datatype Cmd =
    | Exec(argv: seq<string>)
    | Redir(cmd: Cmd, file: File)
    | Pipe(left: Cmd, right: Cmd)
    | List(left: Cmd, right: Cmd)
    | Back(cmd: Cmd)

  datatype Error = MissingFile | MissingParen | Syntax | TooManyArgs | Leftovers

  datatype Parsed = Parsed(cmd: Cmd, rest: string) | Fail(error: Error)

  datatype Files = Files(files: seq<File>, rest: string) | NoFiles(error: Error)

  // ---- tokens ----

  predicate IsSpace(c: char) { c in [' ', '\t', '\r', '\n', '\U{000B}'] }

  predicate IsSymbol(c: char) { c in ['<', '|', '>', '&', ';', '(', ')'] }

  predicate InWord(c: char) { !IsSpace(c) && !IsSymbol(c) }

  function Skip(s: string): (r: string)
    ensures |r| <= |s| && (r == [] || !IsSpace(r[0]))
    ensures s == [] || !IsSpace(s[0]) ==> r == s
  {
    if s != [] && IsSpace(s[0]) then Skip(s[1..]) else s
  }

  /** The number of word characters at the front. */
  function WordLen(s: string): (n: nat)
    ensures n <= |s| && (forall i :: 0 <= i < n ==> InWord(s[i])) && (n < |s| ==> !InWord(s[n]))
  {
    if s != [] && InWord(s[0]) then 1 + WordLen(s[1..]) else 0
  }

  datatype Token = Token(kind: char, word: string, rest: string)

  /** The kind and length of the lexeme at the front: 'a' for a word, '+' for >>, and '\0' at the end. */
  function Lexeme(u: string): (r: (char, nat))
    ensures r.1 <= |u| && (u != [] && !IsSpace(u[0]) ==> r.1 > 0)
  {
    if u == [] then ('\0', 0)
    else if u[0] == '>' then (if |u| > 1 && u[1] == '>' then ('+', 2) else ('>', 1))
    else if IsSymbol(u[0]) then (u[0], 1)
    else ('a', WordLen(u))
  }

  /** gettoken (sh.c:265-308) */
  function GetToken(s: string): (t: Token)
    ensures |t.rest| <= |s| && (Skip(s) != [] ==> |t.rest| < |s|) && Skip(t.rest) == t.rest
  {
    var u := Skip(s);
    var (kind, n) := Lexeme(u);
    Token(kind, u[..n], Skip(u[n..]))
  }

  /** peek's answer (sh.c:310-320); it also moves the cursor to Skip(s). */
  predicate Peek(s: string, toks: string) { Skip(s) != [] && Skip(s)[0] in toks }

  // ---- the grammar ----

  function Wrapped(c: Cmd, files: seq<File>): Cmd
    decreases |files|
  {
    if files == [] then c else Redir(Wrapped(c, files[..|files| - 1]), files[|files| - 1])
  }

  /** parseredirs (sh.c:374-397): > and >> give the same mode. */
  function ParseRedirs(s: string, files: seq<File>): (r: Files)
    ensures r.Files? ==> |r.rest| <= |s|
    decreases |s|
  {
    if !Peek(s, "<>") then Files(files, Skip(s)) else
      var tok := GetToken(s);
      var name := GetToken(tok.rest);
      if name.kind != 'a' then NoFiles(MissingFile)
      else ParseRedirs(name.rest, files + [File(name.word, if tok.kind == '<' then In else Out)])
  }

  /** parseline (sh.c:344-359) */
  function ParseLine(s: string): (r: Parsed)
    ensures r.Parsed? ==> |r.rest| <= |s|
    decreases |s|, 5
  {
    var p := ParsePipe(s);
    if p.Fail? then p else
      var b := ParseBacks(p.cmd, p.rest);
      if Peek(b.rest, ";") then
        var q := ParseLine(GetToken(b.rest).rest);
        if q.Fail? then q else Parsed(List(b.cmd, q.cmd), q.rest)
      else Parsed(b.cmd, Skip(b.rest))
  }

  function ParseBacks(c: Cmd, s: string): (r: Parsed)
    ensures r.Parsed? && |r.rest| <= |s|
    decreases |s|, 1
  {
    if Peek(s, "&") then ParseBacks(Back(c), GetToken(s).rest) else Parsed(c, Skip(s))
  }

  /** parsepipe (sh.c:361-372) */
  function ParsePipe(s: string): (r: Parsed)
    ensures r.Parsed? ==> |r.rest| <= |s|
    decreases |s|, 4
  {
    var e := ParseExec(s);
    if e.Fail? || !Peek(e.rest, "|") then (if e.Fail? then e else Parsed(e.cmd, Skip(e.rest))) else
      var p := ParsePipe(GetToken(e.rest).rest);
      if p.Fail? then p else Parsed(Pipe(e.cmd, p.cmd), p.rest)
  }

  /** parseblock (sh.c:399-413) */
  function ParseBlock(s: string): (r: Parsed)
    requires Peek(s, "(")
    ensures r.Parsed? ==> |r.rest| <= |s|
    decreases |s|, 2
  {
    var l := ParseLine(GetToken(s).rest);
    if l.Fail? then l
    else if !Peek(l.rest, ")") then Fail(MissingParen)
    else
      var f := ParseRedirs(GetToken(l.rest).rest, []);
      if f.NoFiles? then Fail(f.error) else Parsed(Wrapped(l.cmd, f.files), f.rest)
  }

  /** parseexec (sh.c:415-446) */
  function ParseExec(s: string): (r: Parsed)
    ensures r.Parsed? ==> |r.rest| <= |s|
    decreases |s|, 3
  {
    if Peek(s, "(") then ParseBlock(s) else
      var f := ParseRedirs(s, []);
      if f.NoFiles? then Fail(f.error) else ParseArgs(f.rest, [], f.files)
  }

  /** parseexec's loop (sh.c:431-445) */
  function ParseArgs(s: string, argv: seq<string>, files: seq<File>): (r: Parsed)
    ensures r.Parsed? ==> |r.rest| <= |s|
    decreases |s|, 0
  {
    if Peek(s, "|)&;") || Skip(s) == [] then Parsed(Wrapped(Exec(argv), files), Skip(s)) else
      var tok := GetToken(s);
      if tok.kind != 'a' then Fail(Syntax)
      else if |argv| + 1 >= MAXARGS then Fail(TooManyArgs)
      else
        var f := ParseRedirs(tok.rest, files);
        if f.NoFiles? then Fail(f.error) else ParseArgs(f.rest, argv + [tok.word], f.files)
  }

  /** parsecmd (sh.c:327-342) */
  function ParseCmd(s: string): Parsed {
    var l := ParseLine(s);
    if l.Parsed? && Skip(l.rest) != [] then Fail(Leftovers) else l
  }
}
