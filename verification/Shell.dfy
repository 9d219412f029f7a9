/**
 * The parser of sh.c over its buffer: `ps` is the cursor that the C functions share.  Each
 * method agrees with the function of ShellSpec on the text from the cursor on.
 */
module Shell {
  import opened Common
  import opened ShellSpec
  import ShellProofs

  datatype Outcome = Built(cmd: Cmd) | Panic(error: Error)

  ghost predicate Agrees(p: Parsed, r: Outcome, rest: string) {
    match p
    case Parsed(c, left) => r == Built(c) && rest == left
    case Fail(e) => r == Panic(e)
  }

  ghost predicate FilesAgree(p: Files, files: seq<File>, error: bool, rest: string) {
    match p
    case Files(fs, left) => !error && files == fs && rest == left
    case NoFiles(e) => error && e == MissingFile
  }

  class Parser {
    const s: CString
    var ps: nat

    ghost predicate Valid()
      reads this
    {
      ps <= |s|
    }

    ghost function Rest(): string
      requires Valid()
      reads this
    {
      s[ps..]
    }

    constructor (s: CString)
      ensures Valid() && this.s == s && Rest() == s
    {
      this.s, ps := s, 0;
    }

    method SkipSpaces()
      requires Valid()
      modifies this
      ensures Valid() && ps >= old(ps) && Rest() == Skip(old(Rest()))
    {
      while ps < |s| && IsSpace(s[ps])
        invariant Valid() && ps >= old(ps) && Skip(Rest()) == Skip(old(Rest()))
      {
        assert Rest()[1..] == s[ps + 1..];
        ps := ps + 1;
      }
    }

    /** The switch of gettoken (sh.c:276-300). */
    method ScanLexeme() returns (kind: char)
      requires Valid()
      modifies this
      ensures Valid() && Lexeme(old(Rest())) == (kind, ps - old(ps))
    {
      ghost var q, u := ps, Rest();
      kind := if ps < |s| then s[ps] else '\0';
      if kind == '\0' {
      } else if kind == '|' || kind == '(' || kind == ')' || kind == ';' || kind == '&' || kind == '<' {
        ps := ps + 1;
      } else if kind == '>' {
        ps := ps + 1;
        if ps < |s| && s[ps] == '>' {
          kind := '+';
          ps := ps + 1;
        }
      } else {
        kind := 'a';
        assert !IsSymbol(u[0]);
        ScanWord();
      }
    }

    method ScanWord()
      requires Valid()
      modifies this
      ensures Valid() && ps == old(ps) + WordLen(old(Rest()))
    {
      while ps < |s| && !IsSpace(s[ps]) && !IsSymbol(s[ps])
        invariant old(ps) <= ps <= |s| && WordLen(old(Rest())) == ps - old(ps) + WordLen(Rest())
      {
        assert Rest()[1..] == s[ps + 1..];
        ps := ps + 1;
      }
    }

    /** gettoken (sh.c:265-308) */
    method NextToken() returns (kind: char, q: nat, eq: nat)
      requires Valid()
      modifies this
      ensures Valid() && ps >= old(ps) && q <= eq <= ps && Token(kind, s[q..eq], Rest()) == GetToken(old(Rest()))
    {
      hide Skip, Lexeme;
      SkipSpaces();
      q := ps;
      ghost var u := Rest();
      kind := ScanLexeme();
      eq := ps;
      assert s[q..eq] == u[..eq - q] && Rest() == u[eq - q..];
      SkipSpaces();
    }

    /** peek (sh.c:310-320) */
    method PeekAt(toks: string) returns (b: bool)
      requires Valid()
      modifies this
      ensures Valid() && ps >= old(ps) && Rest() == Skip(old(Rest())) && b == Peek(old(Rest()), toks)
    {
      SkipSpaces();
      return ps < |s| && s[ps] in toks;
    }

    /** parseredirs (sh.c:374-397), collecting the files. */
    method Redirs(files: seq<File>) returns (all: seq<File>, error: bool)
      requires Valid()
      modifies this
      ensures Valid() && ps >= old(ps) && FilesAgree(ParseRedirs(old(Rest()), files), all, error, Rest())
    {
      hide Skip, GetToken;
      all, error := files, false;
      SkipRedirs(Rest(), files);
      SkipFirst(Rest());
      var more := PeekAt("<>");
      while more
        invariant Valid() && ps >= old(ps) && more == Peek(Rest(), "<>") && Skip(Rest()) == Rest()
        invariant ParseRedirs(Rest(), all) == ParseRedirs(old(Rest()), files)
        decreases |s| - ps, more
      {
        PeekTakes(Rest(), "<>");
        var tok, _, _ := NextToken();
        var kind, q, eq := NextToken();
        if kind != 'a' { return all, true; }
        all := all + [File(s[q..eq], if tok == '<' then In else Out)];
        SkipRedirs(Rest(), all);
        SkipFirst(Rest());
        more := PeekAt("<>");
      }
    }
  
    /** parseline (sh.c:344-359) */
    method Line() returns (r: Outcome)
      requires Valid()
      modifies this
      ensures Valid() && ps >= old(ps) && Agrees(ParseLine(old(Rest())), r, Rest())
      decreases |s| - ps, 4
    {
      hide Skip, GetToken, ParsePipe;
      r := PipeLine();
      if r.Panic? { return; }
      var cmd := Backs(r.cmd);
      SkipFirst(Rest());
      var semi := PeekAt(";");
      if semi {
        PeekTakes(Rest(), ";");
        var _, _, _ := NextToken();
        r := Line();
        if r.Built? { r := Built(List(cmd, r.cmd)); }
        return;
      }
      return Built(cmd);
    }

    /** The loop of parseline (sh.c:350-353). */
    method Backs(c: Cmd) returns (cmd: Cmd)
      requires Valid()
      modifies this
      ensures Valid() && ps >= old(ps) && Parsed(cmd, Rest()) == ParseBacks(c, old(Rest()))
    {
      hide Skip, GetToken;
      cmd := c;
      SkipBacks(c, Rest());
      SkipFirst(Rest());
      var more := PeekAt("&");
      while more
        invariant Valid() && ps >= old(ps) && more == Peek(Rest(), "&") && Skip(Rest()) == Rest()
        invariant ParseBacks(cmd, Rest()) == ParseBacks(c, old(Rest()))
        decreases |s| - ps, more
      {
        PeekTakes(Rest(), "&");
        var _, _, _ := NextToken();
        cmd := Back(cmd);
        SkipBacks(cmd, Rest());
        SkipFirst(Rest());
        more := PeekAt("&");
      }
    }

    /** parsepipe (sh.c:361-372) */
    method PipeLine() returns (r: Outcome)
      requires Valid()
      modifies this
      ensures Valid() && ps >= old(ps) && Agrees(ParsePipe(old(Rest())), r, Rest())
      decreases |s| - ps, 3
    {
      hide Skip, GetToken, ParseExec;
      r := ExecCmd();
      if r.Panic? { return; }
      var left := r.cmd;
      SkipFirst(Rest());
      var bar := PeekAt("|");
      if bar {
        PeekTakes(Rest(), "|");
        var _, _, _ := NextToken();
        r := PipeLine();
        if r.Built? { r := Built(Pipe(left, r.cmd)); }
      }
    }

    /** parseblock (sh.c:399-413) */
    method BlockCmd() returns (r: Outcome)
      requires Valid() && Peek(Rest(), "(")
      modifies this
      ensures Valid() && ps >= old(ps) && Agrees(ParseBlock(old(Rest())), r, Rest())
      decreases |s| - ps, 1
    {
      hide Skip, GetToken, ParseLine, ParseRedirs;
      PeekTakes(Rest(), "(");
      var _, _, _ := NextToken();
      r := Line();
      if r.Panic? { return; }
      var cmd := r.cmd;
      SkipFirst(Rest());
      var close := PeekAt(")");
      if !close { return Panic(MissingParen); }
      var _, _, _ := NextToken();
      var files, error := Redirs([]);
      if error { return Panic(MissingFile); }
      return Built(Wrapped(cmd, files));
    }

    /** parseexec (sh.c:415-446) */
    method ExecCmd() returns (r: Outcome)
      requires Valid()
      modifies this
      ensures Valid() && ps >= old(ps) && Agrees(ParseExec(old(Rest())), r, Rest())
      decreases |s| - ps, 2
    {
      hide Skip, GetToken, ParseBlock, ParseRedirs, ParseArgs;
      ghost var before := Rest();
      SkipFirst(before);
      var open := PeekAt("(");
      if open {
        SkipBlock(before);
        r := BlockCmd();
        return;
      }
      SkipRedirs(before, []);
      var files, error := Redirs([]);
      if error { return Panic(MissingFile); }
      r := Args(files);
    }

    /** The loop of parseexec (sh.c:431-445). */
    method Args(first: seq<File>) returns (r: Outcome)
      requires Valid()
      modifies this
      ensures Valid() && ps >= old(ps) && Agrees(ParseArgs(old(Rest()), [], first), r, Rest())
    {
      hide Skip, GetToken, ParseRedirs, Wrapped;
      var argv, files := [], first;
      SkipArgs(Rest(), argv, files);
      SkipFirst(Rest());
      var end := PeekAt("|)&;");
      while !end
        invariant Valid() && ps >= old(ps) && end == Peek(Rest(), "|)&;") && Skip(Rest()) == Rest()
        invariant ParseArgs(Rest(), argv, files) == ParseArgs(old(Rest()), [], first)
        decreases |s| - ps, !end
      {
        AtEnd(Rest());
        var kind, q, eq := NextToken();
        if kind == '\0' { return Built(Wrapped(Exec(argv), files)); }
        if kind != 'a' { return Panic(Syntax); }
        argv := argv + [s[q..eq]];
        if |argv| >= MAXARGS { return Panic(TooManyArgs); }
        var all, error := Redirs(files);
        if error { return Panic(MissingFile); }
        files := all;
        SkipArgs(Rest(), argv, files);
        SkipFirst(Rest());
        end := PeekAt("|)&;");
      }
      return Built(Wrapped(Exec(argv), files));
    }

    /** parsecmd's checks (sh.c:334-339) */
    method Command() returns (r: Outcome)
      requires Valid()
      modifies this
      ensures Valid() && r == ResultOf(ParseCmd(old(Rest())))
    {
      hide ParseLine, Skip, Peek;
      r := Line();
      if r.Panic? { return; }
      var _ := PeekAt([]);
      if ps != |s| { return Panic(Leftovers); }
    }
  }

  function ResultOf(p: Parsed): Outcome {
    match p
    case Parsed(c, _) => Built(c)
    case Fail(e) => Panic(e)
  }

  /** parsecmd (sh.c:327-342) */
  method Parse(s: CString) returns (r: Outcome)
    ensures r == ResultOf(ParseCmd(s))
    ensures r.Built? ==> ShellProofs.Plain(r.cmd)
  {
    hide ParseLine, Skip, ShellProofs.Plain;
    var parser := new Parser(s);
    ShellProofs.LinePlain(s);
    r := parser.Command();
  }

  /** Peeking moves the cursor past spaces only. */
  lemma SkipFirst(s: string)
    ensures Skip(Skip(s)) == Skip(s) && GetToken(Skip(s)) == GetToken(s)
  {
  }

  lemma SkipRedirs(s: string, files: seq<File>)
    ensures ParseRedirs(Skip(s), files) == ParseRedirs(s, files)
  {
    hide Skip, GetToken;
    SkipFirst(s);
  }

  lemma SkipBacks(c: Cmd, s: string)
    ensures ParseBacks(c, Skip(s)) == ParseBacks(c, s)
  {
    hide Skip, GetToken;
    SkipFirst(s);
  }

  lemma SkipArgs(s: string, argv: seq<string>, files: seq<File>)
    ensures ParseArgs(Skip(s), argv, files) == ParseArgs(s, argv, files)
  {
    hide Skip, GetToken, ParseRedirs;
    SkipFirst(s);
  }

  lemma SkipBlock(s: string)
    requires Peek(s, "(")
    ensures Peek(Skip(s), "(") && ParseBlock(Skip(s)) == ParseBlock(s)
  {
    hide Skip, GetToken, ParseRedirs, ParseLine;
    SkipFirst(s);
  }

  lemma PeekTakes(s: string, toks: string)
    requires Peek(s, toks)
    ensures |GetToken(s).rest| < |s|
  {
  }

  lemma AtEnd(s: string)
    requires '\0' !in s
    ensures GetToken(s).kind == '\0' <==> Skip(s) == []
    ensures Skip(s) == [] ==> GetToken(s).rest == []
    ensures Skip(s) != [] ==> |GetToken(s).rest| < |s|
  {
  }
}
