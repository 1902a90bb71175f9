/** The parser of src/sh.c as it runs: routines that move a shared cursor over the line. */
module ShellCursor {
  import opened Params
  import P = ShellParser
  import opened ShellWords

  class Parser {
    const buf: string
    var s: nat

    constructor (line: string)
      ensures buf == line && s == 0 && Valid()
    {
      buf, s := line, 0;
    }

    ghost predicate Valid()
      reads this
    {
      s <= |buf|
    }

    /** The text from the cursor on. */
    function Rest(): string
      requires Valid()
      reads this
    {
      buf[s..]
    }

    /** The character under the cursor; the terminator at the end. */
    function Here(): char
      requires Valid()
      reads this
    {
      if s < |buf| then buf[s] else '\0'
    }

    method SkipSpace()
      requires Valid()
      modifies this
      ensures Valid() && s >= old(s) && Rest() == P.Skip(old(Rest()))
    {
      while s < |buf| && P.IsSpace(buf[s])
        invariant old(s) <= s <= |buf| && P.Skip(Rest()) == P.Skip(old(Rest()))
      {
        assert Rest()[1..] == buf[s + 1..];
        s := s + 1;
      }
    }

    method Peek(toks: string) returns (yes: bool)
      requires Valid()
      modifies this
      ensures Valid() && s >= old(s) && Rest() == P.Skip(old(Rest()))
      ensures yes <==> Rest() != "" && Rest()[0] != '\0' && Rest()[0] in toks
    {
      SkipSpace();
      yes := Here() != '\0' && Here() in toks;
    }

    /** The word run in gettoken's default case. */
    method SkipWord()
      requires Valid()
      modifies this
      ensures Valid() && s == old(s) + P.WordLength(old(Rest()))
    {
      ghost var n := P.WordLength(Rest());
      while s < |buf| && !P.IsSpace(buf[s]) && !P.IsSymbol(buf[s])
        invariant old(s) <= s <= |buf| && s + P.WordLength(Rest()) == old(s) + n
      {
        assert Rest()[1..] == buf[s + 1..];
        s := s + 1;
      }
    }

    /** gettoken's switch, the cursor being on the first character of the token. */
    method TakeToken() returns (kind: char)
      requires Valid()
      modifies this
      ensures Valid() && kind == P.Kind(old(Rest())) && s == old(s) + P.Length(old(Rest()))
    {
      kind := Here();
      if kind == '\0' {
      } else if kind == '>' {
        s := s + 1;
        if Here() == '>' {
          kind := '+';
          s := s + 1;
        }
      } else if P.IsSymbol(kind) {
        s := s + 1;
      } else {
        kind := 'a';
        SkipWord();
      }
    }

    /** gettoken: the kind of token, and where it begins and ends. */
    method GetToken() returns (kind: char, word: P.Word)
      requires Valid()
      modifies this
      ensures Valid() && s >= old(s)
      ensures var t := P.GetToken(old(Rest())); kind == t.kind && word == t.word && Rest() == t.rest
    {
      hide P.Skip, P.Kind, P.Length;
      SkipSpace();
      var q := s;
      ghost var u := Rest();
      kind := TakeToken();
      word := P.Word(buf[q..s], |buf| - q);
      assert buf[q..s] == u[..s - q] && buf[s..] == u[s - q..];
      SkipSpace();
    }

    /** parseredirs: the redirections found, None when a file name is missing. */
    method ParseRedirs() returns (r: Option<seq<P.Redirection>>)
      requires Valid()
      modifies this
      ensures Valid() && s >= old(s)
      ensures var d := P.ParseRedirs(old(Rest()));
        if d.Missing? then r.None? else r == Some(d.list) && Rest() == d.rest
    {
      hide P.Skip, P.GetToken, P.ParseRedirs;
      var list: seq<P.Redirection> := [];
      ghost var start := Rest();
      var yes := Peek("<>");
      RedirsSkip(start);
      PrependNone(P.ParseRedirs(start));
      while yes
        invariant Valid() && s >= old(s) && Rest() == P.Skip(Rest())
        invariant yes <==> Rest() != "" && (Rest()[0] == '<' || Rest()[0] == '>')
        invariant P.ParseRedirs(start) == Prepend(list, P.ParseRedirs(Rest()))
        decreases |buf| - s
      {
        RedirsStep(Rest());
        var kind, _ := GetToken();
        var kind2, file := GetToken();
        if kind2 != 'a' { return None; }
        RedirsSkip(Rest());
        PrependMore(list, P.Redirection(file, kind != '<'), P.ParseRedirs(Rest()));
        list := list + [P.Redirection(file, kind != '<')];
        yes := Peek("<>");
      }
      RedirsEnd(Rest());
      assert list + [] == list;
      r := Some(list);
    }

    /** parseexec: a block, or arguments and redirections up to a separator.  None is a
        panic. */
    method ParseExec() returns (r: Option<P.Cmd>)
      requires Valid()
      modifies this
      ensures Valid() && s >= old(s) && Agrees(r, Rest(), P.ParseExec(old(Rest())))
      decreases |buf| - s, 1
    {
      hide P.Skip, P.GetToken, P.ParseRedirs, P.ExecLoop;
      ghost var start := Rest();
      SkipAgain(start);
      var block := Peek("(");
      if block {
        r := ParseBlock();
        return;
      }
      var d := ParseRedirs();
      if d.None? { return None; }
      r := ParseArgs(d.value);
    }

    /** The loop of parseexec. */
    method ParseArgs(found: seq<P.Redirection>) returns (r: Option<P.Cmd>)
      requires Valid()
      modifies this
      ensures Valid() && s >= old(s) && Agrees(r, Rest(), P.ExecLoop([], found, old(Rest())))
    {
      hide P.Skip, P.GetToken, P.ParseRedirs, P.ExecLoop;
      ghost var start := Rest();
      var args: seq<P.Word>, list := [], found;
      LoopSkip(args, list, start);
      var stop := Peek("|)&;");
      while !stop
        invariant Valid() && s >= old(s) && P.Skip(Rest()) == Rest() && (stop <==> Stops(Rest()))
        invariant P.ExecLoop([], found, start) == P.ExecLoop(args, list, Rest())
        decreases |buf| - s
      {
        LoopStep(args, list, Rest());
        var tok, word := GetToken();
        if tok == '\0' { return Some(P.Wrap(P.Exec(args), list)); }
        if tok != 'a' { return None; }
        if |args| + 1 >= P.MAXARGS { return None; }
        var d := ParseRedirs();
        if d.None? { return None; }
        args, list := args + [word], list + d.value;
        LoopSkip(args, list, Rest());
        stop := Peek("|)&;");
      }
      LoopEnd(args, list, Rest());
      r := Some(P.Wrap(P.Exec(args), list));
    }

    /** parseblock: a line in parentheses and its redirections. */
    method ParseBlock() returns (r: Option<P.Cmd>)
      requires Valid() && P.Skip(Rest()) == Rest() && Rest() != "" && Rest()[0] == '('
      modifies this
      ensures Valid() && s >= old(s) && P.Peek(old(Rest()), '(') && Agrees(r, Rest(), P.ParseBlock(old(Rest())))
      decreases |buf| - s, 0
    {
      hide P.Skip, P.GetToken, P.ParseRedirs, P.ParseLine;
      PeekConsumes(Rest(), '(');
      var _, _ := GetToken();
      var body := ParseLine();
      if body.None? { return None; }
      SkipAgain(Rest());
      var close := Peek(")");
      if !close { return None; }
      var _, _ := GetToken();
      var d := ParseRedirs();
      if d.None? { return None; }
      r := Some(P.Wrap(body.value, d.value));
    }

    method ParseLine() returns (r: Option<P.Cmd>)
      requires Valid()
      modifies this
      ensures Valid() && s >= old(s) && Agrees(r, Rest(), P.ParseLine(old(Rest())))
      decreases |buf| - s, 4
    {
      hide P.Skip, P.GetToken, P.ParsePipe, P.LineLoop;
      r := ParsePipe();
      if r.None? { return; }
      ghost var start, first := Rest(), r.value;
      var cmd := r.value;
      SkipAgain(Rest());
      LineSkip(cmd, Rest());
      var amp := Peek("&");
      while amp
        invariant Valid() && s >= old(s) && P.Skip(Rest()) == Rest() && (amp <==> Rest() != "" && Rest()[0] == '&')
        invariant P.LineLoop(first, start) == P.LineLoop(cmd, Rest())
        decreases |buf| - s
      {
        PeekConsumes(Rest(), '&');
        LineBack(cmd, Rest());
        var _, _ := GetToken();
        cmd := P.Back(cmd);
        LineSkip(cmd, Rest());
        amp := Peek("&");
      }
      var semi := Peek(";");
      LineRest(cmd, Rest());
      if semi {
        PeekConsumes(Rest(), ';');
        var _, _ := GetToken();
        var q := ParseLine();
        return if q.None? then None else Some(P.List(cmd, q.value));
      }
      r := Some(cmd);
    }

    method ParsePipe() returns (r: Option<P.Cmd>)
      requires Valid()
      modifies this
      ensures Valid() && s >= old(s) && Agrees(r, Rest(), P.ParsePipe(old(Rest())))
      decreases |buf| - s, 2
    {
      hide P.Skip, P.GetToken, P.ParseExec;
      ghost var start := Rest();
      PipeUnfold(start);
      ExecRest(start);
      r := ParseExec();
      if r.None? { return; }
      SkipAgain(Rest());
      var bar := Peek("|");
      if bar {
        PeekConsumes(Rest(), '|');
        var left := r.value;
        var _, _ := GetToken();
        r := ParsePipe();
        if r.Some? { r := Some(P.Pipe(left, r.value)); }
      }
    }
  }

  /** parsecmd on a C string: the tree the parser on values gives, and the buffer with every
      word of it terminated; None for a panic, with the buffer untouched. */
  method ParseCmd(buf: array<char>, line: string) returns (r: Option<P.Cmd>)
    requires CString(line) && buf[..] == line + ['\0']
    modifies buf
    ensures var d := P.ParseCmd(line); if d.Panic? then r.None? else r == Some(d.cmd)
    ensures r.None? ==> buf[..] == old(buf[..])
    ensures r.Some? ==> Terminated(old(buf[..]), buf[..], Ends(line, r.value))
  {
    var p := new Parser(line);
    assert p.Rest() == line;
    r := p.ParseLine();
    if r.None? { return; }
    var _ := p.Peek("");
    if p.s != |line| {
      assert p.Rest() != "";
      return None;
    }
    assert p.Rest() == "";
    LinePlaced(line);
    Nulterminate(buf, line, r.value);
  }

  /** What a routine returns and leaves agrees with the parser on values. */
  ghost predicate Agrees(r: Option<P.Cmd>, rest: string, d: P.Result) {
    if d.Panic? then r.None? else r == Some(d.cmd) && rest == d.rest
  }

  predicate Stops(s: string) {
    s != "" && (s[0] == '|' || s[0] == ')' || s[0] == '&' || s[0] == ';')
  }

  /** White space in front makes no difference. */
  lemma SkipAgain(s: string)
    ensures P.Skip(P.Skip(s)) == P.Skip(s) && P.GetToken(P.Skip(s)) == P.GetToken(s)
    ensures forall c :: P.Peek(P.Skip(s), c) <==> P.Peek(s, c)
    ensures P.ParseRedirs(P.Skip(s)) == P.ParseRedirs(s)
  {
    SkipTwice(s);
  }

  lemma LoopSkip(args: seq<P.Word>, list: seq<P.Redirection>, s: string)
    ensures P.ExecLoop(args, list, P.Skip(s)) == P.ExecLoop(args, list, s) && P.Skip(P.Skip(s)) == P.Skip(s)
  {
    SkipAgain(s);
  }

  lemma LoopStep(args: seq<P.Word>, list: seq<P.Redirection>, s: string)
    requires P.Skip(s) == s && !Stops(s)
    ensures var t := P.GetToken(s);
      var d := P.ParseRedirs(t.rest);
      && (t.kind == '\0' ==> P.ExecLoop(args, list, s) == P.Ok(P.Wrap(P.Exec(args), list), t.rest))
      && (t.kind != '\0' && (t.kind != 'a' || |args| + 1 >= P.MAXARGS) ==> P.ExecLoop(args, list, s) == P.Panic)
      && (t.kind == 'a' ==> |t.rest| < |s|)
      && (t.kind == 'a' && |args| + 1 < P.MAXARGS ==>
            P.ExecLoop(args, list, s) == if d.Missing? then P.Panic else P.ExecLoop(args + [t.word], list + d.list, d.rest))
  {
  }

  lemma LoopEnd(args: seq<P.Word>, list: seq<P.Redirection>, s: string)
    requires P.Skip(s) == s && Stops(s)
    ensures P.ExecLoop(args, list, s) == P.Ok(P.Wrap(P.Exec(args), list), s)
  {
  }

  lemma LineSkip(cmd: P.Cmd, s: string)
    ensures P.LineLoop(cmd, P.Skip(s)) == P.LineLoop(cmd, s) && P.Skip(P.Skip(s)) == P.Skip(s)
  {
    SkipAgain(s);
  }

  lemma LineBack(cmd: P.Cmd, s: string)
    requires P.Skip(s) == s && s != "" && s[0] == '&'
    ensures P.LineLoop(cmd, s) == P.LineLoop(P.Back(cmd), P.GetToken(s).rest)
  {
  }

  lemma LineRest(cmd: P.Cmd, s: string)
    requires P.Skip(s) == s && !(s != "" && s[0] == '&')
    ensures s != "" && s[0] == ';' ==>
      var q := P.ParseLine(P.GetToken(s).rest);
      P.LineLoop(cmd, s) == if q.Panic? then P.Panic else P.Ok(P.List(cmd, q.cmd), q.rest)
    ensures !(s != "" && s[0] == ';') ==> P.LineLoop(cmd, s) == P.Ok(cmd, s)
  {
  }

  lemma {:induction false} RedirsRest(s: string)
    ensures var d := P.ParseRedirs(s); d.Found? ==> P.Skip(d.rest) == d.rest
    decreases |s|
  {
    SkipTwice(s);
    if P.Peek(s, '<') || P.Peek(s, '>') {
      var f := P.GetToken(P.GetToken(s).rest);
      if f.kind == 'a' { RedirsRest(f.rest); }
    }
  }

  lemma {:induction false} LoopRest(args: seq<P.Word>, list: seq<P.Redirection>, s: string)
    ensures var r := P.ExecLoop(args, list, s); r.Ok? ==> P.Skip(r.rest) == r.rest
    decreases |s|
  {
    SkipTwice(s);
    TokenRestSkipped(s);
    var t := P.GetToken(s);
    if !P.AtStop(s) && t.kind == 'a' && |args| + 1 < P.MAXARGS {
      var d := P.ParseRedirs(t.rest);
      if d.Found? { LoopRest(args + [t.word], list + d.list, d.rest); }
    }
  }

  lemma TokenRestSkipped(s: string)
    ensures P.Skip(P.GetToken(s).rest) == P.GetToken(s).rest
  {
    var u := P.Skip(s);
    SkipTwice(u[P.Length(u)..]);
  }

  /** parseexec has always skipped the white space behind it. */
  lemma ExecRest(s: string)
    ensures var r := P.ParseExec(s); r.Ok? ==> P.Skip(r.rest) == r.rest
  {
    if P.Peek(s, '(') {
      var r := P.ParseLine(P.GetToken(s).rest);
      if r.Ok? && P.Peek(r.rest, ')') { RedirsRest(P.GetToken(r.rest).rest); }
    } else {
      var d := P.ParseRedirs(s);
      if d.Found? { LoopRest([], d.list, d.rest); }
    }
  }

  lemma PipeUnfold(s: string)
    ensures var r := P.ParseExec(s);
      P.ParsePipe(s) == if r.Panic? || !P.Peek(r.rest, '|') then r
                        else var q := P.ParsePipe(P.GetToken(r.rest).rest);
                             if q.Panic? then P.Panic else P.Ok(P.Pipe(r.cmd, q.cmd), q.rest)
  {
  }

  /** d with list in front. */
  function Prepend(list: seq<P.Redirection>, d: P.Redirs): P.Redirs {
    if d.Missing? then d else P.Found(list + d.list, d.rest)
  }

  lemma PrependNone(d: P.Redirs)
    ensures Prepend([], d) == d
  {
    if d.Found? { assert [] + d.list == d.list; }
  }

  lemma PrependMore(list: seq<P.Redirection>, x: P.Redirection, d: P.Redirs)
    ensures Prepend(list + [x], d) == Prepend(list, Prepend([x], d))
  {
    if d.Found? { assert list + [x] + d.list == list + ([x] + d.list); }
  }

  lemma SkipTwice(s: string)
    ensures P.Skip(P.Skip(s)) == P.Skip(s)
  {
  }

  lemma RedirsSkip(s: string)
    ensures P.ParseRedirs(P.Skip(s)) == P.ParseRedirs(s) && P.Skip(P.Skip(s)) == P.Skip(s)
  {
    SkipTwice(s);
  }

  lemma RedirsStep(s: string)
    requires P.Skip(s) == s && s != "" && (s[0] == '<' || s[0] == '>')
    ensures var t := P.GetToken(s);
      var f := P.GetToken(t.rest);
      && |f.rest| < |s|
      && P.ParseRedirs(s) == if f.kind != 'a' then P.Missing
                             else Prepend([P.Redirection(f.word, t.kind != '<')], P.ParseRedirs(f.rest))
  {
    assert P.Kind(s) != '\0';
  }

  lemma RedirsEnd(s: string)
    requires P.Skip(s) == s && !(s != "" && (s[0] == '<' || s[0] == '>'))
    ensures P.ParseRedirs(s) == P.Found([], s)
  {
  }
}
