/** Printing a command tree, with parentheses only where they are needed, and parsing the
    text gives the tree back. */
module ShellRoundTrip {
  import opened ShellParser

  // ------------------------------------------------------------------------------ trees

  predicate IsWord(w: Word) {
    w.at == 0 && w.text != "" && forall i :: 0 <= i < |w.text| ==> IsWordChar(w.text[i])
  }

  /** What the parser can be asked for: proper words, at most nine arguments. */
  predicate Plain(c: Cmd) {
    match c
    case Exec(args) => |args| < MAXARGS && forall i :: 0 <= i < |args| ==> IsWord(args[i])
    case Redir(d, file, _) => Plain(d) && IsWord(file)
    case Pipe(l, r) => Plain(l) && Plain(r)
    case List(l, r) => Plain(l) && Plain(r)
    case Back(d) => Plain(d)
  }

  function StripWord(w: Word): Word {
    w.(at := 0)
  }

  function StripWords(ws: seq<Word>): (r: seq<Word>)
    ensures |r| == |ws| && forall i :: 0 <= i < |ws| ==> r[i] == StripWord(ws[i])
  {
    seq(|ws|, i requires 0 <= i < |ws| => StripWord(ws[i]))
  }

  /** The tree without the places of its words. */
  function Strip(c: Cmd): Cmd {
    match c
    case Exec(args) => Exec(StripWords(args))
    case Redir(d, file, out) => Redir(Strip(d), StripWord(file), out)
    case Pipe(l, r) => Pipe(Strip(l), Strip(r))
    case List(l, r) => List(Strip(l), Strip(r))
    case Back(d) => Back(Strip(d))
  }

  /** The command under the redirections. */
  function Core(c: Cmd): (r: Cmd)
    ensures !r.Redir? && (c.Redir? ==> r < c) && (!c.Redir? ==> r == c)
  {
    if c.Redir? then Core(c.cmd) else c
  }

  function RedirList(c: Cmd): seq<Redirection> {
    if c.Redir? then RedirList(c.cmd) + [Redirection(c.file, c.out)] else []
  }

  lemma {:induction false} WrapCore(c: Cmd)
    ensures Wrap(Core(c), RedirList(c)) == c
  {
    if c.Redir? {
      WrapCore(c.cmd);
      var list := RedirList(c);
      assert list[..|list| - 1] == RedirList(c.cmd);
    }
  }

  predicate PlainList(list: seq<Redirection>) {
    forall i :: 0 <= i < |list| ==> IsWord(list[i].file)
  }

  lemma {:induction false} PlainCore(c: Cmd)
    requires Plain(c)
    ensures Plain(Core(c)) && PlainList(RedirList(c))
  {
    if c.Redir? { PlainCore(c.cmd); }
  }

  function StripList(list: seq<Redirection>): (r: seq<Redirection>)
    ensures |r| == |list| && forall i :: 0 <= i < |list| ==> r[i] == Redirection(StripWord(list[i].file), list[i].out)
  {
    seq(|list|, i requires 0 <= i < |list| => Redirection(StripWord(list[i].file), list[i].out))
  }

  lemma {:induction false} StripWrap(c: Cmd, list: seq<Redirection>)
    ensures Strip(Wrap(c, list)) == Wrap(Strip(c), StripList(list))
    decreases |list|
  {
    if list != [] {
      var n := |list| - 1;
      StripWrap(c, list[..n]);
      assert StripList(list)[..n] == StripList(list[..n]);
    }
  }

  // --------------------------------------------------------------------------- printer

  function PrintArgs(args: seq<Word>): string {
    if args == [] then "" else args[0].text + (" " + PrintArgs(args[1..]))
  }

  function PrintRedirs(list: seq<Redirection>): string {
    if list == [] then ""
    else [if list[0].out then '>' else '<'] + (list[0].file.text + (" " + PrintRedirs(list[1..])))
  }

  function PrintExec(c: Cmd): string
    decreases c, 5
  {
    var core := Core(c);
    (if core.Exec? then PrintArgs(core.args) else "( " + (PrintLine(core) + ") ")) + PrintRedirs(RedirList(c))
  }

  function PrintPipe(c: Cmd): string
    decreases c, if c.Pipe? then 1 else 6
  {
    if c.Pipe? then PrintExec(c.left) + ("| " + PrintPipe(c.right)) else PrintExec(c)
  }

  function PrintBack(c: Cmd): string
    decreases c, if c.Pipe? || c.Back? then 3 else 7
  {
    if c.Back? then PrintBack(c.cmd) + "& " else PrintPipe(c)
  }

  function PrintLine(c: Cmd): string
    decreases c, if c.Pipe? || c.Back? || c.List? then 4 else 8
  {
    if c.List? then PrintBack(c.left) + ("; " + PrintLine(c.right)) else PrintBack(c)
  }

  // ---------------------------------------------------------------------------- tokens

  predicate NoLead(s: string) {
    s == "" || !IsSpace(s[0])
  }

  predicate Starts(s: string, c: char) {
    s != "" && s[0] == c
  }

  lemma SkipNothing(s: string)
    requires NoLead(s)
    ensures Skip(s) == s && Skip(" " + s) == s
  {
    assert (" " + s)[1..] == s;
  }

  lemma {:induction false} WordEnds(text: string, rest: string)
    requires forall i :: 0 <= i < |text| ==> IsWordChar(text[i])
    ensures WordLength(text + (" " + rest)) == |text|
  {
    var s := text + (" " + rest);
    if text != "" {
      assert s[0] == text[0] && s[1..] == text[1..] + (" " + rest);
      WordEnds(text[1..], rest);
    }
  }

  lemma WordToken(w: Word, rest: string)
    requires IsWord(w) && NoLead(rest)
    ensures var s := w.text + (" " + rest);
      && NoLead(s) && Skip(s) == s && s != "" && IsWordChar(s[0])
      && GetToken(s) == Token('a', Word(w.text, |s|), rest)
  {
    var s := w.text + (" " + rest);
    assert s[0] == w.text[0];
    SkipNothing(s);
    SkipNothing(rest);
    WordEnds(w.text, rest);
    assert s[..|w.text|] == w.text && s[|w.text|..] == " " + rest;
  }

  /** A one-character symbol; '>' only when no second one follows. */
  lemma SymbolToken(c: char, rest: string)
    requires IsSymbol(c) && (c == '>' ==> !Starts(rest, '>'))
    ensures var s := [c] + rest; Skip(s) == s && GetToken(s).kind == c && GetToken(s).rest == Skip(rest)
  {
    var s := [c] + rest;
    SkipNothing(s);
    assert s[1..] == rest;
  }

  // ------------------------------------------------------------------- words and redirs

  predicate NoRedir(s: string) {
    NoLead(s) && !Starts(s, '<') && !Starts(s, '>')
  }

  lemma PeekAt(s: string, c: char)
    requires NoLead(s)
    ensures Peek(s, c) <==> Starts(s, c)
  {
    SkipNothing(s);
  }

  lemma RedirsNone(rest: string)
    requires NoRedir(rest)
    ensures ParseRedirs(rest) == Found([], rest)
  {
    SkipNothing(rest);
  }

  lemma RedirsStep(out: bool, file: Word, tail: string, more: seq<Redirection>, rest: string)
    requires IsWord(file) && NoLead(tail) && ParseRedirs(tail) == Found(more, rest)
    ensures var name := file.text + (" " + tail);
      var s := [if out then '>' else '<'] + name;
      NoLead(s) && ParseRedirs(s) == Found([Redirection(Word(file.text, |name|), out)] + more, rest)
  {
    var c, name := if out then '>' else '<', file.text + (" " + tail);
    WordToken(file, tail);
    SymbolToken(c, name);
    PeekAt([c] + name, c);
    hide Skip, GetToken;
  }

  lemma {:induction false} RedirsRound(list: seq<Redirection>, rest: string) returns (found: seq<Redirection>)
    requires PlainList(list) && NoRedir(rest)
    ensures ParseRedirs(PrintRedirs(list) + rest) == Found(found, rest) && StripList(found) == list
    ensures NoLead(PrintRedirs(list) + rest)
    decreases |list|
  {
    hide ParseRedirs, StripList;
    if list == [] {
      assert PrintRedirs(list) + rest == rest;
      RedirsNone(rest);
      found := [];
    } else {
      var file := list[0].file;
      var more := RedirsRound(list[1..], rest);
      var tail := PrintRedirs(list[1..]) + rest;
      RedirsStep(list[0].out, file, tail, more, rest);
      RedirText(list, rest);
      found := [Redirection(Word(file.text, |file.text + (" " + tail)|), list[0].out)] + more;
      StripCons(list, Word(file.text, |file.text + (" " + tail)|), more);
    }
  }

  lemma StripCons(list: seq<Redirection>, w: Word, more: seq<Redirection>)
    requires list != [] && StripList(more) == list[1..] && StripWord(w) == list[0].file
    ensures StripList([Redirection(w, list[0].out)] + more) == list
  {
    var found := [Redirection(w, list[0].out)] + more;
    forall i | 0 <= i < |list| ensures StripList(found)[i] == list[i] {
      if i > 0 { assert list[i] == list[1..][i - 1] && StripList(more)[i - 1] == list[i]; }
    }
  }

  lemma RedirText(list: seq<Redirection>, rest: string)
    requires list != []
    ensures PrintRedirs(list) + rest
      == [if list[0].out then '>' else '<'] + (list[0].file.text + (" " + (PrintRedirs(list[1..]) + rest)))
  {
    Assoc([if list[0].out then '>' else '<'], list[0].file.text + (" " + PrintRedirs(list[1..])), rest);
    Assoc(list[0].file.text, " " + PrintRedirs(list[1..]), rest);
    Assoc(" ", PrintRedirs(list[1..]), rest);
  }

  lemma Assoc(a: string, b: string, c: string)
    ensures a + b + c == a + (b + c)
  {
  }

  // -------------------------------------------------------------------- simple commands

  /** What may follow a simple command or a block. */
  predicate ExecFollow(s: string) {
    s == "" || s[0] == '|' || s[0] == ')' || s[0] == '&' || s[0] == ';'
  }

  lemma ExecStop(args: seq<Word>, list: seq<Redirection>, rest: string)
    requires ExecFollow(rest)
    ensures ExecLoop(args, list, rest) == Ok(Wrap(Exec(args), list), rest)
  {
    SkipNothing(rest);
    hide Wrap;
  }

  lemma ExecStep(args: seq<Word>, list: seq<Redirection>, w: Word, tail: string, more: seq<Redirection>, rest: string)
    requires IsWord(w) && |args| + 1 < MAXARGS && NoLead(tail) && ParseRedirs(tail) == Found(more, rest)
    ensures var s := w.text + (" " + tail);
      ExecLoop(args, list, s) == ExecLoop(args + [Word(w.text, |s|)], list + more, rest)
  {
    WordToken(w, tail);
    hide Skip, GetToken, Wrap;
  }

  lemma ArgText(args: seq<Word>, tail: string)
    requires args != []
    ensures PrintArgs(args) + tail == args[0].text + (" " + (PrintArgs(args[1..]) + tail))
  {
    Assoc(args[0].text, " " + PrintArgs(args[1..]), tail);
    Assoc(" ", PrintArgs(args[1..]), tail);
  }

  /** Text that begins with a word. */
  lemma ArgsLead(args: seq<Word>, tail: string)
    requires args != [] && IsWord(args[0])
    ensures var s := PrintArgs(args) + tail; s != "" && IsWordChar(s[0]) && NoRedir(s) && !Starts(s, '(')
  {
    ArgText(args, tail);
    assert (PrintArgs(args) + tail)[0] == args[0].text[0];
  }

  lemma {:induction false} ArgsRound(done: seq<Word>, args: seq<Word>, list: seq<Redirection>, rest: string)
    returns (words: seq<Word>, found: seq<Redirection>)
    requires args != [] && |done| + |args| < MAXARGS && PlainList(list) && ExecFollow(rest)
    requires forall i :: 0 <= i < |args| ==> IsWord(args[i])
    ensures ExecLoop(done, [], PrintArgs(args) + (PrintRedirs(list) + rest)) == Ok(Wrap(Exec(done + words), found), rest)
    ensures StripWords(words) == args && StripList(found) == list
    decreases |args|
  {
    hide ExecLoop, ParseRedirs, Wrap, PrintArgs;
    var after := PrintRedirs(list) + rest;
    var s := PrintArgs(args) + after;
    ArgText(args, after);
    var w := Word(args[0].text, |s|);
    var tail := PrintArgs(args[1..]) + after;
    if |args| == 1 {
      PrintNoArgs(args[1..], after);
      found := RedirsRound(list, rest);
      ExecStep(done, [], args[0], after, found, rest);
      assert [] + found == found;
      ExecStop(done + [w], found, rest);
      words := [w];
    } else {
      ArgsLead(args[1..], after);
      RedirsNone(tail);
      var none: seq<Redirection> := [];
      ExecStep(done, none, args[0], tail, none, tail);
      assert none + none == none;
      var more;
      more, found := ArgsRound(done + [w], args[1..], list, rest);
      words := [w] + more;
      assert done + [w] + more == done + words;
    }
    assert StripWords(words) == [args[0]] + args[1..];
  }

  lemma PrintNoArgs(args: seq<Word>, tail: string)
    requires args == []
    ensures PrintArgs(args) + tail == tail
  {
  }

  /** A simple command with its redirections. */
  lemma SimpleRound(c: Cmd, rest: string) returns (r: Cmd)
    requires Plain(c) && Core(c).Exec? && ExecFollow(rest)
    ensures ParseExec(PrintExec(c) + rest) == Ok(r, rest) && Strip(r) == c
  {
    PlainCore(c);
    WrapCore(c);
    var args, list := Core(c).args, RedirList(c);
    var after := PrintRedirs(list) + rest;
    Assoc(PrintArgs(args), PrintRedirs(list), rest);
    hide ExecLoop, ParseRedirs, Wrap, PrintArgs, PrintRedirs;
    if args == [] {
      PrintNoArgs(args, after);
      var found := RedirsRound(list, rest);
      RedirsLead(list, rest);
      PeekAt(after, '(');
      ExecStop([], found, rest);
      r := Wrap(Exec([]), found);
      StripWrap(Exec([]), found);
    } else {
      ArgsLead(args, after);
      var s := PrintArgs(args) + after;
      PeekAt(s, '(');
      RedirsNone(s);
      var words, found := ArgsRound([], args, list, rest);
      assert [] + words == words;
      r := Wrap(Exec(words), found);
      StripWrap(Exec(words), found);
    }
  }

  lemma RedirsLead(list: seq<Redirection>, rest: string)
    requires ExecFollow(rest)
    ensures NoLead(PrintRedirs(list) + rest) && !Starts(PrintRedirs(list) + rest, '(')
  {
    if list != [] { RedirText(list, rest); }
  }

  // ------------------------------------------------------------------ what printing starts with

  lemma LeadJoin(a: string, b: string)
    requires NoLead(a) && NoLead(b)
    ensures NoLead(a + b)
  {
    if a != "" { assert (a + b)[0] == a[0]; } else { assert a + b == b; }
  }

  lemma SimpleLead(c: Cmd)
    requires Plain(c) && Core(c).Exec?
    ensures NoLead(PrintExec(c))
  {
    PlainCore(c);
    var args, list := Core(c).args, RedirList(c);
    if args != [] { ArgsLead(args, PrintRedirs(list)); }
    else {
      RedirsLead(list, "");
      assert PrintRedirs(list) + "" == PrintRedirs(list) && PrintArgs(args) + PrintRedirs(list) == PrintRedirs(list);
    }
  }

  lemma {:induction false} PipeLead(c: Cmd)
    requires Plain(c)
    ensures NoLead(PrintPipe(c)) && NoLead(PrintExec(c))
    decreases c
  {
    if Core(c).Exec? { SimpleLead(c); }
    else { assert PrintExec(c)[0] == '('; }
    if c.Pipe? {
      PipeLead(c.left);
      LeadJoin(PrintExec(c.left), "| " + PrintPipe(c.right));
    }
  }

  lemma {:induction false} BackLead(c: Cmd)
    requires Plain(c)
    ensures NoLead(PrintBack(c))
    decreases c
  {
    if c.Back? {
      BackLead(c.cmd);
      LeadJoin(PrintBack(c.cmd), "& ");
    } else {
      PipeLead(c);
    }
  }

  lemma LineLead(c: Cmd)
    requires Plain(c)
    ensures NoLead(PrintLine(c))
  {
    if c.List? {
      BackLead(c.left);
      LeadJoin(PrintBack(c.left), "; " + PrintLine(c.right));
    } else {
      BackLead(c);
    }
  }

  // ------------------------------------------------------------------------ round trips

  predicate PipeFollow(s: string) {
    s == "" || s[0] == ')' || s[0] == '&' || s[0] == ';'
  }

  predicate LineFollow(s: string) {
    s == "" || s[0] == ')'
  }

  /** A symbol and a space in front of text that does not begin with a space. */
  lemma SymbolSpace(c: char, rest: string)
    requires IsSymbol(c) && NoLead(rest)
    ensures var s := [c, ' '] + rest;
      && NoLead(s) && s[0] == c && Peek(s, c) && (forall d :: Peek(s, d) ==> d == c) && GetToken(s).rest == rest
  {
    var s := [c, ' '] + rest;
    assert s == [c] + (" " + rest);
    SymbolToken(c, " " + rest);
    SkipNothing(rest);
  }

  lemma BlockStep(body: Cmd, text: string, list: seq<Redirection>, found: seq<Redirection>, rest: string)
    requires NoLead(text) && ParseLine(text + (") " + (PrintRedirs(list) + rest))) == Ok(body, ") " + (PrintRedirs(list) + rest))
    requires NoLead(PrintRedirs(list) + rest) && ParseRedirs(PrintRedirs(list) + rest) == Found(found, rest)
    ensures ParseExec("( " + (text + (") " + (PrintRedirs(list) + rest)))) == Ok(Wrap(body, found), rest)
  {
    var after := PrintRedirs(list) + rest;
    var inner := text + (") " + after);
    SymbolSpace(')', after);
    LeadJoin(text, ") " + after);
    SymbolSpace('(', inner);
    hide GetToken, Skip, Peek;
  }

  lemma BlockText(c: Cmd, rest: string)
    requires !Core(c).Exec?
    ensures PrintExec(c) + rest == "( " + (PrintLine(Core(c)) + (") " + (PrintRedirs(RedirList(c)) + rest)))
  {
    var a, b, d := PrintLine(Core(c)), PrintRedirs(RedirList(c)), "( ";
    Assoc(d + (a + ") "), b, rest);
    Assoc(d, a + ") ", b + rest);
    Assoc(a, ") ", b + rest);
  }

  lemma {:induction false} ExecRound(c: Cmd, rest: string) returns (r: Cmd)
    requires Plain(c) && ExecFollow(rest)
    ensures ParseExec(PrintExec(c) + rest) == Ok(r, rest) && Strip(r) == c
    decreases c, 5
  {
    if Core(c).Exec? {
      r := SimpleRound(c, rest);
    } else {
      hide ParseExec, ParseLine, ParseRedirs, PrintLine, PrintExec, PrintRedirs;
      PlainCore(c);
      WrapCore(c);
      var core, list := Core(c), RedirList(c);
      var found := RedirsRound(list, rest);
      var body := LineRound(core, ") " + (PrintRedirs(list) + rest));
      LineLead(core);
      BlockStep(body, PrintLine(core), list, found, rest);
      BlockText(c, rest);
      r := Wrap(body, found);
      StripWrap(body, found);
    }
  }

  lemma {:induction false} PipeRound(c: Cmd, rest: string) returns (r: Cmd)
    requires Plain(c) && PipeFollow(rest)
    ensures ParsePipe(PrintPipe(c) + rest) == Ok(r, rest) && Strip(r) == c
    decreases c, if c.Pipe? then 1 else 6
  {
    hide ParseExec, PrintExec, Peek, GetToken;
    if c.Pipe? {
      var tail := PrintPipe(c.right) + rest;
      var right := PipeRound(c.right, rest);
      PipeLead(c.right);
      LeadJoin(PrintPipe(c.right), rest);
      SymbolSpace('|', tail);
      var left := ExecRound(c.left, "| " + tail);
      PipeText(c, rest);
      r := Pipe(left, right);
    } else {
      r := ExecRound(c, rest);
      PeekAt(rest, '|');
    }
  }

  lemma PipeText(c: Cmd, rest: string)
    requires c.Pipe?
    ensures PrintPipe(c) + rest == PrintExec(c.left) + ("| " + (PrintPipe(c.right) + rest))
  {
    Assoc(PrintExec(c.left), "| " + PrintPipe(c.right), rest);
    Assoc("| ", PrintPipe(c.right), rest);
  }

  /** After a printed pipeline and its '&'s, parseline stands before what follows. */
  lemma {:induction false} BackRound(c: Cmd, rest: string) returns (r: Cmd)
    requires Plain(c) && PipeFollow(rest)
    ensures ParseLine(PrintBack(c) + rest) == LineLoop(r, rest) && Strip(r) == c
    decreases c, if c.Pipe? || c.Back? then 3 else 7
  {
    if c.Back? {
      hide ParseLine;
      SymbolSpace('&', rest);
      var inner := BackRound(c.cmd, "& " + rest);
      Assoc(PrintBack(c.cmd), "& ", rest);
      r := Back(inner);
      hide GetToken, Peek;
    } else {
      hide LineLoop, ParsePipe;
      r := PipeRound(c, rest);
    }
  }

  lemma {:induction false} LineRound(c: Cmd, rest: string) returns (r: Cmd)
    requires Plain(c) && LineFollow(rest)
    ensures ParseLine(PrintLine(c) + rest) == Ok(r, rest) && Strip(r) == c
    decreases c, if c.Pipe? || c.Back? || c.List? then 4 else 8
  {
    hide ParseLine, GetToken;
    if c.List? {
      var tail := PrintLine(c.right) + rest;
      var right := LineRound(c.right, rest);
      LineLead(c.right);
      LeadJoin(PrintLine(c.right), rest);
      SymbolSpace(';', tail);
      var left := BackRound(c.left, "; " + tail);
      LineText(c, rest);
      r := List(left, right);
    } else {
      r := BackRound(c, rest);
      SkipNothing(rest);
    }
  }

  lemma LineText(c: Cmd, rest: string)
    requires c.List?
    ensures PrintLine(c) + rest == PrintBack(c.left) + ("; " + (PrintLine(c.right) + rest))
  {
    Assoc(PrintBack(c.left), "; " + PrintLine(c.right), rest);
    Assoc("; ", PrintLine(c.right), rest);
  }

  /** Parsing what was printed gives the tree back. */
  lemma RoundTrip(c: Cmd)
    requires Plain(c)
    ensures ParseCmd(PrintLine(c)).Ok? && Strip(ParseCmd(PrintLine(c)).cmd) == c
  {
    var r := LineRound(c, "");
    assert PrintLine(c) + "" == PrintLine(c);
  }

  /** Two trees that print alike are the same tree. */
  lemma PrinterInjective(a: Cmd, b: Cmd)
    requires Plain(a) && Plain(b) && PrintLine(a) == PrintLine(b)
    ensures a == b
  {
    RoundTrip(a);
    RoundTrip(b);
  }

  // ------------------------------------------------------- no command has ten arguments

  predicate Small(c: Cmd) {
    match c
    case Exec(args) => |args| < MAXARGS
    case Redir(d, _, _) => Small(d)
    case Pipe(l, r) => Small(l) && Small(r)
    case List(l, r) => Small(l) && Small(r)
    case Back(d) => Small(d)
  }

  /** Every word is a proper one, whatever the number of arguments. */
  predicate Proper(c: Cmd) {
    match c
    case Exec(args) => forall i :: 0 <= i < |args| ==> IsWord(args[i])
    case Redir(d, file, _) => Proper(d) && IsWord(file)
    case Pipe(l, r) => Proper(l) && Proper(r)
    case List(l, r) => Proper(l) && Proper(r)
    case Back(d) => Proper(d)
  }

  lemma {:induction false} SmallWrap(c: Cmd, list: seq<Redirection>)
    requires Small(c)
    ensures Small(Wrap(c, list))
    decreases |list|
  {
    if list != [] { SmallWrap(c, list[..|list| - 1]); }
  }

  lemma {:induction false} SmallLoop(args: seq<Word>, list: seq<Redirection>, s: string)
    requires |args| < MAXARGS
    ensures var r := ExecLoop(args, list, s); r.Ok? ==> Small(r.cmd)
    decreases |s|
  {
    SmallWrap(Exec(args), list);
    var t := GetToken(s);
    if !AtStop(s) && t.kind == 'a' && |args| + 1 < MAXARGS {
      var r := ParseRedirs(t.rest);
      if r.Found? { SmallLoop(args + [t.word], list + r.list, r.rest); }
    }
  }

  lemma {:induction false} SmallExec(s: string)
    ensures var r := ParseExec(s); r.Ok? ==> Small(r.cmd)
    decreases |s|, 1
  {
    if Peek(s, '(') {
      var r := ParseLine(GetToken(s).rest);
      SmallLine(GetToken(s).rest);
      if r.Ok? && Peek(r.rest, ')') {
        var d := ParseRedirs(GetToken(r.rest).rest);
        if d.Found? { SmallWrap(r.cmd, d.list); }
      }
    } else {
      var r := ParseRedirs(s);
      if r.Found? { SmallLoop([], r.list, r.rest); }
    }
  }

  lemma {:induction false} SmallPipe(s: string)
    ensures var r := ParsePipe(s); r.Ok? ==> Small(r.cmd)
    decreases |s|, 2
  {
    SmallExec(s);
    var r := ParseExec(s);
    if r.Ok? && Peek(r.rest, '|') { SmallPipe(GetToken(r.rest).rest); }
  }

  lemma {:induction false} SmallLine(s: string)
    ensures var r := ParseLine(s); r.Ok? ==> Small(r.cmd)
    decreases |s|, 4
  {
    SmallPipe(s);
    var r := ParsePipe(s);
    if r.Ok? { SmallLineLoop(r.cmd, r.rest); }
  }

  lemma {:induction false} SmallLineLoop(c: Cmd, s: string)
    requires Small(c)
    ensures var r := LineLoop(c, s); r.Ok? ==> Small(r.cmd)
    decreases |s|, 3
  {
    if Peek(s, '&') { SmallLineLoop(Back(c), GetToken(s).rest); }
    else if Peek(s, ';') { SmallLine(GetToken(s).rest); }
  }

  lemma {:induction false} SmallStrip(c: Cmd)
    ensures Small(Strip(c)) == Small(c)
  {
    match c
    case Exec(args) =>
    case Redir(d, _, _) => SmallStrip(d);
    case Pipe(l, r) => SmallStrip(l); SmallStrip(r);
    case List(l, r) => SmallStrip(l); SmallStrip(r);
    case Back(d) => SmallStrip(d);
  }

  lemma {:induction false} ProperSmallIsPlain(c: Cmd)
    requires Proper(c) && Small(c)
    ensures Plain(c)
  {
    match c
    case Exec(args) =>
    case Redir(d, _, _) => ProperSmallIsPlain(d);
    case Pipe(l, r) => ProperSmallIsPlain(l); ProperSmallIsPlain(r);
    case List(l, r) => ProperSmallIsPlain(l); ProperSmallIsPlain(r);
    case Back(d) => ProperSmallIsPlain(d);
  }

  /** A tree of proper words comes back from its text exactly when none of its commands has
      more than nine arguments. */
  lemma RoundTripIff(c: Cmd)
    requires Proper(c)
    ensures ParseCmd(PrintLine(c)).Ok? && Strip(ParseCmd(PrintLine(c)).cmd) == c <==> Small(c)
  {
    if Small(c) {
      ProperSmallIsPlain(c);
      RoundTrip(c);
    }
    var r := ParseCmd(PrintLine(c));
    if r.Ok? {
      SmallLine(PrintLine(c));
      SmallStrip(r.cmd);
    }
  }
}
