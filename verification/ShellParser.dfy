/** The shell's recursive-descent parser (src/sh.c) on values.  The cursor is the text still to
    be read; a word records how much text was left where it began, which fixes its place in
    the line whatever has been consumed. */
module ShellParser {

  const MAXARGS := 10

  datatype Word = Word(text: string, at: nat)

  datatype Cmd =
    | Exec(args: seq<Word>)
    | Redir(cmd: Cmd, file: Word, out: bool)
    | Pipe(left: Cmd, right: Cmd)
    | List(left: Cmd, right: Cmd)
    | Back(cmd: Cmd)

  datatype Redirection = Redirection(file: Word, out: bool)

  datatype Result = Ok(cmd: Cmd, rest: string) | Panic
  datatype Redirs = Found(list: seq<Redirection>, rest: string) | Missing

  // ---------------------------------------------------------------------------- tokens

  predicate IsSpace(c: char) {
    c == ' ' || c == '\t' || c == '\r' || c == '\n' || c == '\U{000B}'
  }

  predicate IsSymbol(c: char) {
    c == '<' || c == '|' || c == '>' || c == '&' || c == ';' || c == '(' || c == ')'
  }

  predicate IsWordChar(c: char) {
    !IsSpace(c) && !IsSymbol(c) && c != '\0'
  }

  function Skip(s: string): (r: string)
    ensures |r| <= |s| && (r != "" ==> !IsSpace(r[0]))
  {
    if s != "" && IsSpace(s[0]) then Skip(s[1..]) else s
  }

  /** Length of the word that s begins with. */
  function WordLength(s: string): (n: nat)
    ensures n <= |s|
  {
    if s == "" || IsSpace(s[0]) || IsSymbol(s[0]) then 0 else 1 + WordLength(s[1..])
  }

  /** What the text u, which does not begin with white space, begins with: 0 at the end, 'a'
      for a word, '+' for ">>", else the symbol itself. */
  function Kind(u: string): char {
    if u == "" || u[0] == '\0' then '\0'
    else if u[0] == '>' then if |u| > 1 && u[1] == '>' then '+' else '>'
    else if IsSymbol(u[0]) then u[0] else 'a'
  }

  function Length(u: string): (k: nat)
    ensures k <= |u|
  {
    match Kind(u)
    case '\0' => 0
    case '+' => 2
    case 'a' => WordLength(u)
    case _ => 1
  }

  datatype Token = Token(kind: char, word: Word, rest: string)

  function GetToken(s: string): (t: Token)
    ensures |t.rest| <= |s| && (t.kind != '\0' ==> |t.rest| < |s|)
  {
    var u := Skip(s);
    Token(Kind(u), Word(u[..Length(u)], |u|), Skip(u[Length(u)..]))
  }

  /** The next character after white space is c. */
  predicate Peek(s: string, c: char) {
    Skip(s) != "" && Skip(s)[0] == c
  }

  // ---------------------------------------------------------------------------- parser

  function Wrap(c: Cmd, list: seq<Redirection>): Cmd {
    if list == [] then c
    else Redir(Wrap(c, list[..|list| - 1]), list[|list| - 1].file, list[|list| - 1].out)
  }

  /** parseredirs: '>' and '>>' build the same node. */
  function ParseRedirs(s: string): (r: Redirs)
    ensures r.Found? ==> |r.rest| <= |s|
    decreases |s|
  {
    if Peek(s, '<') || Peek(s, '>') then
      var t := GetToken(s);
      var f := GetToken(t.rest);
      if f.kind != 'a' then Missing
      else
        var r := ParseRedirs(f.rest);
        if r.Missing? then Missing else Found([Redirection(f.word, t.kind != '<')] + r.list, r.rest)
    else Found([], Skip(s))
  }

  predicate AtStop(s: string) {
    Peek(s, '|') || Peek(s, ')') || Peek(s, '&') || Peek(s, ';')
  }

  /** The loop of parseexec, with the arguments and redirections found so far. */
  function ExecLoop(args: seq<Word>, list: seq<Redirection>, s: string): (r: Result)
    ensures r.Ok? ==> |r.rest| <= |s|
    decreases |s|
  {
    if AtStop(s) then Ok(Wrap(Exec(args), list), Skip(s))
    else
      var t := GetToken(s);
      if t.kind == '\0' then Ok(Wrap(Exec(args), list), t.rest)
      else if t.kind != 'a' || |args| + 1 >= MAXARGS then Panic
      else
        var r := ParseRedirs(t.rest);
        if r.Missing? then Panic else ExecLoop(args + [t.word], list + r.list, r.rest)
  }

  function ParseExec(s: string): (r: Result)
    ensures r.Ok? ==> |r.rest| <= |s|
    decreases |s|, 1
  {
    if Peek(s, '(') then ParseBlock(s)
    else
      var r := ParseRedirs(s);
      if r.Missing? then Panic else ExecLoop([], r.list, r.rest)
  }

  function ParseBlock(s: string): (r: Result)
    requires Peek(s, '(')
    ensures r.Ok? ==> |r.rest| <= |s|
    decreases |s|, 0
  {
    var r := ParseLine(GetToken(s).rest);
    if r.Panic? || !Peek(r.rest, ')') then Panic
    else
      var d := ParseRedirs(GetToken(r.rest).rest);
      if d.Missing? then Panic else Ok(Wrap(r.cmd, d.list), d.rest)
  }

  function ParsePipe(s: string): (r: Result)
    ensures r.Ok? ==> |r.rest| <= |s|
    decreases |s|, 2
  {
    var r := ParseExec(s);
    if r.Panic? || !Peek(r.rest, '|') then r
    else
      var q := ParsePipe(GetToken(r.rest).rest);
      if q.Panic? then Panic else Ok(Pipe(r.cmd, q.cmd), q.rest)
  }

  function ParseLine(s: string): (r: Result)
    ensures r.Ok? ==> |r.rest| <= |s|
    decreases |s|, 4
  {
    var r := ParsePipe(s);
    if r.Panic? then Panic else LineLoop(r.cmd, r.rest)
  }

  /** The end of parseline: any number of '&', then perhaps ';' and another line. */
  function LineLoop(cmd: Cmd, s: string): (r: Result)
    ensures r.Ok? ==> |r.rest| <= |s|
    decreases |s|, 3
  {
    if Peek(s, '&') then LineLoop(Back(cmd), GetToken(s).rest)
    else if Peek(s, ';') then
      var q := ParseLine(GetToken(s).rest);
      if q.Panic? then Panic else Ok(List(cmd, q.cmd), q.rest)
    else Ok(cmd, Skip(s))
  }

  function ParseCmd(s: string): Result {
    var r := ParseLine(s);
    if r.Panic? || Skip(r.rest) != "" then Panic else r
  }
}
