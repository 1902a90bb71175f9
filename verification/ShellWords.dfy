/** Where the words of a parsed line lie, and what nulterminate (src/sh.c) does to the line. */
module ShellWords {
  import opened ShellParser

  ghost predicate CString(s: string) {
    forall i :: 0 <= i < |s| ==> s[i] != '\0'
  }

  ghost predicate Suffix(r: string, s: string) {
    |r| <= |s| && r == s[|s| - |r|..]
  }

  /** Where w begins in s, and where it ends. */
  function Begin(s: string, w: Word): int {
    |s| - w.at
  }

  function End(s: string, w: Word): int {
    |s| - w.at + |w.text|
  }

  predicate Delimiter(c: char) {
    IsSpace(c) || IsSymbol(c)
  }

  /** w stands in s as a run of word characters that ends at a delimiter or at the end. */
  ghost predicate Placed(s: string, w: Word) {
    && 0 < |w.text| <= w.at <= |s| && s[Begin(s, w)..End(s, w)] == w.text
    && (forall i :: 0 <= i < |w.text| ==> IsWordChar(w.text[i]))
    && (End(s, w) < |s| ==> Delimiter(s[End(s, w)]))
  }

  ghost predicate AllPlaced(s: string, c: Cmd) {
    match c
    case Exec(args) => forall i :: 0 <= i < |args| ==> Placed(s, args[i])
    case Redir(d, file, _) => AllPlaced(s, d) && Placed(s, file)
    case Pipe(l, r) => AllPlaced(s, l) && AllPlaced(s, r)
    case List(l, r) => AllPlaced(s, l) && AllPlaced(s, r)
    case Back(d) => AllPlaced(s, d)
  }

  lemma PlacedSuffix(r: string, s: string, w: Word)
    requires Suffix(r, s) && Placed(r, w)
    ensures Placed(s, w)
  {
    var k := |s| - |r|;
    assert Begin(s, w) == k + Begin(r, w);
    forall i | 0 <= i < |r| ensures r[i] == s[k + i] {}
  }

  lemma {:induction false} AllPlacedSuffix(r: string, s: string, c: Cmd)
    requires Suffix(r, s) && AllPlaced(r, c)
    ensures AllPlaced(s, c)
  {
    match c
    case Exec(args) =>
      forall i | 0 <= i < |args| ensures Placed(s, args[i]) { PlacedSuffix(r, s, args[i]); }
    case Redir(d, file, _) => AllPlacedSuffix(r, s, d); PlacedSuffix(r, s, file);
    case Pipe(l, q) => AllPlacedSuffix(r, s, l); AllPlacedSuffix(r, s, q);
    case List(l, q) => AllPlacedSuffix(r, s, l); AllPlacedSuffix(r, s, q);
    case Back(d) => AllPlacedSuffix(r, s, d);
  }

  lemma SuffixTrans(a: string, b: string, c: string)
    requires Suffix(a, b) && Suffix(b, c)
    ensures Suffix(a, c)
  {
    var r := c[|c| - |a|..];
    forall i | 0 <= i < |a| ensures a[i] == r[i] {
      assert a[i] == b[|b| - |a| + i] && b[|b| - |a| + i] == c[|c| - |b| + (|b| - |a| + i)];
    }
  }

  lemma SuffixDrop(s: string, k: nat)
    requires k <= |s|
    ensures Suffix(s[k..], s)
  {
  }

  lemma {:induction false} SkipSuffix(s: string)
    ensures Suffix(Skip(s), s)
  {
    if s != "" && IsSpace(s[0]) {
      SkipSuffix(s[1..]);
      SuffixDrop(s, 1);
      SuffixTrans(Skip(s[1..]), s[1..], s);
    }
  }

  lemma TokenSuffix(s: string)
    ensures Suffix(GetToken(s).rest, s) && Suffix(Skip(s), s)
  {
    hide Suffix, Skip, Length;
    SkipSuffix(s);
    var u := Skip(s);
    var k := Length(u);
    SuffixDrop(u, k);
    SkipSuffix(u[k..]);
    SuffixTrans(Skip(u[k..]), u[k..], u);
    SuffixTrans(Skip(u[k..]), u, s);
  }

  lemma TokenPlaced(s: string)
    requires CString(s)
    ensures Suffix(GetToken(s).rest, s) && Suffix(Skip(s), s)
    ensures GetToken(s).kind == 'a' ==> Placed(s, GetToken(s).word)
  {
    hide Suffix, Skip, Placed, CString;
    TokenSuffix(s);
    var u := Skip(s);
    if Kind(u) == 'a' {
      SuffixCString(u, s);
      WordPlaced(u);
      PlacedSuffix(u, s, GetToken(s).word);
    }
  }

  lemma {:induction false} WordRun(u: string)
    ensures var n := WordLength(u);
      && (forall i :: 0 <= i < n ==> !IsSpace(u[i]) && !IsSymbol(u[i]))
      && (n < |u| ==> Delimiter(u[n]))
      && (u != "" && !Delimiter(u[0]) ==> n > 0)
  {
    if u != "" && !Delimiter(u[0]) {
      WordRun(u[1..]);
      var n := WordLength(u);
      forall i | 0 < i < n ensures !IsSpace(u[i]) && !IsSymbol(u[i]) { assert u[i] == u[1..][i - 1]; }
    }
  }

  lemma WordPlaced(u: string)
    requires CString(u) && u != "" && !IsSpace(u[0]) && Kind(u) == 'a'
    ensures Placed(u, Word(u[..WordLength(u)], |u|))
  {
    WordRun(u);
  }

  lemma SuffixCString(r: string, s: string)
    requires Suffix(r, s) && CString(s)
    ensures CString(r)
  {
    forall i | 0 <= i < |r| ensures r[i] != '\0' { assert r[i] == s[|s| - |r| + i]; }
  }

  ghost predicate ListPlaced(s: string, list: seq<Redirection>) {
    forall i :: 0 <= i < |list| ==> Placed(s, list[i].file)
  }

  lemma {:induction false} WrapPlaced(s: string, c: Cmd, list: seq<Redirection>)
    requires AllPlaced(s, c) && ListPlaced(s, list)
    ensures AllPlaced(s, Wrap(c, list))
    decreases |list|
  {
    if list != [] { WrapPlaced(s, c, list[..|list| - 1]); }
  }

  lemma {:induction false} RedirsPlaced(s: string)
    requires CString(s)
    ensures var r := ParseRedirs(s); r.Found? ==> Suffix(r.rest, s) && ListPlaced(s, r.list)
    decreases |s|
  {
    hide Suffix, Placed, CString, Skip, GetToken;
    TokenPlaced(s);
    if Peek(s, '<') || Peek(s, '>') {
      var t := GetToken(s);
      SuffixCString(t.rest, s);
      TokenPlaced(t.rest);
      var f := GetToken(t.rest);
      if f.kind == 'a' {
        PlacedSuffix(t.rest, s, f.word);
        SuffixTrans(f.rest, t.rest, s);
        SuffixCString(f.rest, s);
        RedirsPlaced(f.rest);
        var r := ParseRedirs(f.rest);
        if r.Found? {
          SuffixTrans(r.rest, f.rest, s);
          forall i | 0 <= i < |r.list| ensures Placed(s, r.list[i].file) { PlacedSuffix(f.rest, s, r.list[i].file); }
        }
      }
    }
  }

  lemma {:induction false} ExecLoopPlaced(args: seq<Word>, list: seq<Redirection>, s: string, whole: string)
    requires CString(whole) && Suffix(s, whole) && ListPlaced(whole, list)
    requires forall i :: 0 <= i < |args| ==> Placed(whole, args[i])
    ensures var r := ExecLoop(args, list, s); r.Ok? ==> Suffix(r.rest, whole) && AllPlaced(whole, r.cmd)
    decreases |s|
  {
    hide Suffix, Placed, CString, Skip, GetToken;
    SuffixCString(s, whole);
    TokenPlaced(s);
    SuffixTrans(Skip(s), s, whole);
    var t := GetToken(s);
    SuffixTrans(t.rest, s, whole);
    WrapPlaced(whole, Exec(args), list);
    if !AtStop(s) && t.kind == 'a' && |args| + 1 < MAXARGS {
      PlacedSuffix(s, whole, t.word);
      SuffixCString(t.rest, whole);
      RedirsPlaced(t.rest);
      var r := ParseRedirs(t.rest);
      if r.Found? {
        SuffixTrans(r.rest, t.rest, whole);
        forall i | 0 <= i < |r.list| ensures Placed(whole, r.list[i].file) { PlacedSuffix(t.rest, whole, r.list[i].file); }
        ExecLoopPlaced(args + [t.word], list + r.list, r.rest, whole);
      }
    }
  }

  /** A result's words are words of the line, and what is left is its end. */
  ghost predicate GoodResult(r: Result, s: string) {
    r.Ok? ==> Suffix(r.rest, s) && AllPlaced(s, r.cmd)
  }

  lemma GoodSuffix(r: Result, t: string, s: string)
    requires GoodResult(r, t) && Suffix(t, s)
    ensures GoodResult(r, s)
  {
    if r.Ok? {
      SuffixTrans(r.rest, t, s);
      AllPlacedSuffix(t, s, r.cmd);
    }
  }

  lemma {:induction false} ExecPlaced(s: string)
    requires CString(s)
    ensures GoodResult(ParseExec(s), s)
    decreases |s|, 1
  {
    if Peek(s, '(') {
      BlockPlaced(s);
    } else {
      RedirsPlaced(s);
      var r := ParseRedirs(s);
      if r.Found? { ExecLoopPlaced([], r.list, r.rest, s); }
    }
  }

  lemma PeekConsumes(s: string, c: char)
    requires Peek(s, c) && c != '\0'
    ensures |GetToken(s).rest| < |s|
  {
    assert Kind(Skip(s)) != '\0';
  }

  lemma {:induction false} BlockPlaced(s: string)
    requires CString(s) && Peek(s, '(')
    ensures GoodResult(ParseBlock(s), s)
    decreases |s|, 0
  {
    hide Suffix, Placed, CString, Skip, GetToken;
    TokenPlaced(s);
    var t := GetToken(s);
    PeekConsumes(s, '(');
    SuffixCString(t.rest, s);
    LinePlaced(t.rest);
    var r := ParseLine(t.rest);
    GoodSuffix(r, t.rest, s);
    if r.Ok? && Peek(r.rest, ')') {
      SuffixCString(r.rest, s);
      TokenPlaced(r.rest);
      var u := GetToken(r.rest);
      SuffixTrans(u.rest, r.rest, s);
      SuffixCString(u.rest, s);
      RedirsPlaced(u.rest);
      var d := ParseRedirs(u.rest);
      if d.Found? {
        SuffixTrans(d.rest, u.rest, s);
        forall i | 0 <= i < |d.list| ensures Placed(s, d.list[i].file) { PlacedSuffix(u.rest, s, d.list[i].file); }
        WrapPlaced(s, r.cmd, d.list);
      }
    }
  }

  lemma {:induction false} PipePlaced(s: string)
    requires CString(s)
    ensures GoodResult(ParsePipe(s), s)
    decreases |s|, 2
  {
    hide Suffix, Placed, CString, Skip, GetToken;
    ExecPlaced(s);
    var r := ParseExec(s);
    if r.Ok? && Peek(r.rest, '|') {
      SuffixCString(r.rest, s);
      TokenPlaced(r.rest);
      var t := GetToken(r.rest);
      SuffixTrans(t.rest, r.rest, s);
      SuffixCString(t.rest, s);
      PeekConsumes(r.rest, '|');
      PipePlaced(t.rest);
      GoodSuffix(ParsePipe(t.rest), t.rest, s);
    }
  }

  lemma {:induction false} LinePlaced(s: string)
    requires CString(s)
    ensures GoodResult(ParseLine(s), s)
    decreases |s|, 4
  {
    PipePlaced(s);
    var r := ParsePipe(s);
    if r.Ok? { LineLoopPlaced(r.cmd, r.rest, s); }
  }

  lemma {:induction false} LineLoopPlaced(c: Cmd, s: string, whole: string)
    requires CString(whole) && Suffix(s, whole) && AllPlaced(whole, c)
    ensures GoodResult(LineLoop(c, s), whole)
    decreases |s|, 3
  {
    hide Suffix, Placed, CString, Skip, GetToken;
    SuffixCString(s, whole);
    TokenPlaced(s);
    SuffixTrans(Skip(s), s, whole);
    var t := GetToken(s);
    SuffixTrans(t.rest, s, whole);
    if Peek(s, '&') {
      PeekConsumes(s, '&');
      LineLoopPlaced(Back(c), t.rest, whole);
    } else if Peek(s, ';') {
      SuffixCString(t.rest, whole);
      PeekConsumes(s, ';');
      LinePlaced(t.rest);
      GoodSuffix(ParseLine(t.rest), t.rest, whole);
    }
  }

  // ---------------------------------------------------------------------- nulterminate

  /** Where nulterminate writes: behind every argument and file name. */
  ghost function Ends(s: string, c: Cmd): iset<int> {
    match c
    case Exec(args) => iset w | w in args :: End(s, w)
    case Redir(d, file, _) => Ends(s, d) + iset{End(s, file)}
    case Pipe(l, r) => Ends(s, l) + Ends(s, r)
    case List(l, r) => Ends(s, l) + Ends(s, r)
    case Back(d) => Ends(s, d)
  }

  /** Everything nulterminate overwrites is a delimiter or the terminator. */
  lemma {:induction false} EndsAreDelimiters(s: string, c: Cmd, i: int)
    requires AllPlaced(s, c) && i in Ends(s, c)
    ensures 0 <= i <= |s| && (i < |s| ==> Delimiter(s[i]))
  {
    match c
    case Exec(args) =>
      var w :| w in args && End(s, w) == i;
      assert Placed(s, w);
    case Redir(d, file, _) => if i in Ends(s, d) { EndsAreDelimiters(s, d, i); }
    case Pipe(l, r) => if i in Ends(s, l) { EndsAreDelimiters(s, l, i); } else { EndsAreDelimiters(s, r, i); }
    case List(l, r) => if i in Ends(s, l) { EndsAreDelimiters(s, l, i); } else { EndsAreDelimiters(s, r, i); }
    case Back(d) => EndsAreDelimiters(s, d, i);
  }

  ghost predicate Terminated(before: seq<char>, after: seq<char>, ends: iset<int>) {
    |after| == |before| && forall i :: 0 <= i < |after| ==> after[i] == if i in ends then '\0' else before[i]
  }

  /** nulterminate writes a terminator behind every word, and nothing else. */
  method Nulterminate(buf: array<char>, s: string, c: Cmd)
    requires buf.Length == |s| + 1 && AllPlaced(s, c)
    modifies buf
    ensures Terminated(old(buf[..]), buf[..], Ends(s, c))
  {
    match c
    case Exec(args) =>
      var i := 0;
      while i < |args|
        invariant 0 <= i <= |args|
        invariant Terminated(old(buf[..]), buf[..], Ends(s, Exec(args[..i])))
      {
        assert Placed(s, args[i]);
        buf[|s| - args[i].at + |args[i].text|] := '\0';
        assert args[..i + 1] == args[..i] + [args[i]];
        i := i + 1;
      }
      assert args[..i] == args;
    case Redir(d, file, _) =>
      Nulterminate(buf, s, d);
      buf[|s| - file.at + |file.text|] := '\0';
    case Pipe(l, r) =>
      Nulterminate(buf, s, l);
      Nulterminate(buf, s, r);
    case List(l, r) =>
      Nulterminate(buf, s, l);
      Nulterminate(buf, s, r);
    case Back(d) =>
      Nulterminate(buf, s, d);
  }

  ghost predicate HasWord(c: Cmd, w: Word) {
    match c
    case Exec(args) => w in args
    case Redir(d, file, _) => HasWord(d, w) || w == file
    case Pipe(l, r) => HasWord(l, w) || HasWord(r, w)
    case List(l, r) => HasWord(l, w) || HasWord(r, w)
    case Back(d) => HasWord(d, w)
  }

  lemma {:induction false} WordsPlaced(s: string, c: Cmd, w: Word)
    requires AllPlaced(s, c) && HasWord(c, w)
    ensures Placed(s, w) && End(s, w) in Ends(s, c)
  {
    match c
    case Exec(args) =>
    case Redir(d, file, _) => if HasWord(d, w) { WordsPlaced(s, d, w); }
    case Pipe(l, r) => if HasWord(l, w) { WordsPlaced(s, l, w); } else { WordsPlaced(s, r, w); }
    case List(l, r) => if HasWord(l, w) { WordsPlaced(s, l, w); } else { WordsPlaced(s, r, w); }
    case Back(d) => WordsPlaced(s, d, w);
  }

  /** After nulterminate every word of a parsed command line reads back as a C string: its
      bytes are untouched and a terminator follows them. */
  lemma WordsReadBack(line: string, w: Word, buf: seq<char>)
    requires CString(line)
    requires var r := ParseCmd(line); r.Ok? && HasWord(r.cmd, w) && Terminated(line + ['\0'], buf, Ends(line, r.cmd))
    ensures 0 <= Begin(line, w) <= End(line, w) < |buf|
    ensures buf[Begin(line, w)..End(line, w)] == w.text && CString(w.text) && buf[End(line, w)] == '\0'
  {
    var c := ParseCmd(line).cmd;
    LinePlaced(line);
    WordsPlaced(line, c, w);
    forall i | Begin(line, w) <= i < End(line, w) ensures i !in Ends(line, c) {
      assert line[i] == w.text[i - Begin(line, w)];
      if i in Ends(line, c) { EndsAreDelimiters(line, c, i); }
    }
    forall i | 0 <= i < |w.text| ensures buf[Begin(line, w) + i] == w.text[i] {
      assert line[Begin(line, w) + i] == w.text[i];
    }
  }
}
