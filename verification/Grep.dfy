/** grep's regular-expression matcher (src/grep.c) against the language a pattern denotes. */
module Grep {

  // ---------------------------------------------------------------- what patterns mean

  datatype Item = One(c: char) | Star(c: char)

  /** c, or any character for '.'. */
  predicate Fits(c: char, x: char) {
    c == '.' || c == x
  }

  predicate InItem(it: Item, w: string) {
    match it
    case One(c) => |w| == 1 && Fits(c, w[0])
    case Star(c) => forall i :: 0 <= i < |w| ==> Fits(c, w[i])
  }

  function Concat(pieces: seq<string>): string {
    if pieces == [] then "" else pieces[0] + Concat(pieces[1..])
  }

  ghost predicate Pieces(items: seq<Item>, pieces: seq<string>, w: string) {
    && |pieces| == |items| && Concat(pieces) == w
    && forall i :: 0 <= i < |items| ==> InItem(items[i], pieces[i])
  }

  /** w is a concatenation of words of the items. */
  ghost predicate InLanguage(items: seq<Item>, w: string) {
    exists pieces: seq<string> :: Pieces(items, pieces, w)
  }

  /** The items of a pattern; a '$' that ends it stands for the end of the text instead. */
  function Items(re: string): seq<Item> {
    if re == "" || re == "$" then []
    else if |re| >= 2 && re[1] == '*' then [Star(re[0])] + Items(re[2..])
    else [One(re[0])] + Items(re[1..])
  }

  function AtEnd(re: string): bool {
    if re == "" then false
    else if re == "$" then true
    else if |re| >= 2 && re[1] == '*' then AtEnd(re[2..])
    else AtEnd(re[1..])
  }

  /** A prefix of the text, all of it for a pattern that ends in '$', is in the language. */
  ghost predicate Here(re: string, text: string) {
    exists k :: 0 <= k <= |text| && (AtEnd(re) ==> k == |text|) && InLanguage(Items(re), text[..k])
  }

  /** Some part of the text does, the first part for a pattern that starts with '^'. */
  ghost predicate Somewhere(re: string, text: string) {
    if re != "" && re[0] == '^' then Here(re[1..], text)
    else exists i :: 0 <= i <= |text| && Here(re, text[i..])
  }

  // -------------------------------------------------------------------- unfolding Here

  lemma LanguageCons(it: Item, items: seq<Item>, w: string, v: string)
    requires InItem(it, w) && InLanguage(items, v)
    ensures InLanguage([it] + items, w + v)
  {
    var pieces: seq<string> :| Pieces(items, pieces, v);
    assert Pieces([it] + items, [w] + pieces, w + v);
  }

  lemma LanguageUncons(it: Item, items: seq<Item>, w: string) returns (j: nat)
    requires InLanguage([it] + items, w)
    ensures j <= |w| && InItem(it, w[..j]) && InLanguage(items, w[j..])
  {
    var pieces: seq<string> :| Pieces([it] + items, pieces, w);
    j := |pieces[0]|;
    assert w == pieces[0] + Concat(pieces[1..]);
    assert InItem(([it] + items)[0], pieces[0]) && w[..j] == pieces[0] && w[j..] == Concat(pieces[1..]);
    forall i | 0 <= i < |items| ensures InItem(items[i], pieces[1..][i]) {
      assert InItem(([it] + items)[i + 1], pieces[i + 1]);
    }
    assert Pieces(items, pieces[1..], w[j..]);
  }

  lemma HereEmpty(text: string)
    ensures Here("", text)
  {
    assert Pieces([], [], text[..0]);
    assert InLanguage(Items(""), text[..0]);
  }

  lemma HereEnd(text: string)
    ensures Here("$", text) <==> text == ""
  {
    if text == "" { assert Pieces([], [], text[..0]); }
    if Here("$", text) {
      var k :| 0 <= k <= |text| && k == |text| && InLanguage([], text[..k]);
      var pieces: seq<string> :| Pieces([], pieces, text[..k]);
    }
  }

  /** The first item matches text[..j] and the rest of the pattern what follows. */
  ghost predicate SplitsAt(it: Item, rest: string, text: string, j: nat) {
    j <= |text| && InItem(it, text[..j]) && Here(rest, text[j..])
  }

  lemma HereSplits(it: Item, re: string, rest: string, text: string)
    requires Items(re) == [it] + Items(rest) && AtEnd(re) == AtEnd(rest) && Here(re, text)
    ensures exists j: nat :: SplitsAt(it, rest, text, j)
  {
    var k :| 0 <= k <= |text| && (AtEnd(re) ==> k == |text|) && InLanguage(Items(re), text[..k]);
    var j := LanguageUncons(it, Items(rest), text[..k]);
    assert text[..k][..j] == text[..j] && text[..k][j..] == text[j..][..k - j];
    assert SplitsAt(it, rest, text, j);
  }

  lemma SplitsHere(it: Item, re: string, rest: string, text: string, j: nat)
    requires Items(re) == [it] + Items(rest) && AtEnd(re) == AtEnd(rest) && SplitsAt(it, rest, text, j)
    ensures Here(re, text)
  {
    var k :| 0 <= k <= |text[j..]| && (AtEnd(rest) ==> k == |text[j..]|) && InLanguage(Items(rest), text[j..][..k]);
    LanguageCons(it, Items(rest), text[..j], text[j..][..k]);
    assert text[..j] + text[j..][..k] == text[..j + k];
  }

  lemma HereOne(re: string, text: string)
    requires re != "" && re != "$" && !(|re| >= 2 && re[1] == '*')
    ensures Here(re, text) <==> text != "" && Fits(re[0], text[0]) && Here(re[1..], text[1..])
  {
    if Here(re, text) { HereSplits(One(re[0]), re, re[1..], text); }
    if text != "" && Fits(re[0], text[0]) && Here(re[1..], text[1..]) { SplitsHere(One(re[0]), re, re[1..], text, 1); }
  }

  lemma HereStar(re: string, text: string)
    requires |re| >= 2 && re[1] == '*'
    ensures Here(re, text) <==> exists j :: 0 <= j <= |text| && AllFit(re[0], text, j) && Here(re[2..], text[j..])
  {
    if Here(re, text) {
      HereSplits(Star(re[0]), re, re[2..], text);
      var j: nat :| SplitsAt(Star(re[0]), re[2..], text, j);
      forall i | 0 <= i < j ensures Fits(re[0], text[i]) { assert Fits(re[0], text[..j][i]); }
      assert AllFit(re[0], text, j);
    }
    if j :| 0 <= j <= |text| && AllFit(re[0], text, j) && Here(re[2..], text[j..]) {
      SplitsHere(Star(re[0]), re, re[2..], text, j);
    }
  }

  predicate AllFit(c: char, text: string, j: nat)
    requires j <= |text|
  {
    forall i :: 0 <= i < j ==> Fits(c, text[i])
  }

  // ---------------------------------------------------------------------- the matcher

  /** A C string is read up to its terminator. */
  function CharAt(s: string, i: nat): char {
    if i < |s| then s[i] else '\0'
  }

  ghost predicate CString(s: string) {
    forall i :: 0 <= i < |s| ==> s[i] != '\0'
  }

  method MatchHere(re: string, text: string) returns (r: bool)
    requires CString(re) && CString(text)
    ensures r <==> Here(re, text)
    decreases |re|, |text|
  {
    if CharAt(re, 0) == '\0' {
      HereEmpty(text);
      return true;
    }
    if CharAt(re, 1) == '*' {
      HereStar(re, text);
      r := MatchStar(re[0], re[2..], text);
      return;
    }
    if CharAt(re, 0) == '$' && CharAt(re, 1) == '\0' {
      HereEnd(text);
      return CharAt(text, 0) == '\0';
    }
    HereOne(re, text);
    if CharAt(text, 0) != '\0' && (re[0] == '.' || re[0] == text[0]) {
      r := MatchHere(re[1..], text[1..]);
      return;
    }
    r := false;
  }

  method MatchStar(c: char, re: string, text: string) returns (r: bool)
    requires CString(re) && CString(text) && c != '\0'
    ensures r <==> exists j :: 0 <= j <= |text| && AllFit(c, text, j) && Here(re, text[j..])
    decreases |re| + 1, 0
  {
    var j := 0;
    while true
      invariant 0 <= j <= |text| && AllFit(c, text, j)
      invariant forall i :: 0 <= i < j ==> !Here(re, text[i..])
      decreases |text| - j
    {
      var here := MatchHere(re, text[j..]);
      if here { return true; }
      if !(CharAt(text, j) != '\0' && (text[j] == c || c == '.')) { break; }
      j := j + 1;
    }
    r := false;
  }

  /** match: 1 exactly when some part of the text, or its start for '^', matches. */
  method Match(re: string, text: string) returns (r: bool)
    requires CString(re) && CString(text)
    ensures r <==> Somewhere(re, text)
  {
    if CharAt(re, 0) == '^' {
      r := MatchHere(re[1..], text);
      return;
    }
    var i := 0;
    while true
      invariant 0 <= i <= |text|
      invariant forall j :: 0 <= j < i ==> !Here(re, text[j..])
      decreases |text| - i
    {
      var here := MatchHere(re, text[i..]);
      if here { return true; }
      if CharAt(text, i) == '\0' { break; }
      i := i + 1;
    }
    r := false;
  }
}
