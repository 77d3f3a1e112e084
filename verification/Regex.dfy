/** user/grep.c: the matcher for `^ . * $` patterns of chapter 9 of The Practice of Programming.

    A pattern denotes a set of words; the matcher is proved to decide whether the text has a
    substring in that set. */
module Regex {

  /** One letter: any, or a given one. */
  datatype Letter = Any | Lit(c: char)

  datatype Item = One(a: Letter) | Star(a: Letter)

  datatype Pattern = Pattern(atStart: bool, items: seq<Item>, atEnd: bool)

  function Reads(c: char): Letter { if c == '.' then Any else Lit(c) }

  /** What a pattern without its leading `^` stands for: a star after a letter repeats it, before
      anything else is considered; a `$` counts as the end mark only when it is last; every other
      character, `^` and a leading `*` included, stands for itself. */
  function Items(re: string): (r: (seq<Item>, bool))
    decreases |re|
  {
    if re == "" then ([], false)
    else if |re| >= 2 && re[1] == '*' then
      var (rest, atEnd) := Items(re[2..]); ([Star(Reads(re[0]))] + rest, atEnd)
    else if re == "$" then ([], true)
    else
      var (rest, atEnd) := Items(re[1..]); ([One(Reads(re[0]))] + rest, atEnd)
  }

  function Denotation(re: string): Pattern
  {
    var atStart := re != "" && re[0] == '^';
    var (items, atEnd) := Items(if atStart then re[1..] else re);
    Pattern(atStart, items, atEnd)
  }

  function Written(a: Letter): char { if a.Any? then '.' else a.c }

  function Render(items: seq<Item>, atEnd: bool): string
  {
    if items == [] then (if atEnd then "$" else "")
    else (match items[0] case One(a) => [Written(a)] case Star(a) => [Written(a), '*']) + Render(items[1..], atEnd)
  }

  /** Reading loses nothing: every character of a pattern has exactly one role in what it stands for. */
  lemma {:induction false} RenderBack(re: string)
    ensures Render(Items(re).0, Items(re).1) == re
    decreases |re|
  {
    if re == "" || (re == "$") {
    } else {
      var n := if |re| >= 2 && re[1] == '*' then 2 else 1;
      RenderBack(re[n..]);
      assert Items(re).0[1..] == Items(re[n..]).0;
      assert re == re[..n] + re[n..];
    }
  }

  predicate Accepts(a: Letter, c: char) { a.Any? || a.c == c }

  predicate AllAccepted(a: Letter, w: string) { forall k | 0 <= k < |w| :: Accepts(a, w[k]) }

  /** Membership of a word in the language of a list of items. */
  ghost predicate Denotes(items: seq<Item>, w: string)
  {
    if items == [] then w == ""
    else exists k | 0 <= k <= |w| ::
      && (match items[0] case One(a) => k == 1 && Accepts(a, w[0]) case Star(a) => AllAccepted(a, w[..k]))
      && Denotes(items[1..], w[k..])
  }

  /** Some substring of the text, at the places the anchors ask for, is in the language. */
  ghost predicate Matches(p: Pattern, text: string)
  {
    exists i, j | 0 <= i <= j <= |text| ::
      Denotes(p.items, text[i..j]) && (p.atStart ==> i == 0) && (p.atEnd ==> j == |text|)
  }

  /** The same for substrings that start at the front of `s`. */
  ghost predicate Here(items: seq<Item>, atEnd: bool, s: string)
  {
    exists j | 0 <= j <= |s| :: Denotes(items, s[..j]) && (atEnd ==> j == |s|)
  }

  lemma HereNone(atEnd: bool, s: string)
    ensures Here([], atEnd, s) <==> (atEnd ==> s == "")
  {
    assert s[..0] == "";
    if atEnd && s == "" { assert Denotes([], s[..|s|]); }
    if !atEnd { assert Denotes([], s[..0]); }
  }

  lemma {:induction false} HereOne(a: Letter, rest: seq<Item>, atEnd: bool, s: string)
    ensures Here([One(a)] + rest, atEnd, s) <==> s != "" && Accepts(a, s[0]) && Here(rest, atEnd, s[1..])
  {
    var items := [One(a)] + rest;
    assert items[1..] == rest;
    if Here(items, atEnd, s) {
      var j :| 0 <= j <= |s| && Denotes(items, s[..j]) && (atEnd ==> j == |s|);
      assert s[..j][1..] == s[1..][..j - 1];
    }
    if s != "" && Accepts(a, s[0]) && Here(rest, atEnd, s[1..]) {
      var j :| 0 <= j <= |s[1..]| && Denotes(rest, s[1..][..j]) && (atEnd ==> j == |s[1..]|);
      assert s[..j + 1][1..] == s[1..][..j];
      assert Denotes(items, s[..j + 1]);
    }
  }

  lemma {:induction false} HereStar(a: Letter, rest: seq<Item>, atEnd: bool, s: string)
    ensures Here([Star(a)] + rest, atEnd, s) <==>
      exists k | 0 <= k <= |s| :: AllAccepted(a, s[..k]) && Here(rest, atEnd, s[k..])
  {
    var items := [Star(a)] + rest;
    assert items[1..] == rest;
    if Here(items, atEnd, s) {
      var j :| 0 <= j <= |s| && Denotes(items, s[..j]) && (atEnd ==> j == |s|);
      var k :| 0 <= k <= j && AllAccepted(a, s[..j][..k]) && Denotes(rest, s[..j][k..]);
      assert s[..j][..k] == s[..k] && s[..j][k..] == s[k..][..j - k];
      assert Here(rest, atEnd, s[k..]);
    }
    if exists k | 0 <= k <= |s| :: AllAccepted(a, s[..k]) && Here(rest, atEnd, s[k..]) {
      var k :| 0 <= k <= |s| && AllAccepted(a, s[..k]) && Here(rest, atEnd, s[k..]);
      var j :| 0 <= j <= |s[k..]| && Denotes(rest, s[k..][..j]) && (atEnd ==> j == |s[k..]|);
      var w := s[..k + j];
      assert w[..k] == s[..k] && w[k..] == s[k..][..j];
      assert Denotes(items, w);
    }
  }

  lemma MatchesHere(p: Pattern, text: string)
    ensures Matches(p, text) <==>
      exists i | 0 <= i <= |text| :: (p.atStart ==> i == 0) && Here(p.items, p.atEnd, text[i..])
  {
    if Matches(p, text) {
      var i, j :|
        0 <= i <= j <= |text| && Denotes(p.items, text[i..j]) && (p.atStart ==> i == 0) && (p.atEnd ==> j == |text|);
      assert text[i..][..j - i] == text[i..j];
      assert Here(p.items, p.atEnd, text[i..]);
    }
    if exists i | 0 <= i <= |text| :: (p.atStart ==> i == 0) && Here(p.items, p.atEnd, text[i..]) {
      var i :| 0 <= i <= |text| && (p.atStart ==> i == 0) && Here(p.items, p.atEnd, text[i..]);
      var j :| 0 <= j <= |text[i..]| && Denotes(p.items, text[i..][..j]) && (p.atEnd ==> j == |text[i..]|);
      assert text[i..][..j] == text[i..i + j];
    }
  }

  /** A C string: no NUL inside, one just past the end. */
  predicate CString(s: string) { '\0' !in s }

  function At(s: string, i: nat): char { if i < |s| then s[i] else '\0' }

  method MatchHere(re: string, i: nat, text: string, j: nat) returns (found: bool)
    requires CString(re) && CString(text) && i <= |re| && j <= |text|
    ensures found <==> Here(Items(re[i..]).0, Items(re[i..]).1, text[j..])
    decreases |re| - i, |text| - j, 1
  {
    hide Here, Denotes;
    var (items, atEnd) := Items(re[i..]);
    if At(re, i) == '\0' {
      HereNone(false, text[j..]);
      return true;
    }
    if At(re, i + 1) == '*' {
      assert re[i..][2..] == re[i + 2..];
      found := MatchStar(At(re, i), re, i + 2, text, j);
      return;
    }
    if At(re, i) == '$' && At(re, i + 1) == '\0' {
      assert re[i..] == "$";
      HereNone(true, text[j..]);
      return At(text, j) == '\0';
    }
    assert re[i..][1..] == re[i + 1..];
    assert re[i..] == "$" ==> |re| == i + 1;
    HereOne(Reads(re[i]), Items(re[i + 1..]).0, atEnd, text[j..]);
    if At(text, j) != '\0' && (At(re, i) == '.' || At(re, i) == At(text, j)) {
      assert text[j..][1..] == text[j + 1..];
      found := MatchHere(re, i + 1, text, j + 1);
      return;
    }
    return false;
  }

  method MatchStar(c: char, re: string, i: nat, text: string, start: nat) returns (found: bool)
    requires CString(re) && CString(text) && i <= |re| && start <= |text|
    ensures found <==> Here([Star(Reads(c))] + Items(re[i..]).0, Items(re[i..]).1, text[start..])
    decreases |re| - i, |text| - start, 2
  {
    hide Here, Denotes, Items;
    var (rest, atEnd) := Items(re[i..]);
    ghost var s := text[start..];
    HereStar(Reads(c), rest, atEnd, s);
    var j := start;
    while true
      invariant start <= j <= |text|
      invariant AllAccepted(Reads(c), s[..j - start])
      invariant forall k | 0 <= k < j - start :: !Here(rest, atEnd, s[k..])
      decreases |text| - j
    {
      assert s[j - start..] == text[j..];
      found := MatchHere(re, i, text, j);
      if found { return; }
      if At(text, j) == '\0' { return; }
      if !(At(text, j) == c || c == '.') {
        assert s[j - start] == text[j];
        return;
      }
      assert s[..j + 1 - start] == s[..j - start] + [text[j]];
      j := j + 1;
    }
  }

  /** grep prints a line exactly when some substring of it is in the pattern's language. */
  method Match(re: string, text: string) returns (found: bool)
    requires CString(re) && CString(text)
    ensures found <==> Matches(Denotation(re), text)
  {
    hide Here, Denotes, Items, Matches;
    MatchesHere(Denotation(re), text);
    assert text[0..] == text && re[0..] == re;
    if At(re, 0) == '^' {
      found := MatchHere(re, 1, text, 0);
      return;
    }
    var j := 0;
    while true
      invariant 0 <= j <= |text|
      invariant forall k | 0 <= k < j :: !Here(Items(re).0, Items(re).1, text[k..])
      decreases |text| - j
    {
      found := MatchHere(re, 0, text, j);
      if found { return; }
      if At(text, j) == '\0' { return; }
      j := j + 1;
    }
  }
}
