/** user/sh.c: the shell's parser.

    The parser walks a cursor over the input buffer and builds a tree of pointers into it; at the end
    it writes a NUL behind every word.  `Parse...` functions say what each routine yields from a
    position; the methods below them are the routines. */
module Shell {
  import opened Types

  const MAXARGS := 10

  /** A word or file name: from q up to eq. */
  datatype Span = Span(q: nat, eq: nat)

  /** A command over words: spans of the buffer, or the strings they stand for. */
  datatype Cmd<T> =
    | Exec(argv: seq<T>)
    | Redir(cmd: Cmd<T>, file: T, input: bool)
    | Pipe(left: Cmd<T>, right: Cmd<T>)
    | List(left: Cmd<T>, right: Cmd<T>)
    | Back(cmd: Cmd<T>)

  // --------------------------------------------------------------- characters and tokens

  predicate IsSpace(c: char) { c in " \t\r\n\U{0b}" }

  predicate IsSymbol(c: char) { c in "<|>&;()" }

  predicate IsWord(c: char) { !IsSpace(c) && !IsSymbol(c) && c != '\0' }

  function At(s: string, i: nat): char { if i < |s| then s[i] else '\0' }

  function Skip(s: string, i: nat): (j: nat)
    requires i <= |s|
    ensures i <= j <= |s| && (j < |s| ==> !IsSpace(s[j]))
    ensures forall k | i <= k < j :: IsSpace(s[k])
    decreases |s| - i
  {
    if i < |s| && IsSpace(s[i]) then Skip(s, i + 1) else i
  }

  function WordEnd(s: string, i: nat): (j: nat)
    requires i <= |s|
    ensures i <= j <= |s| && (j < |s| ==> IsSpace(s[j]) || IsSymbol(s[j]))
    ensures forall k | i <= k < j :: !IsSpace(s[k]) && !IsSymbol(s[k])
    decreases |s| - i
  {
    if i < |s| && !IsSpace(s[i]) && !IsSymbol(s[i]) then WordEnd(s, i + 1) else i
  }

  /** A token: its kind, where it lies, and where the cursor is left. */
  datatype Token = Token(kind: char, q: nat, eq: nat, next: nat)

  /** A word of the buffer, cut off by a space, a symbol or the end. */
  predicate Spanned(s: string, w: Span)
  {
    && w.q < w.eq <= |s| && (w.eq < |s| ==> !IsWord(s[w.eq]))
    && forall k | w.q <= k < w.eq :: IsWord(s[k])
  }

  /** The kinds: NUL at the end, the symbol itself, '+' for two '>', 'a' for a word. */
  function Lex(s: string, i: nat): (t: Token)
    requires i <= |s| && '\0' !in s
    ensures i <= t.q <= t.eq <= t.next <= |s|
    ensures t.kind == '\0' <==> t.q == |s|
    ensures t.kind != '\0' ==> t.q < t.eq
    ensures t.kind == 'a' ==> Spanned(s, Span(t.q, t.eq))
  {
    var q := Skip(s, i);
    var c := At(s, q);
    if c == '\0' then Token('\0', q, q, q)
    else if c == '>' then
      if At(s, q + 1) == '>' then Token('+', q, q + 2, Skip(s, q + 2)) else Token('>', q, q + 1, Skip(s, q + 1))
    else if IsSymbol(c) then Token(c, q, q + 1, Skip(s, q + 1))
    else
      var eq := WordEnd(s, q);
      Token('a', q, eq, Skip(s, eq))
  }

  /** The next character that is not a space is one of toks. */
  predicate Sees(s: string, i: nat, toks: string)
    requires i <= |s|
  {
    At(s, Skip(s, i)) != '\0' && At(s, Skip(s, i)) in toks
  }

  // --------------------------------------------------------------- what the parser yields

  type Redirection = (Span, bool)
  type Parsed = Option<(Cmd<Span>, nat)>

  /** Redirections apply to the command as a whole, the last one outermost. */
  function Wrap(c: Cmd<Span>, rs: seq<Redirection>): Cmd<Span>
  {
    if rs == [] then c else Redir(Wrap(c, rs[..|rs| - 1]), rs[|rs| - 1].0, rs[|rs| - 1].1)
  }

  function After(rs: seq<Redirection>, r: Option<(seq<Redirection>, nat)>): Option<(seq<Redirection>, nat)>
  {
    if r.None? then None else Some((rs + r.value.0, r.value.1))
  }

  function ParseRedirs(s: string, i: nat): (r: Option<(seq<Redirection>, nat)>)
    requires i <= |s| && '\0' !in s
    ensures r.Some? ==> i <= r.value.1 <= |s|
    decreases |s| - i
  {
    if !Sees(s, i, "<>") then Some(([], Skip(s, i)))
    else
      var t := Lex(s, i);
      var u := Lex(s, t.next);
      if u.kind != 'a' then None
      else After([(Span(u.q, u.eq), t.kind == '<')], ParseRedirs(s, u.next))
  }

  function Wrapped(c: Cmd<Span>, r: Option<(seq<Redirection>, nat)>): Parsed
  {
    if r.None? then None else Some((Wrap(c, r.value.0), r.value.1))
  }

  lemma AfterNothing(r: Option<(seq<Redirection>, nat)>)
    ensures After([], r) == r
  {
    if r.Some? { assert [] + r.value.0 == r.value.0; }
  }

  lemma AfterAfter(rs: seq<Redirection>, one: Redirection, r: Option<(seq<Redirection>, nat)>)
    ensures After(rs, After([one], r)) == After(rs + [one], r)
  {
    if r.Some? { assert rs + ([one] + r.value.0) == (rs + [one]) + r.value.0; }
  }

  type Args = Option<(seq<Span>, seq<Redirection>, nat)>

  function ArgsAfter(ws: seq<Span>, rs: seq<Redirection>, r: Args): Args
  {
    if r.None? then None else Some((ws + r.value.0, rs + r.value.1, r.value.2))
  }

  /** The words of a simple command and the redirections among them, after argc words. */
  function ParseArgs(s: string, i: nat, argc: nat): (r: Option<(seq<Span>, seq<Redirection>, nat)>)
    requires i <= |s| && '\0' !in s
    ensures r.Some? ==> i <= r.value.2 <= |s|
    decreases |s| - i
  {
    if Sees(s, i, "|)&;") then Some(([], [], Skip(s, i)))
    else
      var t := Lex(s, i);
      if t.kind == '\0' then Some(([], [], t.next))
      else if t.kind != 'a' || argc + 1 >= MAXARGS then None
      else
        match ParseRedirs(s, t.next)
        case None => None
        case Some((rs, j)) => ArgsAfter([Span(t.q, t.eq)], rs, ParseArgs(s, j, argc + 1))
  }

  lemma ArgsAfterAfter(ws: seq<Span>, rs: seq<Redirection>, w: Span, more: seq<Redirection>, r: Args)
    ensures ArgsAfter(ws, rs, ArgsAfter([w], more, r)) == ArgsAfter(ws + [w], rs + more, r)
  {
    if r.Some? {
      assert ws + ([w] + r.value.0) == (ws + [w]) + r.value.0;
      assert rs + (more + r.value.1) == (rs + more) + r.value.1;
    }
  }

  /** A simple command: the redirections before its words, then the words and those among them. */
  function Simple(rs: seq<Redirection>, a: Args): Parsed
  {
    if a.None? then None else Some((Wrap(Exec(a.value.0), rs + a.value.1), a.value.2))
  }

  function ParseExec(s: string, i: nat): (r: Parsed)
    requires i <= |s| && '\0' !in s
    ensures r.Some? ==> i <= r.value.1 <= |s|
    decreases |s| - i, 1
  {
    if Sees(s, i, "(") then ParseBlock(s, i)
    else
      match ParseRedirs(s, i)
      case None => None
      case Some((rs, j)) =>
        Simple(rs, ParseArgs(s, j, 0))
  }

  function ParseBlock(s: string, i: nat): (r: Parsed)
    requires i <= |s| && '\0' !in s && Sees(s, i, "(")
    ensures r.Some? ==> i <= r.value.1 <= |s|
    decreases |s| - i, 0
  {
    match ParseLine(s, Lex(s, i).next)
    case None => None
    case Some((c, j)) =>
      if !Sees(s, j, ")") then None
      else
        Wrapped(c, ParseRedirs(s, Lex(s, j).next))
  }

  function ParsePipe(s: string, i: nat): (r: Parsed)
    requires i <= |s| && '\0' !in s
    ensures r.Some? ==> i <= r.value.1 <= |s|
    decreases |s| - i, 2
  {
    match ParseExec(s, i)
    case None => None
    case Some((c, j)) =>
      if !Sees(s, j, "|") then Some((c, Skip(s, j)))
      else
        match ParsePipe(s, Lex(s, j).next)
        case None => None
        case Some((d, k)) => Some((Pipe(c, d), k))
  }

  function ParseBacks(c: Cmd<Span>, s: string, i: nat): (r: (Cmd<Span>, nat))
    requires i <= |s| && '\0' !in s
    ensures i <= r.1 <= |s|
    decreases |s| - i
  {
    if Sees(s, i, "&") then ParseBacks(Back(c), s, Lex(s, i).next) else (c, Skip(s, i))
  }

  function ParseLine(s: string, i: nat): (r: Parsed)
    requires i <= |s| && '\0' !in s
    ensures r.Some? ==> i <= r.value.1 <= |s|
    decreases |s| - i, 3
  {
    match ParsePipe(s, i)
    case None => None
    case Some((c, j)) =>
      var (d, k) := ParseBacks(c, s, j);
      if !Sees(s, k, ";") then Some((d, Skip(s, k)))
      else
        match ParseLine(s, Lex(s, k).next)
        case None => None
        case Some((e, m)) => Some((List(d, e), m))
  }

  /** The whole input has to be used up. */
  function Parse(s: string): (r: Option<Cmd<Span>>)
    requires '\0' !in s
  {
    match ParseLine(s, 0)
    case None => None
    case Some((c, i)) => if Skip(s, i) == |s| then Some(c) else None
  }

  // --------------------------------------------------------------- the routines

  method SkipSpaces(s: string, i: nat) returns (j: nat)
    requires i <= |s|
    ensures j == Skip(s, i)
  {
    j := i;
    while j < |s| && IsSpace(s[j])
      invariant i <= j <= |s| && Skip(s, j) == Skip(s, i)
    {
      j := j + 1;
    }
  }

  method GetToken(s: string, i: nat) returns (t: Token)
    requires i <= |s| && '\0' !in s
    ensures t == Lex(s, i)
  {
    var q := SkipSpaces(s, i);
    var p, kind := q, At(s, q);
    match kind {
      case '\0' =>
      case '|' | '(' | ')' | ';' | '&' | '<' =>
        p := p + 1;
      case '>' =>
        p := p + 1;
        if At(s, p) == '>' {
          kind, p := '+', p + 1;
        }
      case _ =>
        kind := 'a';
        while p < |s| && !IsSpace(s[p]) && !IsSymbol(s[p])
          invariant q <= p <= |s| && WordEnd(s, p) == WordEnd(s, q)
        {
          p := p + 1;
        }
    }
    var next := SkipSpaces(s, p);
    t := Token(kind, q, p, next);
  }

  method Peek(s: string, i: nat, toks: string) returns (j: nat, seen: bool)
    requires i <= |s|
    ensures j == Skip(s, i) && (seen <==> Sees(s, i, toks))
  {
    j := SkipSpaces(s, i);
    seen := At(s, j) != '\0' && At(s, j) in toks;
  }

  /** The cursor may be moved over spaces first. */
  lemma SkipTwice(s: string, i: nat)
    requires i <= |s|
    ensures Skip(s, Skip(s, i)) == Skip(s, i)
    ensures forall toks :: Sees(s, Skip(s, i), toks) == Sees(s, i, toks)
    ensures '\0' !in s ==> Lex(s, Skip(s, i)) == Lex(s, i)
  {
  }

  /** parseredirs: wraps cmd in the redirections that follow. */
  method Redirs(cmd: Cmd<Span>, s: string, i: nat) returns (r: Parsed)
    requires i <= |s| && '\0' !in s
    ensures r == Wrapped(cmd, ParseRedirs(s, i))
  {
    hide Lex, Skip, Sees;
    var c, p := cmd, i;
    ghost var rs: seq<Redirection> := [];
    var seen: bool;
    AfterNothing(ParseRedirs(s, i));
    while true
      invariant i <= p <= |s| && c == Wrap(cmd, rs)
      invariant ParseRedirs(s, i) == After(rs, ParseRedirs(s, p))
      decreases |s| - p
    {
      SkipTwice(s, p);
      p, seen := Peek(s, p, "<>");
      if !seen {
        assert rs + [] == rs;
        return Some((c, p));
      }
      var tok := GetToken(s, p);
      var word := GetToken(s, tok.next);
      if word.kind != 'a' { return None; }
      ghost var one: Redirection := (Span(word.q, word.eq), tok.kind == '<');
      AfterAfter(rs, one, ParseRedirs(s, word.next));
      c := Redir(c, Span(word.q, word.eq), tok.kind == '<');
      assert (rs + [one])[..|rs|] == rs;
      rs := rs + [one];
      p := word.next;
    }
  }

  lemma {:induction false} WrapWrap(c: Cmd<Span>, rs: seq<Redirection>, more: seq<Redirection>)
    ensures Wrap(Wrap(c, rs), more) == Wrap(c, rs + more)
  {
    if more == [] {
      assert rs + more == rs;
    } else {
      WrapWrap(c, rs, more[..|more| - 1]);
      assert (rs + more)[..|rs + more| - 1] == rs + more[..|more| - 1];
    }
  }

  /** The exec node was made before its redirections; the words are put into it later. */
  function Fill(c: Cmd<Span>, ws: seq<Span>): Cmd<Span>
  {
    if c.Redir? then Redir(Fill(c.cmd, ws), c.file, c.input) else Exec(ws)
  }

  lemma {:induction false} FillWrap(rs: seq<Redirection>, ws: seq<Span>)
    ensures Fill(Wrap(Exec([]), rs), ws) == Wrap(Exec(ws), rs)
  {
    if rs != [] { FillWrap(rs[..|rs| - 1], ws); }
  }

  lemma ArgsAfterNothing(r: Args)
    ensures ArgsAfter([], [], r) == r
  {
    if r.Some? { assert [] + r.value.0 == r.value.0 && [] + r.value.1 == r.value.1; }
  }

  /** The loop of parseexec: words, each with the redirections behind it. */
  method Words(cmd: Cmd<Span>, s: string, start: nat, ghost rs: seq<Redirection>) returns (r: Parsed)
    requires start <= |s| && '\0' !in s && cmd == Wrap(Exec([]), rs)
    ensures r == Simple(rs, ParseArgs(s, start, 0))
  {
    hide Lex, Skip, Sees, ParseRedirs, Wrap, Fill, Spanned;
    var ret, words, p, seen := cmd, [], start, false;
    ghost var inner: seq<Redirection> := [];
    ArgsAfterNothing(ParseArgs(s, p, 0));
    assert rs + inner == rs;
    while true
      invariant start <= p <= |s| && |words| < MAXARGS
      invariant ret == Wrap(Exec([]), rs + inner)
      invariant ParseArgs(s, start, 0) == ArgsAfter(words, inner, ParseArgs(s, p, |words|))
      decreases |s| - p
    {
      SkipTwice(s, p);
      p, seen := Peek(s, p, "|)&;");
      if seen { break; }
      var tok := GetToken(s, p);
      if tok.kind == '\0' {
        p := tok.next;
        break;
      }
      if tok.kind != 'a' || |words| + 1 >= MAXARGS { return None; }
      r := Redirs(ret, s, tok.next);
      if r.None? { return; }
      ghost var more := ParseRedirs(s, tok.next).value.0;
      WrapWrap(Exec([]), rs + inner, more);
      assert rs + inner + more == rs + (inner + more);
      ArgsAfterAfter(words, inner, Span(tok.q, tok.eq), more, ParseArgs(s, r.value.1, |words| + 1));
      ret, words, inner := r.value.0, words + [Span(tok.q, tok.eq)], inner + more;
      p := r.value.1;
    }
    assert words + [] == words && inner + [] == inner;
    assert ParseArgs(s, start, 0) == Some((words, inner, p));
    FillWrap(rs + inner, words);
    r := Some((Fill(ret, words), p));
  }

  lemma RedirsSkip(s: string, i: nat)
    requires i <= |s| && '\0' !in s
    ensures ParseRedirs(s, Skip(s, i)) == ParseRedirs(s, i)
  {
    hide Lex, Skip, Sees;
    SkipTwice(s, i);
  }

  /** parseexec: a block, or words and redirections in any order. */
  method ExecCmd(s: string, i: nat) returns (r: Parsed)
    requires i <= |s| && '\0' !in s
    ensures r == ParseExec(s, i)
    decreases |s| - i, 1
  {
    hide Lex, Skip, Sees, ParseRedirs, ParseLine, ParseArgs;
    SkipTwice(s, i);
    RedirsSkip(s, i);
    var p, seen := Peek(s, i, "(");
    if seen {
      r := Block(s, p);
      return;
    }
    r := Redirs(Exec([]), s, p);
    if r.None? { return; }
    r := Words(r.value.0, s, r.value.1, ParseRedirs(s, p).value.0);
  }

  lemma LexMoves(s: string, i: nat, toks: string)
    requires i <= |s| && '\0' !in s && Sees(s, i, toks)
    ensures Lex(s, i).next > i
  {
  }

  method Block(s: string, i: nat) returns (r: Parsed)
    requires i <= |s| && '\0' !in s && Sees(s, i, "(")
    ensures r == ParseBlock(s, i)
    decreases |s| - i, 0
  {
    hide Skip, Sees, ParseLine, ParseRedirs;
    var tok := GetToken(s, i);
    LexMoves(s, i, "(");
    r := Line(s, tok.next);
    if r.None? { return; }
    var c, p := r.value.0, r.value.1;
    SkipTwice(s, p);
    var seen: bool;
    p, seen := Peek(s, p, ")");
    if !seen { return None; }
    tok := GetToken(s, p);
    r := Redirs(c, s, tok.next);
  }

  method PipeCmd(s: string, i: nat) returns (r: Parsed)
    requires i <= |s| && '\0' !in s
    ensures r == ParsePipe(s, i)
    decreases |s| - i, 2
  {
    hide Skip, Sees, ParseExec, Lex;
    r := ExecCmd(s, i);
    if r.None? { return; }
    var c, p := r.value.0, r.value.1;
    SkipTwice(s, p);
    ghost var at := p;
    var seen: bool;
    p, seen := Peek(s, p, "|");
    if !seen { return Some((c, p)); }
    LexMoves(s, at, "|");
    var tok := GetToken(s, p);
    r := PipeCmd(s, tok.next);
    if r.Some? { r := Some((Pipe(c, r.value.0), r.value.1)); }
  }

  lemma BacksSkip(c: Cmd<Span>, s: string, i: nat)
    requires i <= |s| && '\0' !in s
    ensures ParseBacks(c, s, Skip(s, i)) == ParseBacks(c, s, i)
  {
    hide Lex, Skip, Sees;
    SkipTwice(s, i);
  }

  method Line(s: string, i: nat) returns (r: Parsed)
    requires i <= |s| && '\0' !in s
    ensures r == ParseLine(s, i)
    decreases |s| - i, 3
  {
    hide Skip, Sees, ParsePipe, Lex;
    r := PipeCmd(s, i);
    if r.None? { return; }
    var c, p := r.value.0, r.value.1;
    ghost var c0, p0 := c, p;
    var seen: bool;
    while true
      invariant i <= p <= |s| && ParseBacks(c0, s, p0) == ParseBacks(c, s, p)
      decreases |s| - p
    {
      SkipTwice(s, p);
      BacksSkip(c, s, p);
      p, seen := Peek(s, p, "&");
      if !seen { break; }
      LexMoves(s, p, "&");
      var tok := GetToken(s, p);
      c, p := Back(c), tok.next;
    }
    SkipTwice(s, p);
    ghost var at := p;
    p, seen := Peek(s, p, ";");
    if !seen { return Some((c, p)); }
    LexMoves(s, at, ";");
    var tok := GetToken(s, p);
    r := Line(s, tok.next);
    if r.Some? { r := Some((List(c, r.value.0), r.value.1)); }
  }

  // --------------------------------------------------------------- pointers into the buffer

  /** Every pointer of the tree marks a whole word of the input. */
  predicate Marks(s: string, c: Cmd<Span>)
  {
    match c
    case Exec(argv) => forall i | 0 <= i < |argv| :: Spanned(s, argv[i])
    case Redir(d, file, _) => Spanned(s, file) && Marks(s, d)
    case Pipe(l, r) => Marks(s, l) && Marks(s, r)
    case List(l, r) => Marks(s, l) && Marks(s, r)
    case Back(d) => Marks(s, d)
  }

  predicate AllSpanned(s: string, rs: seq<Redirection>) { forall i | 0 <= i < |rs| :: Spanned(s, rs[i].0) }

  lemma {:induction false} WrapMarks(s: string, c: Cmd<Span>, rs: seq<Redirection>)
    requires Marks(s, c) && AllSpanned(s, rs)
    ensures Marks(s, Wrap(c, rs))
  {
    if rs != [] { WrapMarks(s, c, rs[..|rs| - 1]); }
  }

  lemma {:induction false} RedirsMark(s: string, i: nat)
    requires i <= |s| && '\0' !in s
    ensures ParseRedirs(s, i).Some? ==> AllSpanned(s, ParseRedirs(s, i).value.0)
    decreases |s| - i
  {
    hide Lex, Skip, Spanned;
    if Sees(s, i, "<>") {
      var u := Lex(s, Lex(s, i).next);
      if u.kind == 'a' { RedirsMark(s, u.next); }
    }
  }

  lemma {:induction false} ArgsMark(s: string, i: nat, argc: nat)
    requires i <= |s| && '\0' !in s
    ensures var r := ParseArgs(s, i, argc);
      r.Some? ==>
        && AllSpanned(s, r.value.1) && (forall k | 0 <= k < |r.value.0| :: Spanned(s, r.value.0[k]))
        && (argc < MAXARGS ==> |r.value.0| + argc < MAXARGS)
    decreases |s| - i
  {
    hide Lex, Skip, Spanned, ParseRedirs;
    var t := Lex(s, i);
    if !Sees(s, i, "|)&;") && t.kind == 'a' && argc + 1 < MAXARGS {
      RedirsMark(s, t.next);
      var rs := ParseRedirs(s, t.next);
      if rs.Some? { ArgsMark(s, rs.value.1, argc + 1); }
    }
  }

  lemma {:induction false} ExecMarks(s: string, i: nat)
    requires i <= |s| && '\0' !in s
    ensures ParseExec(s, i).Some? ==> Marks(s, ParseExec(s, i).value.0)
    decreases |s| - i, 1
  {
    hide Lex, Skip, Spanned, ParseRedirs, ParseArgs, Sees;
    if Sees(s, i, "(") {
      BlockMarks(s, i);
    } else {
      RedirsMark(s, i);
      var rs := ParseRedirs(s, i);
      if rs.Some? {
        ArgsMark(s, rs.value.1, 0);
        var a := ParseArgs(s, rs.value.1, 0);
        if a.Some? { WrapMarks(s, Exec(a.value.0), rs.value.0 + a.value.1); }
      }
    }
  }

  lemma {:induction false} BlockMarks(s: string, i: nat)
    requires i <= |s| && '\0' !in s && Sees(s, i, "(")
    ensures ParseBlock(s, i).Some? ==> Marks(s, ParseBlock(s, i).value.0)
    decreases |s| - i, 0
  {
    hide Lex, Skip, Spanned, ParseRedirs, Sees, ParseLine;
    LexMoves(s, i, "(");
    LineMarks(s, Lex(s, i).next);
    var r := ParseLine(s, Lex(s, i).next);
    if r.Some? && Sees(s, r.value.1, ")") {
      RedirsMark(s, Lex(s, r.value.1).next);
      var rs := ParseRedirs(s, Lex(s, r.value.1).next);
      if rs.Some? { WrapMarks(s, r.value.0, rs.value.0); }
    }
  }

  lemma {:induction false} PipeMarks(s: string, i: nat)
    requires i <= |s| && '\0' !in s
    ensures ParsePipe(s, i).Some? ==> Marks(s, ParsePipe(s, i).value.0)
    decreases |s| - i, 2
  {
    hide Lex, Skip, Spanned, Sees, ParseExec;
    ExecMarks(s, i);
    var r := ParseExec(s, i);
    if r.Some? && Sees(s, r.value.1, "|") {
      LexMoves(s, r.value.1, "|");
      PipeMarks(s, Lex(s, r.value.1).next);
    }
  }

  lemma {:induction false} BacksMark(c: Cmd<Span>, s: string, i: nat)
    requires i <= |s| && '\0' !in s && Marks(s, c)
    ensures Marks(s, ParseBacks(c, s, i).0)
    decreases |s| - i
  {
    hide Lex, Skip, Spanned, Sees;
    if Sees(s, i, "&") {
      LexMoves(s, i, "&");
      BacksMark(Back(c), s, Lex(s, i).next);
    }
  }

  /** Whatever the input, the pointers of a successful parse mark whole words. */
  lemma {:induction false} LineMarks(s: string, i: nat)
    requires i <= |s| && '\0' !in s
    ensures ParseLine(s, i).Some? ==> Marks(s, ParseLine(s, i).value.0)
    decreases |s| - i, 3
  {
    hide Lex, Skip, Spanned, Sees, ParsePipe;
    PipeMarks(s, i);
    var r := ParsePipe(s, i);
    if r.Some? {
      BacksMark(r.value.0, s, r.value.1);
      var (d, k) := ParseBacks(r.value.0, s, r.value.1);
      if Sees(s, k, ";") {
        LexMoves(s, k, ";");
        LineMarks(s, Lex(s, k).next);
      }
    }
  }

  // --------------------------------------------------------------- NUL-terminating

  function Text(s: string, w: Span): string { if w.q <= w.eq <= |s| then s[w.q..w.eq] else "" }

  /** The tree the spans stand for. */
  function Denote(s: string, c: Cmd<Span>): Cmd<string>
  {
    match c
    case Exec(argv) => Exec(seq(|argv|, i requires 0 <= i < |argv| => Text(s, argv[i])))
    case Redir(d, file, input) => Redir(Denote(s, d), Text(s, file), input)
    case Pipe(l, r) => Pipe(Denote(s, l), Denote(s, r))
    case List(l, r) => List(Denote(s, l), Denote(s, r))
    case Back(d) => Back(Denote(s, d))
  }

  /** The C string at a pointer: up to the next NUL. */
  function CString(b: string, q: nat): string
    decreases |b| - q
  {
    if q >= |b| || b[q] == '\0' then "" else [b[q]] + CString(b, q + 1)
  }

  /** The tree as the rest of the shell sees it, through the start pointers alone. */
  function Seen(b: string, c: Cmd<Span>): Cmd<string>
  {
    match c
    case Exec(argv) => Exec(seq(|argv|, i requires 0 <= i < |argv| => CString(b, argv[i].q)))
    case Redir(d, file, input) => Redir(Seen(b, d), CString(b, file.q), input)
    case Pipe(l, r) => Pipe(Seen(b, l), Seen(b, r))
    case List(l, r) => List(Seen(b, l), Seen(b, r))
    case Back(d) => Back(Seen(b, d))
  }

  /** The places nulterminate writes to. */
  predicate IsEnd(c: Cmd<Span>, k: nat)
  {
    match c
    case Exec(argv) => exists i | 0 <= i < |argv| :: argv[i].eq == k
    case Redir(d, file, _) => IsEnd(d, k) || file.eq == k
    case Pipe(l, r) => IsEnd(l, k) || IsEnd(r, k)
    case List(l, r) => IsEnd(l, k) || IsEnd(r, k)
    case Back(d) => IsEnd(d, k)
  }

  predicate EndsBelow(c: Cmd<Span>, n: nat)
  {
    match c
    case Exec(argv) => forall i | 0 <= i < |argv| :: argv[i].eq < n
    case Redir(d, file, _) => EndsBelow(d, n) && file.eq < n
    case Pipe(l, r) => EndsBelow(l, n) && EndsBelow(r, n)
    case List(l, r) => EndsBelow(l, n) && EndsBelow(r, n)
    case Back(d) => EndsBelow(d, n)
  }

  lemma {:induction false} MarksBelow(s: string, c: Cmd<Span>)
    requires Marks(s, c)
    ensures EndsBelow(c, |s| + 1)
  {
    match c
    case Exec(argv) =>
    case Redir(d, file, _) => MarksBelow(s, d);
    case Pipe(l, r) => MarksBelow(s, l); MarksBelow(s, r);
    case List(l, r) => MarksBelow(s, l); MarksBelow(s, r);
    case Back(d) => MarksBelow(s, d);
  }

  /** No end of a word falls inside a word. */
  lemma {:induction false} EndsOutside(s: string, c: Cmd<Span>, k: nat)
    requires Marks(s, c) && IsEnd(c, k)
    ensures k <= |s| && (k < |s| ==> !IsWord(s[k]))
  {
    match c
    case Exec(argv) =>
    case Redir(d, file, _) => if IsEnd(d, k) { EndsOutside(s, d, k); }
    case Pipe(l, r) => if IsEnd(l, k) { EndsOutside(s, l, k); } else { EndsOutside(s, r, k); }
    case List(l, r) => if IsEnd(l, k) { EndsOutside(s, l, k); } else { EndsOutside(s, r, k); }
    case Back(d) => EndsOutside(s, d, k);
  }

  lemma {:induction false} CStringIs(b: string, q: nat, eq: nat)
    requires q <= eq < |b| && b[eq] == '\0' && forall k | q <= k < eq :: b[k] != '\0'
    ensures CString(b, q) == b[q..eq]
    decreases eq - q
  {
    if q < eq {
      CStringIs(b, q + 1, eq);
      assert b[q..eq] == [b[q]] + b[q + 1..eq];
    }
  }

  /** One word of a buffer in which only ends of words have been overwritten. */
  lemma WordSeen(s: string, b: string, w: Span)
    requires Spanned(s, w) && |b| == |s| + 1 && b[w.eq] == '\0'
    requires forall k | 0 <= k < |s| && IsWord(s[k]) :: b[k] == s[k]
    ensures CString(b, w.q) == Text(s, w)
  {
    CStringIs(b, w.q, w.eq);
    assert b[w.q..w.eq] == s[w.q..w.eq];
  }

  lemma SpanBounds(s: string, w: Span)
    requires Spanned(s, w)
    ensures w.q < w.eq <= |s|
  {
  }

  /** Once every end is a NUL and every word is intact, the pointers denote exactly their words. */
  lemma {:induction false} SeenIsDenoted(s: string, b: string, c: Cmd<Span>)
    requires Marks(s, c) && |b| == |s| + 1
    requires forall k | 0 <= k < |s| && IsWord(s[k]) :: b[k] == s[k]
    requires forall k | 0 <= k <= |s| && IsEnd(c, k) :: b[k] == '\0'
    ensures Seen(b, c) == Denote(s, c)
  {
    hide Spanned, CString, Text;
    match c
    case Exec(argv) =>
      forall i | 0 <= i < |argv| ensures CString(b, argv[i].q) == Text(s, argv[i]) {
        SpanBounds(s, argv[i]);
        assert IsEnd(c, argv[i].eq);
        WordSeen(s, b, argv[i]);
      }
    case Redir(d, file, _) =>
      SpanBounds(s, file);
      assert IsEnd(c, file.eq);
      WordSeen(s, b, file);
      SeenIsDenoted(s, b, d);
    case Pipe(l, r) =>
      SeenIsDenoted(s, b, l);
      SeenIsDenoted(s, b, r);
    case List(l, r) =>
      SeenIsDenoted(s, b, l);
      SeenIsDenoted(s, b, r);
    case Back(d) =>
      SeenIsDenoted(s, b, d);
  }

  /** nulterminate: a NUL at every end, and nowhere else. */
  method Nulterminate(cmd: Cmd<Span>, b: array<char>)
    requires EndsBelow(cmd, b.Length)
    modifies b
    ensures forall k | 0 <= k < b.Length :: b[k] == if IsEnd(cmd, k) then '\0' else old(b[k])
    decreases cmd
  {
    match cmd
    case Exec(argv) =>
      for i := 0 to |argv|
        invariant forall k | 0 <= k < b.Length ::
          b[k] == if exists j | 0 <= j < i :: argv[j].eq == k then '\0' else old(b[k])
      {
        assert IsEnd(cmd, argv[i].eq);
        b[argv[i].eq] := '\0';
      }
    case Redir(d, file, _) =>
      assert IsEnd(cmd, file.eq);
      Nulterminate(d, b);
      b[file.eq] := '\0';
    case Pipe(l, r) =>
      Nulterminate(l, b);
      Nulterminate(r, b);
    case List(l, r) =>
      Nulterminate(l, b);
      Nulterminate(r, b);
    case Back(d) =>
      Nulterminate(d, b);
  }

  /** parsecmd: on success the buffer has been cut up so that every argv and file pointer denotes
      exactly its own token. */
  method ParseCmd(b: array<char>) returns (r: Option<Cmd<Span>>)
    requires b.Length > 0 && b[b.Length - 1] == '\0' && '\0' !in b[..b.Length - 1]
    modifies b
    ensures r == Parse(old(b[..b.Length - 1]))
    ensures r.Some? ==> Seen(b[..], r.value) == Denote(old(b[..b.Length - 1]), r.value)
  {
    hide Skip, ParseLine, Marks, IsEnd, Seen, Denote;
    ghost var s := b[..b.Length - 1];
    var n := b.Length - 1;
    var line := Line(b[..n], 0);
    if line.None? { return None; }
    var p := SkipSpaces(b[..n], line.value.1);
    if p != n { return None; }
    r := Some(line.value.0);
    LineMarks(s, 0);
    MarksBelow(s, r.value);
    forall k: nat | IsEnd(r.value, k) ensures k < |s| ==> !IsWord(s[k]) { EndsOutside(s, r.value, k); }
    Nulterminate(r.value, b);
    SeenIsDenoted(s, b[..], r.value);
  }

  // --------------------------------------------------------------- every tree can be written down

  predicate GoodWord(w: string) { w != "" && forall k | 0 <= k < |w| :: IsWord(w[k]) }

  predicate Good(t: Cmd<string>)
  {
    match t
    case Exec(argv) => |argv| < MAXARGS && forall i | 0 <= i < |argv| :: GoodWord(argv[i])
    case Redir(d, file, _) => GoodWord(file) && Good(d)
    case Pipe(l, r) => Good(l) && Good(r)
    case List(l, r) => Good(l) && Good(r)
    case Back(d) => Good(d)
  }

  function Join(ws: seq<string>): string { if ws == [] then "" else ws[0] + " " + Join(ws[1..]) }

  function Paren(x: string): string { "( " + x + ") " }

  /** How tightly the outermost operator binds: `;` least, then `&`, then `|`, then redirections. */
  function Level(t: Cmd<string>): nat
  {
    match t
    case List(_, _) => 0
    case Back(_) => 1
    case Pipe(_, _) => 2
    case _ => 3
  }

  /** The text of a tree: a space behind every token, parentheses only around an operand whose operator
      binds less tightly than its place asks for. */
  function Render(t: Cmd<string>, level: nat): string
    decreases t, 1
  {
    if Level(t) < level then Paren(Bare(t)) else Bare(t)
  }

  function Bare(t: Cmd<string>): string
    decreases t, 0
  {
    match t
    case Exec(argv) => Join(argv)
    case Redir(d, file, input) => Render(d, 3) + [if input then '<' else '>', ' '] + (file + " ")
    case Pipe(l, r) => Render(l, 3) + ['|', ' '] + Render(r, 2)
    case List(l, r) => Render(l, 1) + [';', ' '] + Render(r, 0)
    case Back(d) => Render(d, 1) + ['&', ' '] + ""
  }

  predicate Has(s: string, i: nat, x: string) { i + |x| <= |s| && s[i..i + |x|] == x }

  lemma HasSplit(s: string, i: nat, x: string, y: string)
    requires Has(s, i, x + y)
    ensures Has(s, i, x) && Has(s, i + |x|, y)
  {
    var z := s[i..i + |x| + |y|];
    assert z[..|x|] == x && z[|x|..] == y;
    assert z[..|x|] == s[i..i + |x|] && z[|x|..] == s[i + |x|..i + |x| + |y|];
  }

  lemma HasAt(s: string, i: nat, x: string, k: nat)
    requires Has(s, i, x) && k < |x|
    ensures s[i + k] == x[k]
  {
    assert s[i..i + |x|][k] == x[k];
  }

  lemma HasPieces(s: string, i: nat, x: string, c: char, y: string)
    requires Has(s, i, x + [c, ' '] + y)
    ensures var m := i + |x|; Has(s, i, x) && m + 2 <= |s| && s[m] == c && s[m + 1] == ' ' && Has(s, m + 2, y)
  {
    HasSplit(s, i, x + [c, ' '], y);
    HasSplit(s, i, x, [c, ' ']);
    HasAt(s, i + |x|, [c, ' '], 0);
    HasAt(s, i + |x|, [c, ' '], 1);
  }

  /** The end of the text, or one of the given symbols. */
  predicate Follows(s: string, k: nat, symbols: string) { k == |s| || (k < |s| && s[k] in symbols && IsSymbol(s[k])) }

  lemma FollowsFacts(s: string, k: nat, symbols: string)
    requires '\0' !in s && Follows(s, k, symbols)
    ensures Skip(s, k) == k && forall toks :: Sees(s, k, toks) <==> k < |s| && s[k] in toks
  {
  }

  lemma SkipSpace(s: string, i: nat)
    requires i < |s| && s[i] == ' '
    ensures Skip(s, i) == Skip(s, i + 1)
  {
  }

  /** A one-character symbol that is not the start of a `>>`. */
  lemma SymbolAt(s: string, i: nat, c: char)
    requires '\0' !in s && i < |s| && s[i] == c && IsSymbol(c) && (c == '>' ==> i + 1 < |s| && s[i + 1] != '>')
    ensures Skip(s, i) == i && Lex(s, i) == Token(c, i, i + 1, Skip(s, i + 1))
    ensures forall toks :: Sees(s, i, toks) <==> c in toks
  {
  }

  /** A rendering starts with something other than a space, or is empty. */
  lemma {:induction false} FirstChar(t: Cmd<string>, level: nat)
    requires Good(t)
    ensures Render(t, level) == "" || !IsSpace(Render(t, level)[0])
  {
    match t
    case Exec(argv) =>
    case Redir(d, _, _) => FirstChar(d, 3);
    case Pipe(l, _) => FirstChar(l, 3);
    case List(l, _) => FirstChar(l, 1);
    case Back(d) => FirstChar(d, 1);
  }

  lemma FirstOf(t: Cmd<string>, level: nat, s: string, i: nat)
    requires Good(t) && Has(s, i, Render(t, level))
    requires var k := i + |Render(t, level)|; k < |s| ==> !IsSpace(s[k])
    ensures Skip(s, i) == i
  {
    hide Render;
    FirstChar(t, level);
    if Render(t, level) != "" { HasAt(s, i, Render(t, level), 0); }
  }

  lemma {:induction false} WordEndIs(s: string, i: nat, j: nat)
    requires i <= j < |s| && IsSpace(s[j]) && forall k | i <= k < j :: IsWord(s[k])
    ensures WordEnd(s, i) == j
    decreases j - i
  {
    if i < j { WordEndIs(s, i + 1, j); }
  }

  lemma WordAt(s: string, i: nat, w: string)
    requires '\0' !in s && Has(s, i, w + " ") && GoodWord(w)
    ensures !Sees(s, i, "|)&;") && !Sees(s, i, "<>") && !Sees(s, i, "(")
    ensures Lex(s, i) == Token('a', i, i + |w|, Skip(s, i + |w| + 1)) && s[i..i + |w|] == w
  {
    HasSplit(s, i, w, " ");
    HasAt(s, i + |w|, " ", 0);
    forall k | 0 <= k < |w| ensures s[i + k] == w[k] { HasAt(s, i, w, k); }
    WordEndIs(s, i, i + |w|);
    SkipSpace(s, i + |w|);
    assert s[i] == w[0];
  }

  lemma NoRedirs(s: string, k: nat)
    requires k <= |s| && '\0' !in s && !Sees(s, k, "<>")
    ensures ParseRedirs(s, k) == Some(([], Skip(s, k)))
  {
  }

  lemma FirstOfWord(s: string, i: nat, w: string)
    requires GoodWord(w) && Has(s, i, w + " ")
    ensures Skip(s, i) == i
  {
    HasAt(s, i, w + " ", 0);
  }

  lemma TextOf(s: string, i: nat, w: string)
    requires Has(s, i, w + " ")
    ensures Text(s, Span(i, i + |w|)) == w
  {
    HasSplit(s, i, w, " ");
  }

  lemma ArgsUnroll(s: string, i: nat, argc: nat, w: string, rs: seq<Redirection>, j: nat)
    requires '\0' !in s && Has(s, i, w + " ") && GoodWord(w)
    requires argc + 1 < MAXARGS && Skip(s, i + |w| + 1) == i + |w| + 1
    requires ParseRedirs(s, i + |w| + 1) == Some((rs, j))
    ensures ParseArgs(s, i, argc) == ArgsAfter([Span(i, i + |w|)], rs, ParseArgs(s, j, argc + 1))
  {
    hide Lex, Skip, Sees, ArgsAfter, GoodWord, Has, ParseRedirs;
    WordAt(s, i, w);
  }

  /** A word that others follow. */
  lemma ArgsStep(s: string, i: nat, argc: nat, w: string)
    requires '\0' !in s && Has(s, i, w + " ") && GoodWord(w) && argc + 1 < MAXARGS
    requires var j := i + |w| + 1; Skip(s, j) == j && !Sees(s, j, "<>")
    ensures ParseArgs(s, i, argc) == ArgsAfter([Span(i, i + |w|)], [], ParseArgs(s, i + |w| + 1, argc + 1))
  {
    hide Lex, Skip, Sees, ArgsAfter, GoodWord, Has, ParseArgs, ParseRedirs;
    HasSplit(s, i, w, " ");
    NoRedirs(s, i + |w| + 1);
    ArgsUnroll(s, i, argc, w, [], i + |w| + 1);
  }

  lemma EndArgs(s: string, j: nat, argc: nat)
    requires '\0' !in s && Follows(s, j, ")|&;")
    ensures ParseArgs(s, j, argc) == Some(([], [], j))
  {
    FollowsFacts(s, j, ")|&;");
  }

  /** The last word, with the redirections behind it. */
  lemma LastArg(s: string, i: nat, argc: nat, w: string, rs: seq<Redirection>, j: nat)
    requires '\0' !in s && Has(s, i, w + " ") && GoodWord(w)
    requires argc + 1 < MAXARGS && Skip(s, i + |w| + 1) == i + |w| + 1
    requires ParseRedirs(s, i + |w| + 1) == Some((rs, j)) && Follows(s, j, ")|&;")
    ensures ParseArgs(s, i, argc) == Some(([Span(i, i + |w|)], rs, j))
  {
    hide Lex, Skip, Sees, GoodWord, Has, ParseArgs, ParseRedirs, Follows;
    ArgsUnroll(s, i, argc, w, rs, j);
    EndArgs(s, j, argc + 1);
    assert [Span(i, i + |w|)] + [] == [Span(i, i + |w|)] && rs + [] == rs;
  }

  lemma JoinStarts(ws: seq<string>, s: string, i: nat)
    requires '\0' !in s && ws != [] && Good(Exec(ws)) && Has(s, i, Join(ws))
    ensures Has(s, i, ws[0] + " ") && Has(s, i + |ws[0]| + 1, Join(ws[1..]))
    ensures Skip(s, i) == i && !Sees(s, i, "<>") && !Sees(s, i, "(")
  {
    hide Skip, Sees, Has, Lex, GoodWord;
    HasSplit(s, i, ws[0] + " ", Join(ws[1..]));
    WordAt(s, i, ws[0]);
    FirstOfWord(s, i, ws[0]);
  }

  /** The words of a simple command are read one by one, and the redirections behind them with the last. */
  lemma {:induction false} ArgsRead(ws: seq<string>, s: string, i: nat, argc: nat, rs: seq<Redirection>, j: nat)
    requires '\0' !in s && ws != [] && Good(Exec(ws)) && Has(s, i, Join(ws)) && argc + |ws| < MAXARGS
    requires var k := i + |Join(ws)|; Skip(s, k) == k && ParseRedirs(s, k) == Some((rs, j))
    requires Follows(s, j, ")|&;")
    ensures var r := ParseArgs(s, i, argc);
      && r.Some? && r.value.1 == rs && r.value.2 == j && |r.value.0| == |ws|
      && (forall k | 0 <= k < |ws| :: Text(s, r.value.0[k]) == ws[k])
    decreases |ws|
  {
    hide Lex, Skip, Sees, ParseArgs, ParseRedirs, GoodWord, Text, Follows, Has;
    var w, rest := ws[0], ws[1..];
    JoinStarts(ws, s, i);
    TextOf(s, i, w);
    if rest == [] {
      LastArg(s, i, argc, w, rs, j);
    } else {
      var m := i + |w| + 1;
      JoinStarts(rest, s, m);
      ArgsStep(s, i, argc, w);
      ArgsRead(rest, s, m, argc + 1, rs, j);
      assert [] + rs == rs;
    }
  }

  /** A simple command and the redirections behind it. */
  lemma WordsRead(ws: seq<string>, s: string, i: nat, rs: seq<Redirection>, j: nat) returns (c: Cmd<Span>)
    requires '\0' !in s && Good(Exec(ws)) && Has(s, i, Join(ws))
    requires var k := i + |Join(ws)|; Skip(s, k) == k && !Sees(s, k, "(") && ParseRedirs(s, k) == Some((rs, j))
    requires Follows(s, j, ")|&;")
    ensures ParseExec(s, i) == Some((Wrap(c, rs), j)) && Denote(s, c) == Exec(ws)
  {
    hide Lex, Skip, Sees, ParseArgs, ParseRedirs, GoodWord, Wrap, Follows;
    if ws == [] {
      EndArgs(s, j, 0);
      assert rs + [] == rs;
      c := Exec([]);
    } else {
      JoinStarts(ws, s, i);
      NoRedirs(s, i);
      ArgsRead(ws, s, i, 0, rs, j);
      assert [] + rs == rs;
      c := Exec(ParseArgs(s, i, 0).value.0);
    }
    assert Denote(s, c).argv == ws;
  }

  lemma ParenPieces(s: string, i: nat, x: string)
    requires Has(s, i, Paren(x))
    ensures |Paren(x)| == |x| + 4 && i + |x| + 4 <= |s| && Has(s, i + 2, x)
    ensures s[i] == '(' && s[i + 1] == ' ' && s[i + 2 + |x|] == ')' && s[i + 3 + |x|] == ' '
  {
    HasSplit(s, i, "( " + x, ") ");
    HasSplit(s, i, "( ", x);
    HasAt(s, i, "( ", 0);
    HasAt(s, i, "( ", 1);
    HasAt(s, i + 2 + |x|, ") ", 0);
    HasAt(s, i + 2 + |x|, ") ", 1);
  }

  /** A line in parentheses, followed by whatever redirections there are. */
  lemma ParenReads(x: string, s: string, i: nat, c: Cmd<Span>)
    requires '\0' !in s && Has(s, i, Paren(x)) && Skip(s, i + 2) == i + 2
    requires ParseLine(s, i + 2) == Some((c, i + 2 + |x|))
    ensures ParseExec(s, i) == Wrapped(c, ParseRedirs(s, i + |Paren(x)|))
  {
    hide ParseLine, ParseRedirs, Sees, Skip, Lex, Has, Paren;
    var k := i + 2 + |x|;
    ParenPieces(s, i, x);
    SkipSpace(s, i + 1);
    SkipSpace(s, k + 1);
    SymbolAt(s, i, '(');
    SymbolAt(s, k, ')');
    RedirsSkip(s, k + 2);
  }

  lemma RedirStep(s: string, m: nat)
    requires m <= |s| && '\0' !in s && Sees(s, m, "<>") && Lex(s, Lex(s, m).next).kind == 'a'
    ensures var t := Lex(s, m); var u := Lex(s, t.next);
      ParseRedirs(s, m) == After([(Span(u.q, u.eq), t.kind == '<')], ParseRedirs(s, u.next))
  {
    hide Lex, Skip, Sees;
  }

  /** One redirection, and whatever others follow it. */
  lemma RedirHere(file: string, c: char, s: string, m: nat)
    requires '\0' !in s && GoodWord(file) && (c == '<' || c == '>')
    requires m + 2 <= |s| && s[m] == c && s[m + 1] == ' ' && Has(s, m + 2, file + " ")
    requires Skip(s, m + 3 + |file|) == m + 3 + |file|
    ensures Skip(s, m) == m && !Sees(s, m, "(") && Text(s, Span(m + 2, m + 2 + |file|)) == file
    ensures ParseRedirs(s, m) == After([(Span(m + 2, m + 2 + |file|), c == '<')], ParseRedirs(s, m + 3 + |file|))
  {
    hide Sees, Skip, Lex, GoodWord, Has, After, ParseRedirs, Text;
    SymbolAt(s, m, c);
    SkipSpace(s, m + 1);
    WordAt(s, m + 2, file);
    FirstOfWord(s, m + 2, file);
    TextOf(s, m + 2, file);
    RedirStep(s, m);
  }

  lemma WrapOne(c: Cmd<Span>, one: Redirection, rs: seq<Redirection>)
    ensures Wrap(c, [one] + rs) == Wrap(Redir(c, one.0, one.1), rs)
  {
    WrapWrap(c, [one], rs);
    assert [one][..0] == [];
    assert Wrap(c, [one]) == Redir(Wrap(c, []), one.0, one.1);
  }

  // Each routine of the parser reads back what was rendered for its level, up to a symbol it leaves alone.

  lemma {:induction false} ExecReads(t: Cmd<string>, s: string, i: nat, rs: seq<Redirection>, j: nat)
    returns (c: Cmd<Span>)
    requires '\0' !in s && Good(t) && Has(s, i, Render(t, 3))
    requires var k := i + |Render(t, 3)|; Skip(s, k) == k && !Sees(s, k, "(") && ParseRedirs(s, k) == Some((rs, j))
    requires Follows(s, j, ")|&;")
    ensures ParseExec(s, i) == Some((Wrap(c, rs), j)) && Denote(s, c) == t
    decreases t, if Level(t) == 3 then 0 else 9
  {
    hide ParseExec, ParseRedirs, ParseLine, Sees, Skip, Lex, Has, Wrap, Follows, Paren, GoodWord, Denote;
    match t
    case Exec(ws) => c := WordsRead(ws, s, i, rs, j);
    case Redir(d, file, input) => c := RedirReads(d, file, input, s, i, rs, j);
    case _ =>
      assert Render(t, 3) == Paren(Bare(t)) && Bare(t) == Render(t, 0);
      c := ParenCase(t, s, i);
  }

  lemma {:induction false} RedirReads(d: Cmd<string>, file: string, input: bool, s: string, i: nat,
                                      rs: seq<Redirection>, j: nat)
    returns (c: Cmd<Span>)
    requires '\0' !in s && Good(Redir(d, file, input)) && Has(s, i, Bare(Redir(d, file, input)))
    requires var k := i + |Bare(Redir(d, file, input))|; Skip(s, k) == k && ParseRedirs(s, k) == Some((rs, j))
    requires Follows(s, j, ")|&;")
    ensures ParseExec(s, i) == Some((Wrap(c, rs), j)) && Denote(s, c) == Redir(d, file, input)
    decreases d, 10
  {
    hide ParseExec, ParseRedirs, Sees, Skip, Has, Wrap, Follows, GoodWord, Text;
    var symbol := if input then '<' else '>';
    var m := i + |Render(d, 3)|;
    HasPieces(s, i, Render(d, 3), symbol, file + " ");
    RedirHere(file, symbol, s, m);
    var one: Redirection := (Span(m + 2, m + 2 + |file|), input);
    var e := ExecReads(d, s, i, [one] + rs, j);
    WrapOne(e, one, rs);
    c := Redir(e, one.0, one.1);
  }

  lemma {:induction false} ParenCase(t: Cmd<string>, s: string, i: nat) returns (c: Cmd<Span>)
    requires '\0' !in s && Good(t) && Level(t) < 3 && Has(s, i, Paren(Render(t, 0)))
    ensures ParseExec(s, i) == Wrapped(c, ParseRedirs(s, i + |Paren(Render(t, 0))|)) && Denote(s, c) == t
    decreases t, 8
  {
    hide ParseExec, ParseRedirs, ParseLine, Skip, Has, Paren, Denote, Render;
    ParenPieces(s, i, Render(t, 0));
    FirstOf(t, 0, s, i + 2);
    c := LineReads(t, s, i + 2);
    ParenReads(Render(t, 0), s, i, c);
  }

  lemma {:induction false} PipeReads(t: Cmd<string>, s: string, i: nat) returns (c: Cmd<Span>)
    requires '\0' !in s && Good(t) && Has(s, i, Render(t, 2)) && Follows(s, i + |Render(t, 2)|, ")&;")
    ensures ParsePipe(s, i) == Some((c, i + |Render(t, 2)|)) && Denote(s, c) == t
    decreases t, if Level(t) >= 2 then 1 else 10
  {
    hide ParseExec, ParseRedirs, Sees, Skip, Lex, Has;
    var k := i + |Render(t, 2)|;
    FollowsFacts(s, k, ")&;");
    if t.Pipe? {
      var m := i + |Render(t.left, 3)|;
      HasPieces(s, i, Render(t.left, 3), '|', Render(t.right, 2));
      SymbolAt(s, m, '|');
      NoRedirs(s, m);
      SkipSpace(s, m + 1);
      FirstOf(t.right, 2, s, m + 2);
      var l := ExecReads(t.left, s, i, [], m);
      var r := PipeReads(t.right, s, m + 2);
      c := Pipe(l, r);
    } else {
      NoRedirs(s, k);
      c := ExecReads(t, s, i, [], k);
    }
  }

  /** The loop over `&` comes by with this command at this place. */
  lemma {:induction false} BackReads(t: Cmd<string>, s: string, i: nat)
    returns (start: Cmd<Span>, at: nat, c: Cmd<Span>)
    requires '\0' !in s && Good(t) && Has(s, i, Render(t, 1)) && Follows(s, i + |Render(t, 1)|, ")&;")
    ensures ParsePipe(s, i) == Some((start, at)) && at <= i + |Render(t, 1)| <= |s|
    ensures ParseBacks(start, s, at) == ParseBacks(c, s, i + |Render(t, 1)|) && Denote(s, c) == t
    decreases t, if Level(t) >= 1 then 2 else 11
  {
    hide ParsePipe, Sees, Skip, Lex, Has;
    var k := i + |Render(t, 1)|;
    if t.Back? {
      var m := i + |Render(t.cmd, 1)|;
      HasPieces(s, i, Render(t.cmd, 1), '&', "");
      SymbolAt(s, m, '&');
      SkipSpace(s, m + 1);
      FollowsFacts(s, k, ")&;");
      start, at, c := BackReads(t.cmd, s, i);
      c := Back(c);
    } else {
      c := PipeReads(t, s, i);
      start, at := c, k;
    }
  }

  lemma ListAt(s: string, i: nat, m: nat, k: nat, start: Cmd<Span>, at: nat, l: Cmd<Span>, r: Cmd<Span>)
    requires '\0' !in s && i <= |s| && m < |s| && s[m] == ';' && Skip(s, m + 1) == m + 2 <= |s|
    requires at <= m && ParsePipe(s, i) == Some((start, at)) && ParseBacks(start, s, at) == ParseBacks(l, s, m)
    requires ParseLine(s, m + 2) == Some((r, k))
    ensures ParseLine(s, i) == Some((List(l, r), k))
  {
    hide ParsePipe, Sees, Skip, Lex;
    SymbolAt(s, m, ';');
    assert ParseBacks(l, s, m) == (l, m);
  }

  lemma LineEnds(s: string, i: nat, k: nat, start: Cmd<Span>, at: nat, c: Cmd<Span>)
    requires '\0' !in s && i <= |s| && Follows(s, k, ")")
    requires at <= k && ParsePipe(s, i) == Some((start, at)) && ParseBacks(start, s, at) == ParseBacks(c, s, k)
    ensures ParseLine(s, i) == Some((c, k))
  {
    hide ParsePipe, Sees, Skip, Lex;
    FollowsFacts(s, k, ")");
    assert ParseBacks(c, s, k) == (c, k);
  }

  /** The rendering of a tree parses back to it, up to the stop and no further. */
  lemma {:induction false} LineReads(t: Cmd<string>, s: string, i: nat) returns (c: Cmd<Span>)
    requires '\0' !in s && Good(t) && Has(s, i, Render(t, 0)) && Follows(s, i + |Render(t, 0)|, ")")
    ensures ParseLine(s, i) == Some((c, i + |Render(t, 0)|)) && Denote(s, c) == t
    decreases t, 3
  {
    hide ParsePipe, ParseLine, ParseBacks, Sees, Skip, Lex, Has, GoodWord;
    var k := i + |Render(t, 0)|;
    if t.List? {
      var m := i + |Render(t.left, 1)|;
      HasPieces(s, i, Render(t.left, 1), ';', Render(t.right, 0));
      SkipSpace(s, m + 1);
      FollowsFacts(s, k, ")");
      FirstOf(t.right, 0, s, m + 2);
      var start, at, l := BackReads(t.left, s, i);
      var r := LineReads(t.right, s, m + 2);
      ListAt(s, i, m, k, start, at, l, r);
      c := List(l, r);
    } else {
      var start, at;
      start, at, c := BackReads(t, s, i);
      LineEnds(s, i, k, start, at, c);
    }
  }

  lemma {:induction false} JoinNoNul(ws: seq<string>)
    requires forall k | 0 <= k < |ws| :: GoodWord(ws[k])
    ensures '\0' !in Join(ws)
  {
    if ws != [] { JoinNoNul(ws[1..]); }
  }

  lemma {:induction false} NoNul(t: Cmd<string>, level: nat)
    requires Good(t)
    ensures '\0' !in Render(t, level)
  {
    match t
    case Exec(ws) => JoinNoNul(ws);
    case Redir(d, _, _) => NoNul(d, 3);
    case Pipe(l, r) => NoNul(l, 3); NoNul(r, 2);
    case List(l, r) => NoNul(l, 1); NoNul(r, 0);
    case Back(d) => NoNul(d, 1);
  }

  /** Every command tree with at most nine words in a simple command is what its rendering parses
      to, with nothing left over. */
  lemma RoundTrip(t: Cmd<string>)
    requires Good(t)
    ensures '\0' !in Render(t, 0)
    ensures Parse(Render(t, 0)).Some? && Denote(Render(t, 0), Parse(Render(t, 0)).value) == t
  {
    hide ParseLine, Denote, Render;
    NoNul(t, 0);
    var s := Render(t, 0);
    assert s[0..0 + |s|] == s;
    var c := LineReads(t, s, 0);
    FollowsFacts(s, |s|, ")");
  }

  /** The same through parsecmd itself: the pointers it returns, read as C strings in the buffer it
      leaves behind, are the tree's own words. */
  method ParseRendered(t: Cmd<string>, b: array<char>) returns (r: Option<Cmd<Span>>)
    requires Good(t) && b[..] == Render(t, 0) + ['\0']
    modifies b
    ensures r.Some? && Seen(b[..], r.value) == t
  {
    hide Parse, Denote, Seen, Render, Good;
    NoNul(t, 0);
    RoundTrip(t);
    assert b[..b.Length - 1] == b[..][..b.Length - 1] == Render(t, 0);
    assert b[b.Length - 1] == b[..][b.Length - 1];
    r := ParseCmd(b);
  }
}
