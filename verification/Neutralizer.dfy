/** `neutralize`: comments and literals lose their contents, everything else keeps its place. */
module Neutralizer {
  datatype Mode = Code | Line | Block | Text(quote: char)

  predicate IsMode(m: Mode) {
    m.Text? ==> IsQuote(m.quote)
  }

  predicate IsQuote(c: char) {
    c == '"' || c == '\''
  }

  predicate Starts(s: string, a: char, b: char) {
    |s| >= 2 && s[0] == a && s[1] == b
  }

  function Blank(c: char): char {
    if c == '\n' then '\n' else ' '
  }

  /** What becomes of the rest of the text, read in mode `m`. */
  function Neutral(m: Mode, s: string): (r: string)
    ensures |r| == |s|
    decreases |s|, if m == Line then 1 else 0
  {
    if s == [] then []
    else
      match m
      case Code =>
        if Starts(s, '/', '*') then s[..2] + Neutral(Block, s[2..])
        else if Starts(s, '/', '/') then s[..2] + Neutral(Line, s[2..])
        else if IsQuote(s[0]) then [s[0]] + Neutral(Text(s[0]), s[1..])
        else [s[0]] + Neutral(Code, s[1..])
      case Line =>
        if s[0] == '\n' then Neutral(Code, s) else [' '] + Neutral(Line, s[1..])
      case Block =>
        if Starts(s, '*', '/') then s[..2] + Neutral(Code, s[2..])
        else [Blank(s[0])] + Neutral(Block, s[1..])
      case Text(q) =>
        if s[0] == q then [q] + Neutral(Code, s[1..])
        else if s[0] == '\\' && |s| >= 2 then [' ', Blank(s[1])] + Neutral(m, s[2..])
        else [Blank(s[0])] + Neutral(m, s[1..])
  }

  // ---- The loops ------------------------------------------------------------------------------

  /** The remaining text is `s[i..]`, and `out` is what came before. */
  ghost predicate Going(s: string, i: nat, out: string, m: Mode) {
    i <= |s| && out + Neutral(m, s[i..]) == Neutral(Code, s)
  }

  lemma GoOne(s: string, i: nat, out: string, m: Mode, c: char, m': Mode)
    requires Going(s, i, out, m) && i < |s|
    requires Neutral(m, s[i..]) == [c] + Neutral(m', s[i..][1..])
    ensures Going(s, i + 1, out + [c], m')
  {
    assert s[i..][1..] == s[i + 1..];
    assert out + ([c] + Neutral(m', s[i + 1..])) == out + [c] + Neutral(m', s[i + 1..]);
  }

  lemma GoTwo(s: string, i: nat, out: string, m: Mode, c: char, d: char, m': Mode)
    requires Going(s, i, out, m) && i + 1 < |s|
    requires Neutral(m, s[i..]) == [c, d] + Neutral(m', s[i..][2..])
    ensures Going(s, i + 2, out + [c] + [d], m')
  {
    assert s[i..][2..] == s[i + 2..];
    assert out + ([c, d] + Neutral(m', s[i + 2..])) == out + [c] + [d] + Neutral(m', s[i + 2..]);
  }

  /** Inside a block comment, up to its end. */
  lemma BlockGoes(s: string, i: nat, out: string)
    requires Going(s, i, out, Block) && i < |s| && (i + 1 < |s| ==> !(s[i] == '*' && s[i + 1] == '/'))
    ensures Going(s, i + 1, out + [Blank(s[i])], Block)
  {
    assert !Starts(s[i..], '*', '/');
    GoOne(s, i, out, Block, Blank(s[i]), Block);
  }

  lemma BlockEnds(s: string, i: nat, out: string)
    requires Going(s, i, out, Block) && i + 1 < |s| && s[i] == '*' && s[i + 1] == '/'
    ensures Going(s, i + 2, out + ['*'] + ['/'], Code)
  {
    assert Starts(s[i..], '*', '/');
    GoTwo(s, i, out, Block, '*', '/', Code);
  }

  method SkipBlock(s: string, start: nat, before: string) returns (i: nat, out: string)
    requires Going(s, start, before, Block)
    ensures start <= i && Going(s, i, out, Code)
  {
    i, out := start, before;
    while i + 1 < |s| && !(s[i] == '*' && s[i + 1] == '/')
      invariant start <= i && Going(s, i, out, Block)
    {
      BlockGoes(s, i, out);
      out := out + [Blank(s[i])];
      i := i + 1;
    }
    if i + 1 < |s| {
      BlockEnds(s, i, out);
      out := out + ['*'] + ['/'];
      i := i + 2;
    } else {
      while i < |s|
        invariant start <= i && i + 1 >= |s| && Going(s, i, out, Block)
      {
        BlockGoes(s, i, out);
        out := out + [Blank(s[i])];
        i := i + 1;
      }
    }
  }

  method SkipLine(s: string, start: nat, before: string) returns (i: nat, out: string)
    requires Going(s, start, before, Line)
    ensures start <= i && Going(s, i, out, Code)
  {
    i, out := start, before;
    while i < |s| && s[i] != '\n'
      invariant start <= i && Going(s, i, out, Line)
    {
      GoOne(s, i, out, Line, ' ', Line);
      out := out + [' '];
      i := i + 1;
    }
  }

  lemma EscapeGoes(s: string, i: nat, out: string, quote: char)
    requires Going(s, i, out, Text(quote)) && i + 1 < |s| && s[i] != quote && s[i] == '\\'
    ensures Going(s, i + 2, out + [' '] + [Blank(s[i + 1])], Text(quote))
  {
    GoTwo(s, i, out, Text(quote), ' ', Blank(s[i + 1]), Text(quote));
  }

  lemma ContentGoes(s: string, i: nat, out: string, quote: char)
    requires Going(s, i, out, Text(quote)) && i < |s| && s[i] != quote && !(s[i] == '\\' && i + 1 < |s|)
    ensures Going(s, i + 1, out + [Blank(s[i])], Text(quote))
  {
    GoOne(s, i, out, Text(quote), Blank(s[i]), Text(quote));
  }

  lemma QuoteGoes(s: string, i: nat, out: string, quote: char)
    requires Going(s, i, out, Text(quote)) && i < |s| && s[i] == quote
    ensures Going(s, i + 1, out + [quote], Code)
  {
    GoOne(s, i, out, Text(quote), quote, Code);
  }

  method SkipText(s: string, start: nat, before: string, quote: char) returns (i: nat, out: string)
    requires Going(s, start, before, Text(quote))
    ensures start <= i && Going(s, i, out, Code)
  {
    i, out := start, before;
    while i < |s| && s[i] != quote
      invariant start <= i && Going(s, i, out, Text(quote))
    {
      if s[i] == '\\' && i + 1 < |s| {
        EscapeGoes(s, i, out, quote);
        i, out := i + 2, out + [' '] + [Blank(s[i + 1])];
      } else {
        ContentGoes(s, i, out, quote);
        i, out := i + 1, out + [Blank(s[i])];
      }
    }
    if i < |s| {
      QuoteGoes(s, i, out, quote);
      out := out + [quote];
      i := i + 1;
    }
  }

  method Neutralize(s: string) returns (out: string)
    ensures out == Neutral(Code, s)
  {
    var i := 0;
    out := [];
    assert s[0..] == s;
    while i < |s|
      invariant Going(s, i, out, Code)
    {
      var c := s[i];
      if c == '/' && i + 1 < |s| && s[i + 1] == '*' {
        assert s[i..][..2] == ['/', '*'];
        GoTwo(s, i, out, Code, '/', '*', Block);
        i, out := SkipBlock(s, i + 2, out + ['/'] + ['*']);
      } else if c == '/' && i + 1 < |s| && s[i + 1] == '/' {
        assert s[i..][..2] == ['/', '/'];
        GoTwo(s, i, out, Code, '/', '/', Line);
        i, out := SkipLine(s, i + 2, out + ['/'] + ['/']);
      } else if IsQuote(c) {
        GoOne(s, i, out, Code, c, Text(c));
        i, out := SkipText(s, i + 1, out + [c], c);
      } else {
        GoOne(s, i, out, Code, c, Code);
        out := out + [c];
        i := i + 1;
      }
    }
    assert s[i..] == [];
  }

  // ---- Positions ------------------------------------------------------------------------------

  /** The length is kept, line breaks stay where they are and no others appear, and every other
      character is kept or becomes a space. */
  lemma {:induction false} PositionsKept(m: Mode, s: string, k: nat)
    requires k < |s| && IsMode(m)
    ensures Neutral(m, s)[k] == '\n' <==> s[k] == '\n'
    ensures Neutral(m, s)[k] == s[k] || Neutral(m, s)[k] == ' '
    decreases |s|, if m == Line then 1 else 0
  {
    match m
    case Code =>
      if Starts(s, '/', '*') {
        if k >= 2 { PositionsKept(Block, s[2..], k - 2); }
      } else if Starts(s, '/', '/') {
        if k >= 2 { PositionsKept(Line, s[2..], k - 2); }
      } else if k >= 1 {
        PositionsKept(if IsQuote(s[0]) then Text(s[0]) else Code, s[1..], k - 1);
      }
    case Line =>
      if s[0] == '\n' { PositionsKept(Code, s, k); } else if k >= 1 { PositionsKept(Line, s[1..], k - 1); }
    case Block =>
      if Starts(s, '*', '/') {
        if k >= 2 { PositionsKept(Code, s[2..], k - 2); }
      } else if k >= 1 {
        PositionsKept(Block, s[1..], k - 1);
      }
    case Text(q) =>
      if s[0] == q {
        if k >= 1 { PositionsKept(Code, s[1..], k - 1); }
      } else if s[0] == '\\' && |s| >= 2 {
        if k >= 2 { PositionsKept(m, s[2..], k - 2); }
      } else if k >= 1 {
        PositionsKept(m, s[1..], k - 1);
      }
  }

  // ---- Idempotence ----------------------------------------------------------------------------

  lemma CodeHead(s: string)
    requires s != []
    ensures Neutral(Code, s)[0] == s[0]
  {
  }

  /** A second run goes through the same modes at the same places, so it changes nothing. */
  lemma {:induction false} Idempotent(m: Mode, s: string)
    requires IsMode(m)
    ensures Neutral(m, Neutral(m, s)) == Neutral(m, s)
    decreases |s|, if m == Line then 1 else 0
  {
    if s != [] {
      match m
      case Code => CodeAgain(s);
      case Line =>
        if s[0] == '\n' {
          Idempotent(Code, s);
          CodeHead(s);
        } else {
          Idempotent(Line, s[1..]);
          Prefixed(Line, s, 1, Line);
        }
      case Block =>
        if Starts(s, '*', '/') {
          Idempotent(Code, s[2..]);
          Prefixed(Block, s, 2, Code);
        } else {
          Idempotent(Block, s[1..]);
          Prefixed(Block, s, 1, Block);
        }
      case Text(q) =>
        if s[0] == q {
          Idempotent(Code, s[1..]);
          Prefixed(m, s, 1, Code);
        } else if s[0] == '\\' && |s| >= 2 {
          Idempotent(m, s[2..]);
          Prefixed(m, s, 2, m);
          BlankText(m, Neutral(m, s));
        } else {
          Idempotent(m, s[1..]);
          Prefixed(m, s, 1, m);
        }
    }
  }

  lemma CodeAgain(s: string)
    requires s != []
    ensures Neutral(Code, Neutral(Code, s)) == Neutral(Code, s)
    decreases |s|, 0, 0
  {
    if Starts(s, '/', '*') {
      Idempotent(Block, s[2..]);
      Prefixed(Code, s, 2, Block);
    } else if Starts(s, '/', '/') {
      Idempotent(Line, s[2..]);
      Prefixed(Code, s, 2, Line);
    } else {
      var m := if IsQuote(s[0]) then Text(s[0]) else Code;
      Idempotent(m, s[1..]);
      Prefixed(Code, s, 1, m);
      if |s| >= 2 && m == Code { CodeHead(s[1..]); }
    }
  }

  /** Splits the output after the first `n` characters. */
  lemma Prefixed(m: Mode, s: string, n: nat, m': Mode)
    requires n <= |s| && Neutral(m, s)[n..] == Neutral(m', s[n..])
    ensures Neutral(m, s) == Neutral(m, s)[..n] + Neutral(m', s[n..])
  {
  }

  lemma BlankText(m: Mode, r: string)
    requires m.Text? && IsMode(m) && |r| >= 2 && r[0] == ' ' && (r[1] == ' ' || r[1] == '\n')
    ensures Neutral(m, r) == r[..2] + Neutral(m, r[2..])
  {
    assert r[1..][1..] == r[2..];
  }
}
