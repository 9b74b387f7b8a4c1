/** Which characters of a text belong to comments and literals, read one character at a time, and what
    that says about the output of `neutralize`. Comments and literals are those that `neutralize` knows:
    a quote always begins a literal, so C++'s raw strings and digit separators are read as it reads them. */
module Regions {
  import opened Neutralizer

  /** Slash and Star have just read a `/` in code and a `*` in a block comment; Escape a backslash. */
  datatype Reader = InCode | Slash | InLine | InBlock | Star | InText(quote: char) | Escape(quote: char)

  function Read(q: Reader, c: char): Reader {
    match q
    case InCode => ReadCode(c)
    case Slash => if c == '*' then InBlock else if c == '/' then InLine else ReadCode(c)
    case InLine => if c == '\n' then InCode else InLine
    case InBlock => if c == '*' then Star else InBlock
    case Star => if c == '/' then InCode else if c == '*' then Star else InBlock
    case InText(quote) => if c == quote then InCode else if c == '\\' then Escape(quote) else q
    case Escape(quote) => InText(quote)
  }

  function ReadCode(c: char): Reader {
    if c == '/' then Slash else if IsQuote(c) then InText(c) else InCode
  }

  function ReadAll(q: Reader, s: string): Reader
    decreases |s|
  {
    if s == [] then q else ReadAll(Read(q, s[0]), s[1..])
  }

  predicate Outside(q: Reader) {
    q == InCode || q == Slash
  }

  predicate IsBrace(c: char) {
    c == '{' || c == '}'
  }

  /** The reader stands where the transformer does. */
  predicate Agrees(q: Reader, m: Mode, s: string) {
    match m
    case Code => q == InCode || (q == Slash && (s == [] || (s[0] != '*' && s[0] != '/')))
    case Line => q == InLine
    case Block => q == InBlock || (q == Star && (s == [] || s[0] != '/'))
    case Text(quote) => q == InText(quote) && IsQuote(quote)
  }

  /** The reader comes to `s[k]` in state `q`, and finds a character that closes a block comment or a
      literal. */
  predicate Closes(q: Reader, s: string, k: nat)
    requires k < |s|
  {
    match q
    case InBlock => s[k] == '*' && k + 1 < |s| && s[k + 1] == '/'
    case Star => s[k] == '/' || (s[k] == '*' && k + 1 < |s| && s[k + 1] == '/')
    case InText(quote) => s[k] == quote
    case _ => false
  }

  /** Code, opening and closing delimiters are kept; line breaks are; all else becomes a space. */
  predicate Faithful(q: Reader, s: string, k: nat, after: char)
    requires k < |s|
  {
    after == if Outside(q) || Closes(q, s, k) || s[k] == '\n' then s[k] else ' '
  }

  lemma {:induction false} ReadAllStep(q: Reader, s: string, n: nat, k: nat)
    requires n <= k <= |s|
    ensures ReadAll(q, s[..k]) == ReadAll(ReadAll(q, s[..n]), s[n..][..k - n])
    decreases n
  {
    if n > 0 {
      ReadAllStep(Read(q, s[0]), s[1..], n - 1, k - 1);
      assert s[..k][1..] == s[1..][..k - 1] && s[..n][1..] == s[1..][..n - 1] && s[1..][n - 1..] == s[n..];
    } else {
      assert s[n..] == s;
    }
  }

  lemma ReadOne(q: Reader, s: string)
    requires s != []
    ensures ReadAll(q, s[..1]) == Read(q, s[0])
  {
    assert s[..1][1..] == [];
  }

  lemma ReadPair(q: Reader, s: string)
    requires |s| >= 2
    ensures ReadAll(q, s[..2]) == Read(Read(q, s[0]), s[1])
  {
    assert s[..2][1..] == [s[1]];
    assert ReadAll(Read(q, s[0]), [s[1]]) == ReadAll(Read(Read(q, s[0]), s[1]), []);
  }

  /** How many characters the transformer takes at once, and its mode afterwards. */
  function Take(m: Mode, s: string): (nat, Mode)
    requires s != []
  {
    match m
    case Code =>
      if Starts(s, '/', '*') then (2, Block)
      else if Starts(s, '/', '/') then (2, Line)
      else if IsQuote(s[0]) then (1, Text(s[0]))
      else (1, Code)
    case Line => if s[0] == '\n' then (1, Code) else (1, Line)
    case Block => if Starts(s, '*', '/') then (2, Code) else (1, Block)
    case Text(quote) =>
      if s[0] == quote then (1, Code) else if s[0] == '\\' && |s| >= 2 then (2, m) else (1, m)
  }

  lemma TakeIsNeutral(m: Mode, s: string)
    requires s != [] && IsMode(m)
    ensures var (n, m') := Take(m, s); n <= |s| && Neutral(m, s)[n..] == Neutral(m', s[n..])
  {
  }

  lemma TakeAgrees(q: Reader, m: Mode, s: string)
    requires s != [] && Agrees(q, m, s)
    ensures var (n, m') := Take(m, s);
      n <= |s| && (n == |s| || Agrees(ReadAll(q, s[..n]), m', s[n..])) && IsMode(m) && IsMode(m')
  {
    ReadOne(q, s);
    if |s| >= 2 { ReadPair(q, s); }
  }

  lemma TakenFaithful(q: Reader, m: Mode, s: string, k: nat)
    requires s != [] && Agrees(q, m, s) && k < Take(m, s).0 <= |s|
    ensures Faithful(ReadAll(q, s[..k]), s, k, Neutral(m, s)[k])
  {
    if k == 1 { ReadOne(q, s); }
  }

  lemma FaithfulBehind(q: Reader, s: string, n: nat, k: nat, after: char)
    requires n <= k < |s| && Faithful(q, s[n..], k - n, after)
    ensures Faithful(q, s, k, after)
  {
  }

  /** Every character of the output, from any mode of the transformer and the state of the reader that
      goes with it. */
  lemma {:induction false} OutputIsExact(q: Reader, m: Mode, s: string, k: nat)
    requires Agrees(q, m, s) && k < |s|
    ensures Faithful(ReadAll(q, s[..k]), s, k, Neutral(m, s)[k])
    decreases |s|
  {
    var (n, m') := Take(m, s);
    TakeAgrees(q, m, s);
    if k < n {
      TakenFaithful(q, m, s, k);
    } else {
      TakeIsNeutral(m, s);
      OutputIsExact(ReadAll(q, s[..n]), m', s[n..], k - n);
      ReadAllStep(q, s, n, k);
      FaithfulBehind(ReadAll(q, s[..k]), s, n, k, Neutral(m, s)[k]);
    }
  }

  /** The whole of `neutralize`, on all texts: what the reader finds outside comments and literals is kept,
      and so are the characters that open and close them; of the rest only line breaks are left. */
  lemma NeutralizedIsExact(s: string, k: nat)
    requires k < |s|
    ensures |Neutral(Code, s)| == |s|
    ensures Neutral(Code, s)[k]
         == var q := ReadAll(InCode, s[..k]);
            if Outside(q) || Closes(q, s, k) || s[k] == '\n' then s[k] else ' '
  {
    OutputIsExact(InCode, Code, s, k);
  }

  /** A literal is always one between quotes. */
  predicate IsReader(q: Reader) {
    (q.InText? || q.Escape?) ==> IsQuote(q.quote)
  }

  lemma {:induction false} QuotesOnly(q: Reader, s: string)
    requires IsReader(q)
    ensures IsReader(ReadAll(q, s))
    decreases |s|
  {
    if s != [] {
      QuotesOnly(Read(q, s[0]), s[1..]);
    }
  }

  /** Outside comments and literals nothing changes; inside no brace is left. So a plain brace count over
      the output counts the braces of the code. */
  lemma BracesAreCode(q: Reader, m: Mode, s: string, k: nat)
    requires Agrees(q, m, s) && k < |s|
    ensures if Outside(ReadAll(q, s[..k])) then Neutral(m, s)[k] == s[k] else !IsBrace(Neutral(m, s)[k])
  {
    OutputIsExact(q, m, s, k);
    QuotesOnly(q, s[..k]);
  }

  lemma CodeBraces(s: string, k: nat)
    requires k < |s|
    ensures IsBrace(Neutral(Code, s)[k]) <==> IsBrace(s[k]) && Outside(ReadAll(InCode, s[..k]))
    ensures Outside(ReadAll(InCode, s[..k])) ==> Neutral(Code, s)[k] == s[k]
  {
    BracesAreCode(InCode, Code, s, k);
  }
}
