/** Matching braces: the two finders of the scanner, balanced text, and the grammar it comes from. */
module Braces {
  function Weight(c: char): int {
    if c == '{' then 1 else if c == '}' then -1 else 0
  }

  function Depth(s: string): int
    decreases |s|
  {
    if s == [] then 0 else Depth(s[..|s| - 1]) + Weight(s[|s| - 1])
  }

  /** No closing brace comes too early, and none is missing. */
  ghost predicate Balanced(s: string) {
    Depth(s) == 0 && forall k :: 0 <= k <= |s| ==> Depth(s[..k]) >= 0
  }

  lemma {:induction false} DepthConcat(a: string, b: string)
    ensures Depth(a + b) == Depth(a) + Depth(b)
    decreases |b|
  {
    if b == [] {
      assert a + b == a;
    } else {
      var n := |b| - 1;
      assert (a + b)[..|a + b| - 1] == a + b[..n];
      DepthConcat(a, b[..n]);
    }
  }

  lemma DepthOne(c: char)
    ensures Depth([c]) == Weight(c)
  {
    assert Depth([c][..0]) == 0;
  }

  lemma DepthAdd(s: string, c: char)
    ensures Depth(s + [c]) == Depth(s) + Weight(c)
  {
    DepthConcat(s, [c]);
    DepthOne(c);
  }

  // ---- The matching brace ---------------------------------------------------------------------

  /** `s[close]` closes what was opened before `s[open + 1]`. The finder never looks at `s[open]` itself. */
  ghost predicate Matches(s: string, open: nat, close: nat) {
    open < close < |s| && s[close] == '}' && Balanced(s[open + 1..close])
  }

  /** The depth before `s[to]`, counted from the brace at `open` and one less than the counter of the loop. */
  function DepthOf(s: string, open: nat, to: nat): int
    requires open < to <= |s|
  {
    Depth(s[open + 1..to])
  }

  lemma DepthAt(s: string, open: nat, i: nat)
    requires open < i < |s|
    ensures DepthOf(s, open, i + 1) == DepthOf(s, open, i) + Weight(s[i])
  {
    assert s[open + 1..i + 1] == s[open + 1..i] + [s[i]];
    DepthAdd(s[open + 1..i], s[i]);
  }

  lemma PrefixDepth(s: string, open: nat, i: nat, k: nat)
    requires open < k <= i <= |s|
    ensures Depth(s[open + 1..i][..k - open - 1]) == DepthOf(s, open, k)
  {
    assert s[open + 1..i][..k - open - 1] == s[open + 1..k];
  }

  ghost predicate Scanned(s: string, open: nat, i: nat) {
    open < i <= |s| && forall k: nat :: open < k <= i ==> DepthOf(s, open, k) >= 0
  }

  lemma ScannedIsBalanced(s: string, open: nat, i: nat)
    requires Scanned(s, open, i) && DepthOf(s, open, i) == 0
    ensures Balanced(s[open + 1..i])
  {
    var w := s[open + 1..i];
    forall k | 0 <= k <= |w| ensures Depth(w[..k]) >= 0 {
      PrefixDepth(s, open, i, open + 1 + k);
    }
  }

  lemma TooDeep(s: string, open: nat, i: nat, close: nat)
    requires Scanned(s, open, i) && Matches(s, open, close)
    ensures close >= i
  {
    if close < i {
      DepthAt(s, open, close);
    }
  }

  lemma NoEarlierMatch(s: string, open: nat, close: nat, close': nat)
    requires Matches(s, open, close) && Matches(s, open, close')
    ensures close' <= close
  {
    if close < close' {
      DepthAt(s, open, close);
      PrefixDepth(s, open, close', close + 1);
    }
  }

  /** There is at most one matching brace. */
  lemma MatchIsUnique(s: string, open: nat, close: nat, close': nat)
    requires Matches(s, open, close) && Matches(s, open, close')
    ensures close == close'
  {
    NoEarlierMatch(s, open, close, close');
    NoEarlierMatch(s, open, close', close);
  }

  /** The position of the matching brace, or -1. */
  ghost function Closing(s: string, open: nat): (r: int)
    ensures r >= 0 ==> Matches(s, open, r)
    ensures r < 0 ==> r == -1 && forall close: nat :: !Matches(s, open, close)
  {
    if close: nat :| Matches(s, open, close) then close else -1
  }

  lemma ClosingIs(s: string, open: nat, close: nat)
    requires Matches(s, open, close)
    ensures Closing(s, open) == close
  {
    MatchIsUnique(s, open, close, Closing(s, open));
  }

  /** `_find_matching_brace`: the matching brace, or -1 if there is none. */
  method FindMatchingBrace(s: string, open: nat) returns (r: int)
    ensures r == Closing(s, open)
    ensures r >= 0 ==> Matches(s, open, r)
    ensures r < 0 ==> r == -1 && forall close: nat :: !Matches(s, open, close)
  {
    var depth := 1;
    var i := open + 1;
    if i > |s| {
      return -1;
    }
    assert s[open + 1..i] == [];
    while i < |s|
      invariant Scanned(s, open, i) && depth == 1 + DepthOf(s, open, i)
    {
      DepthAt(s, open, i);
      if s[i] == '{' {
        depth := depth + 1;
      } else if s[i] == '}' {
        depth := depth - 1;
        if depth == 0 {
          ScannedIsBalanced(s, open, i);
          ClosingIs(s, open, i);
          return i;
        }
      }
      i := i + 1;
    }
    forall close: nat ensures !Matches(s, open, close) {
      if Matches(s, open, close) { TooDeep(s, open, i, close); }
    }
    r := -1;
  }

  // ---- The next statement ---------------------------------------------------------------------

  function Parens(s: string): int
    decreases |s|
  {
    if s == [] then 0
    else
      var c := s[|s| - 1];
      Parens(s[..|s| - 1]) + if c == '(' then 1 else if c == ')' then -1 else 0
  }

  predicate IsTop(c: char) {
    c == ';' || c == '{' || c == '}'
  }

  predicate TopAt(s: string, start: nat, k: nat)
    requires start <= k < |s|
  {
    IsTop(s[k]) && Parens(s[start..k]) == 0
  }

  function NextTop(s: string, i: nat, end: nat, parens: int): int
    requires end <= |s|
    decreases end - i
  {
    if i >= end then -1
    else if s[i] == '(' then NextTop(s, i + 1, end, parens + 1)
    else if s[i] == ')' then NextTop(s, i + 1, end, parens - 1)
    else if parens == 0 && IsTop(s[i]) then i
    else NextTop(s, i + 1, end, parens)
  }

  /** `_find_next_top`: the first `;`, `{` or `}` outside parentheses, or -1. */
  method FindNextTop(s: string, start: nat, end: nat) returns (r: int)
    requires end <= |s|
    ensures r == NextTop(s, start, end, 0)
    ensures r >= 0 ==> start <= r < end && TopAt(s, start, r)
    ensures r < 0 ==> r == -1
    ensures forall k: nat :: start <= k < (if r >= 0 then r else end) ==> !TopAt(s, start, k)
  {
    var i := start;
    var parens := 0;
    while i < end
      invariant start <= i && (start <= end ==> i <= end) && (start > end ==> i == start)
      invariant NextTop(s, i, end, parens) == NextTop(s, start, end, 0)
      invariant i <= |s| ==> parens == Parens(s[start..i])
      invariant forall k: nat :: start <= k < i && k < end ==> !TopAt(s, start, k)
    {
      var c := s[i];
      assert s[start..i + 1][..i - start] == s[start..i];
      if c == '(' {
        parens := parens + 1;
      } else if c == ')' {
        parens := parens - 1;
      } else if parens == 0 && IsTop(c) {
        return i;
      }
      i := i + 1;
    }
    r := -1;
  }

  // ---- The grammar ----------------------------------------------------------------------------

  /** Balanced text as it is built: nothing, a plain character, or a block, and more text. */
  datatype Tree = Empty | Plain(c: char, rest: Tree) | Nested(body: Tree, rest: Tree)

  predicate IsTree(t: Tree) {
    match t
    case Empty => true
    case Plain(c, rest) => c != '{' && c != '}' && IsTree(rest)
    case Nested(body, rest) => IsTree(body) && IsTree(rest)
  }

  function Spell(t: Tree): string {
    match t
    case Empty => []
    case Plain(c, rest) => [c] + Spell(rest)
    case Nested(body, rest) => ['{'] + Spell(body) + ['}'] + Spell(rest)
  }

  lemma BalancedConcat(a: string, b: string)
    requires Balanced(a) && Balanced(b)
    ensures Balanced(a + b)
  {
    DepthConcat(a, b);
    forall k | 0 <= k <= |a + b| ensures Depth((a + b)[..k]) >= 0 {
      if k <= |a| {
        assert (a + b)[..k] == a[..k];
      } else {
        assert (a + b)[..k] == a + b[..k - |a|];
        DepthConcat(a, b[..k - |a|]);
      }
    }
  }

  lemma BalancedPlain(c: char)
    requires c != '{' && c != '}'
    ensures Balanced([c])
  {
    DepthOne(c);
    assert [c][..0] == [] && [c][..1] == [c];
  }

  lemma BalancedBlock(w: string)
    requires Balanced(w)
    ensures Balanced(['{'] + w + ['}'])
  {
    var b := ['{'] + w + ['}'];
    DepthOne('{');
    DepthConcat(['{'], w);
    DepthAdd(['{'] + w, '}');
    forall k | 0 <= k <= |b| ensures Depth(b[..k]) >= 0 {
      if k == 0 {
        assert b[..k] == [];
      } else if k <= |w| + 1 {
        assert b[..k] == ['{'] + w[..k - 1];
        DepthConcat(['{'], w[..k - 1]);
      } else {
        assert b[..k] == b;
      }
    }
  }

  lemma {:induction false} TreesAreBalanced(t: Tree)
    requires IsTree(t)
    ensures Balanced(Spell(t))
  {
    match t
    case Empty =>
    case Plain(c, rest) =>
      BalancedPlain(c);
      TreesAreBalanced(rest);
      BalancedConcat([c], Spell(rest));
    case Nested(body, rest) =>
      TreesAreBalanced(body);
      TreesAreBalanced(rest);
      BalancedBlock(Spell(body));
      BalancedConcat(['{'] + Spell(body) + ['}'], Spell(rest));
  }

  /** Where balanced text is cut at a point of depth zero, both halves are balanced. */
  lemma BalancedCut(w: string, n: nat)
    requires Balanced(w) && n <= |w| && Depth(w[..n]) == 0
    ensures Balanced(w[..n]) && Balanced(w[n..])
  {
    assert w == w[..n] + w[n..];
    DepthConcat(w[..n], w[n..]);
    forall k | 0 <= k <= n ensures Depth(w[..n][..k]) >= 0 {
      assert w[..n][..k] == w[..k];
    }
    forall k | 0 <= k <= |w| - n ensures Depth(w[n..][..k]) >= 0 {
      assert w[..n + k] == w[..n] + w[n..][..k];
      DepthConcat(w[..n], w[n..][..k]);
    }
  }

  /** The block at the head of balanced text has its closing brace there. */
  lemma {:induction false} BlockCloses(w: string, i: nat)
    requires Balanced(w) && 1 <= i <= |w| && w[0] == '{'
    requires Scanned(w, 0, i)
    ensures exists close: nat :: Matches(w, 0, close)
    decreases |w| - i
  {
    var d := DepthOf(w, 0, i);
    assert w[..i] == [w[0]] + w[1..i];
    DepthConcat([w[0]], w[1..i]);
    DepthOne(w[0]);
    assert w[..|w|] == w;
    if i < |w| {
      DepthAt(w, 0, i);
      if DepthOf(w, 0, i + 1) >= 0 {
        BlockCloses(w, i + 1);
      } else {
        ScannedIsBalanced(w, 0, i);
        assert Matches(w, 0, i);
      }
    }
  }

  lemma {:induction false} BalancedIsTree(w: string)
    requires Balanced(w)
    ensures exists t: Tree :: IsTree(t) && Spell(t) == w
    decreases |w|
  {
    if w == [] {
      assert IsTree(Empty) && Spell(Empty) == w;
    } else {
      assert w[..1] == [w[0]];
      DepthOne(w[0]);
      assert w[0] != '}' by { assert Depth(w[..1]) >= 0; }
      if w[0] == '{' {
        BlockIsTree(w);
      } else {
        BalancedCut(w, 1);
        BalancedIsTree(w[1..]);
        var rest: Tree :| IsTree(rest) && Spell(rest) == w[1..];
        assert Spell(Plain(w[0], rest)) == w;
        assert IsTree(Plain(w[0], rest));
      }
    }
  }

  lemma BlockIsTree(w: string)
    requires Balanced(w) && w != [] && w[0] == '{'
    ensures exists t: Tree :: IsTree(t) && Spell(t) == w
    decreases |w|, 0
  {
    assert w[1..1] == [];
    BlockCloses(w, 1);
    var close: nat :| Matches(w, 0, close);
    var block := ['{'] + w[1..close] + ['}'];
    BalancedBlock(w[1..close]);
    assert w[..close + 1] == block;
    BalancedCut(w, close + 1);
    BalancedIsTree(w[1..close]);
    BalancedIsTree(w[close + 1..]);
    var body: Tree :| IsTree(body) && Spell(body) == w[1..close];
    var rest: Tree :| IsTree(rest) && Spell(rest) == w[close + 1..];
    assert Spell(Nested(body, rest)) == block + w[close + 1..] == w;
    assert IsTree(Nested(body, rest));
  }

  /** Counting depths and building text by the grammar are the same thing. */
  lemma BalancedIsDyck(w: string)
    ensures Balanced(w) <==> exists t: Tree :: IsTree(t) && Spell(t) == w
  {
    if Balanced(w) { BalancedIsTree(w); }
    if t: Tree :| IsTree(t) && Spell(t) == w { TreesAreBalanced(t); }
  }
}
