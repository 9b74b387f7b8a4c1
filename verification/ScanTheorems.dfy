/** `functions`: neutralizing and scanning together, and what the recorded bodies are in the original
    text. */
module ScanTheorems {
  import opened Neutralizer
  import opened Regions
  import opened Braces
  import opened Scanner
  import T = SourceTrees

  /** Which braces of the original text are code. */
  function CodeWeight(s: string, k: nat): int
    requires k < |s|
  {
    if Outside(ReadAll(InCode, s[..k])) then Weight(s[k]) else 0
  }

  /** The brace depth of `s[from..end]`, counting only braces outside comments and literals. */
  function CodeDepth(s: string, from: nat, end: nat): int
    requires from <= end <= |s|
    decreases end
  {
    if from == end then 0 else CodeDepth(s, from, end - 1) + CodeWeight(s, end - 1)
  }

  predicate SameWeight(s: string, n: string, k: nat) {
    k < |s| == |n| ==> Weight(n[k]) == CodeWeight(s, k)
  }

  lemma {:induction false} DepthByWeights(s: string, n: string, from: nat, end: nat)
    requires from <= end <= |s| == |n| && forall k: nat :: SameWeight(s, n, k)
    ensures Depth(n[from..end]) == CodeDepth(s, from, end)
    decreases end
  {
    if end > from {
      DepthByWeights(s, n, from, end - 1);
      assert SameWeight(s, n, end - 1);
      assert n[from..end] == n[from..end - 1] + [n[end - 1]];
      DepthAdd(n[from..end - 1], n[end - 1]);
    }
  }

  lemma DepthIsCodeDepth(s: string, from: nat, end: nat)
    requires from <= end <= |s|
    ensures Depth(Neutral(Code, s)[from..end]) == CodeDepth(s, from, end)
  {
    forall k: nat ensures SameWeight(s, Neutral(Code, s), k) {
      if k < |s| { CodeBraces(s, k); }
    }
    DepthByWeights(s, Neutral(Code, s), from, end);
  }

  /** `s[open]` and `s[close]` are braces of the code, and those between them are balanced. */
  ghost predicate IsBlock(s: string, open: nat, close: nat) {
    && open < close < |s|
    && CodeWeight(s, open) == 1 && CodeWeight(s, close) == -1
    && CodeDepth(s, open + 1, close) == 0
    && forall k: nat :: open < k <= close ==> Nonnegative(s, open, k)
  }

  predicate Nonnegative(s: string, open: nat, k: nat) {
    open < k <= |s| ==> CodeDepth(s, open + 1, k) >= 0
  }

  /** A match in the output is a block of the original, whatever its comments and literals contain. */
  lemma MatchIsBlock(s: string, open: nat, close: nat)
    requires Braced(Neutral(Code, s), open, close)
    ensures IsBlock(s, open, close)
  {
    var n := Neutral(Code, s);
    CodeBraces(s, open);
    CodeBraces(s, close);
    DepthIsCodeDepth(s, open + 1, close);
    forall k: nat | open < k <= close ensures Nonnegative(s, open, k) {
      DepthIsCodeDepth(s, open + 1, k);
      PrefixDepth(n, open, close, k);
    }
  }

  /** The records of a text: what `functions` finds in it. */
  ghost function FunctionsOf(lex: Lexicon, source: string): seq<Record>
    requires Proper(lex, Neutral(Code, source))
  {
    var n := Neutral(Code, source);
    Records(RoundsOf(lex, n), n, 0, |n|, "")
  }

  /** For every text: the recorded bodies come in order, do not overlap, and each is a balanced block of
      the original code. */
  lemma FunctionBodiesAreBlocks(lex: Lexicon, source: string)
    requires Proper(lex, Neutral(Code, source))
    ensures
      var rs := FunctionsOf(lex, source);
      && (forall k :: 0 <= k < |rs| ==> IsBlock(source, rs[k].open, rs[k].close))
      && (forall j, k :: 0 <= j < k < |rs| ==> rs[j].close < rs[k].open)
  {
    var n := Neutral(Code, source);
    var rs := FunctionsOf(lex, source);
    BodiesAreWellSpaced(RoundsOf(lex, n), n, 0, |n|, "");
    forall k | 0 <= k < |rs| ensures IsBlock(source, rs[k].open, rs[k].close) {
      assert Sound(n, rs[k], 0, |n|);
      MatchIsBlock(source, rs[k].open, rs[k].close);
    }
  }

  /** The dictionary has the recorded names, each with the text of the last body recorded under it. */
  ghost predicate IsIndex(bodies: map<string, string>, n: string, rs: seq<Record>)
    requires Placed(n, rs)
  {
    && (forall name: string :: name in bodies <==> exists k :: 0 <= k < |rs| && rs[k].name == name)
    && (forall name: string, k: nat :: IsLast(rs, name, k) ==> name in bodies && bodies[name] == BodyOf(n, rs[k]))
  }

  lemma FiledIsIndex(n: string, rs: seq<Record>)
    requires Placed(n, rs)
    ensures IsIndex(Filed(map[], n, rs), n, rs)
  {
    var bodies := Filed(map[], n, rs);
    forall name: string, k: nat | IsLast(rs, name, k) ensures name in bodies && bodies[name] == BodyOf(n, rs[k]) {
      FiledIsLast(map[], n, rs, name, k);
    }
    forall name: string ensures name in bodies <==> exists k :: 0 <= k < |rs| && rs[k].name == name {
      if exists k :: 0 <= k < |rs| && rs[k].name == name {
        LastExists(rs, name);
      } else {
        FiledOther(map[], n, rs, name);
      }
    }
  }

  lemma FunctionsPlaced(lex: Lexicon, source: string)
    requires Proper(lex, Neutral(Code, source))
    ensures Placed(Neutral(Code, source), FunctionsOf(lex, source))
  {
    var n := Neutral(Code, source);
    BodiesAreWellSpaced(RoundsOf(lex, n), n, 0, |n|, "");
    SpacedIsPlaced(n, FunctionsOf(lex, source), 0, |n|);
  }

  // ---- Against the tree of a text -------------------------------------------------------------

  ghost predicate IsLastOf(fs: seq<T.Function>, name: string, k: nat) {
    k < |fs| && fs[k].name == name && forall j :: k < j < |fs| ==> fs[j].name != name
  }

  /** The names are those of the functions listed, each with the body of the last one of that name. */
  ghost predicate IsDictionary(bodies: map<string, string>, fs: seq<T.Function>) {
    && (forall name: string :: name in bodies <==> exists k :: 0 <= k < |fs| && fs[k].name == name)
    && (forall name: string, k: nat :: IsLastOf(fs, name, k) ==> name in bodies && bodies[name] == fs[k].body)
  }

  lemma IndexIsDictionary(bodies: map<string, string>, n: string, rs: seq<Record>)
    requires Placed(n, rs) && IsIndex(bodies, n, rs)
    ensures IsDictionary(bodies, T.Shown(n, rs))
  {
    var fs := T.Shown(n, rs);
    forall name: string ensures name in bodies <==> exists k :: 0 <= k < |fs| && fs[k].name == name {
      if name in bodies {
        var k :| 0 <= k < |rs| && rs[k].name == name;
        assert fs[k].name == name;
      }
      if k :| 0 <= k < |fs| && fs[k].name == name {
        assert rs[k].name == name;
      }
    }
    forall name: string, k: nat | IsLastOf(fs, name, k) ensures name in bodies && bodies[name] == fs[k].body {
      forall j | k < j < |rs| ensures rs[j].name != name {
        assert fs[j].name != name;
      }
      assert IsLast(rs, name, k);
    }
  }

  /** If the neutralized text is that of a tree of declarations, namespaces, classes and functions, read as
      such by the lexicon, the dictionary has exactly the functions of the tree, under the names of their
      scopes joined from outside to inside. */
  lemma FunctionsOfTree(lex: Lexicon, source: string, t: T.Source, bodies: map<string, string>)
    requires Proper(lex, Neutral(Code, source))
    requires T.Reads(lex, Neutral(Code, source), 0, |source|, t)
    requires Placed(Neutral(Code, source), FunctionsOf(lex, source))
    requires IsIndex(bodies, Neutral(Code, source), FunctionsOf(lex, source))
    ensures T.Text(t) == Neutral(Code, source)
    ensures IsDictionary(bodies, T.Listed(t, []))
  {
    var n := Neutral(Code, source);
    T.ReadsText(lex, n, 0, |n|, t);
    assert n[0..|n|] == n;
    T.TreeIsRecorded(lex, n, t);
    IndexIsDictionary(bodies, n, FunctionsOf(lex, source));
  }

  /** `functions`. */
  method Functions(lex: Lexicon, source: string) returns (bodies: map<string, string>)
    requires Proper(lex, Neutral(Code, source))
    ensures Placed(Neutral(Code, source), FunctionsOf(lex, source))
    ensures IsIndex(bodies, Neutral(Code, source), FunctionsOf(lex, source))
    ensures forall t: T.Source :: T.Reads(lex, Neutral(Code, source), 0, |source|, t) ==> IsDictionary(bodies, T.Listed(t, []))
  {
    var n := Neutralize(source);
    ghost var w := WalkOf(lex, n);
    var extractor := new Extractor(lex);
    extractor.Scan(n, 0, |n|, "", w);
    bodies := extractor.bodies;
    FunctionsPlaced(lex, source);
    FiledIsIndex(n, FunctionsOf(lex, source));
    forall t: T.Source | T.Reads(lex, n, 0, |source|, t) ensures IsDictionary(bodies, T.Listed(t, [])) {
      FunctionsOfTree(lex, source, t, bodies);
    }
  }
}
