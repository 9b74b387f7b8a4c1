/** `_scan`: the walk that records the body of every function of a neutralized text. The regular
    expressions are abstract: a lexicon says which construct starts at a position. */
module Scanner {
  import opened Options
  import opened Braces

  /** The constructs that are matched at a position. The last three end with their opening brace. */
  datatype Construct =
    | Declaration(end: nat)
    | Namespace(name: string, open: nat)
    | Anonymous(open: nat)
    | Class(name: string, open: nat)
    | Other

  datatype Lexicon = Lexicon(
    isSpace: char -> bool,
    construct: (string, nat, nat) -> Construct,
    functionName: string -> Option<string>)

  /** All that is asked of the expressions: a match lies in the range, starts at its left end, is not
      empty and, if it is one of a scope, ends with a brace behind its keyword. */
  ghost predicate Proper(lex: Lexicon, s: string) {
    forall i: nat, end: nat :: i < end <= |s| ==> InPlace(s, i, end, lex.construct(s, i, end))
  }

  predicate InPlace(s: string, i: nat, end: nat, c: Construct) {
    match c
    case Declaration(e) => i < e <= end
    case Namespace(_, open) => i < open < end <= |s| && s[open] == '{'
    case Anonymous(open) => i < open < end <= |s| && s[open] == '{'
    case Class(_, open) => i < open < end <= |s| && s[open] == '{'
    case Other => true
  }

  /** A function and the positions of the braces of its body. */
  datatype Record = Record(name: string, open: nat, close: nat)

  function Join(prefix: string, name: string): string {
    if prefix == "" then name else prefix + "::" + name
  }

  // ---- Skipping -------------------------------------------------------------------------------

  predicate At(s: string, i: nat, end: nat, a: char, b: char) {
    i + 1 < end <= |s| && s[i] == a && s[i + 1] == b
  }

  function LineEnd(s: string, i: nat, end: nat): (r: nat)
    requires i <= end <= |s|
    ensures i <= r <= end && (i < end && s[i] != '\n' ==> i < r)
    decreases end - i
  {
    if i == end || s[i] == '\n' then i else LineEnd(s, i + 1, end)
  }

  /** Behind the end of the block comment that starts before `i`, or as far as the search gets. */
  function CommentEnd(s: string, i: nat, end: nat): (r: nat)
    requires i <= end <= |s|
    ensures i <= r <= end
    decreases end - i
  {
    if At(s, i, end, '*', '/') then i + 2
    else if i + 1 < end then CommentEnd(s, i + 1, end)
    else i
  }

  function SpaceEnd(lex: Lexicon, s: string, i: nat, end: nat): (r: nat)
    requires i <= end <= |s|
    ensures i <= r <= end
    decreases end - i
  {
    if i < end && lex.isSpace(s[i]) then SpaceEnd(lex, s, i + 1, end) else i
  }

  /** Behind the semicolon that may follow a closing brace. */
  function SemicolonEnd(lex: Lexicon, s: string, i: nat, end: nat): (r: nat)
    requires i <= end <= |s|
    ensures i <= r <= end
  {
    var k := SpaceEnd(lex, s, i, end);
    if k < end && s[k] == ';' then k + 1 else k
  }

  method SkipLine(s: string, start: nat, end: nat) returns (i: nat)
    requires start <= end <= |s|
    ensures i == LineEnd(s, start, end)
  {
    i := start;
    while i < end && s[i] != '\n'
      invariant i <= end && LineEnd(s, i, end) == LineEnd(s, start, end)
    {
      i := i + 1;
    }
  }

  method SkipComment(s: string, start: nat, end: nat) returns (i: nat)
    requires start <= end <= |s|
    ensures i == CommentEnd(s, start, end)
  {
    i := start;
    while i + 1 < end && !(s[i] == '*' && s[i + 1] == '/')
      invariant i <= end && CommentEnd(s, i, end) == CommentEnd(s, start, end)
    {
      i := i + 1;
    }
    if i + 1 < end {
      i := i + 2;
    }
  }

  method SkipSemicolon(lex: Lexicon, s: string, start: nat, end: nat) returns (i: nat)
    requires start <= end <= |s|
    ensures i == SemicolonEnd(lex, s, start, end)
  {
    i := start;
    while i < end && lex.isSpace(s[i])
      invariant i <= end && SpaceEnd(lex, s, i, end) == SpaceEnd(lex, s, start, end)
    {
      i := i + 1;
    }
    if i < end && s[i] == ';' {
      i := i + 1;
    }
  }

  // ---- What is recorded -----------------------------------------------------------------------

  /** One round of the walk: nothing more, or what is recorded here and where to go on. */
  datatype Round =
    | Finished
    | Skip(next: nat)
    | Enter(open: nat, close: nat, prefix: string, next: nat)
    | Body(open: nat, close: nat, name: Option<string>, next: nat)

  ghost function EnterAt(lex: Lexicon, s: string, open: nat, end: nat, prefix: string, isClass: bool): Round
    requires end <= |s|
  {
    var close := Closing(s, open);
    if close < 0 || close >= end then Finished
    else Enter(open, close, prefix, if isClass then SemicolonEnd(lex, s, close + 1, end) else close + 1)
  }

  ghost function BodyAt(lex: Lexicon, s: string, open: nat, end: nat, prefix: string, name: Option<string>): Round
    requires end <= |s|
  {
    var close := Closing(s, open);
    if close < 0 || close >= end then Finished
    else Body(open, close, if name == None then None else Some(Join(prefix, name.value)), SemicolonEnd(lex, s, close + 1, end))
  }

  ghost function StatementAt(lex: Lexicon, s: string, i: nat, end: nat, prefix: string): Round
    requires i < end <= |s|
  {
    var marker := NextTop(s, i, end, 0);
    if marker < i || marker >= end || s[marker] == '}' then Finished
    else if s[marker] == ';' then Skip(marker + 1)
    else BodyAt(lex, s, marker, end, prefix, lex.functionName(s[i..marker]))
  }

  ghost function ConstructAt(lex: Lexicon, s: string, i: nat, end: nat, prefix: string): Round
    requires i < end <= |s|
  {
    match lex.construct(s, i, end)
    case Declaration(e) => Skip(e)
    case Namespace(name, open) => EnterAt(lex, s, open, end, Join(prefix, name), false)
    case Anonymous(open) => EnterAt(lex, s, open, end, prefix, false)
    case Class(name, open) => EnterAt(lex, s, open, end, Join(prefix, name), true)
    case Other => StatementAt(lex, s, i, end, prefix)
  }

  ghost function RoundAt(lex: Lexicon, s: string, i: nat, end: nat, prefix: string): Round {
    if !(i < end <= |s|) then Finished
    else if lex.isSpace(s[i]) then Skip(i + 1)
    else if s[i] == '}' then Finished
    else if s[i] == '#' || At(s, i, end, '/', '/') then Skip(LineEnd(s, i, end))
    else if At(s, i, end, '/', '*') then Skip(CommentEnd(s, i + 2, end))
    else ConstructAt(lex, s, i, end, prefix)
  }

  /** A brace, and the brace that matches it. */
  ghost predicate Braced(s: string, open: nat, close: nat) {
    Matches(s, open, close) && s[open] == '{'
  }

  /** Where a round leads, and what it records, lies in the range; what it records opens and closes with
      matching braces. */
  ghost predicate InRange(s: string, i: nat, end: nat, r: Round) {
    match r
    case Finished => true
    case Skip(next) => i < next <= end
    case Enter(open, close, _, next) => i <= open && Braced(s, open, close) && close < next <= end
    case Body(open, close, _, next) => i <= open && Braced(s, open, close) && close < next <= end
  }

  lemma StatementInRange(lex: Lexicon, s: string, i: nat, end: nat, prefix: string)
    requires i < end <= |s|
    ensures InRange(s, i, end, StatementAt(lex, s, i, end, prefix))
  {
    NextTopInRange(s, i, end, 0);
  }

  lemma RoundInRange(lex: Lexicon, s: string, i: nat, end: nat, prefix: string)
    requires i < end <= |s| && Proper(lex, s)
    ensures InRange(s, i, end, RoundAt(lex, s, i, end, prefix))
  {
    assert InPlace(s, i, end, lex.construct(s, i, end));
    StatementInRange(lex, s, i, end, prefix);
  }

  lemma {:induction false} NextTopInRange(s: string, i: nat, end: nat, parens: int)
    requires end <= |s|
    ensures var r := NextTop(s, i, end, parens); r < 0 || (i <= r < end && IsTop(s[r]))
    decreases end - i
  {
    if i < end && !(parens == 0 && IsTop(s[i])) {
      NextTopInRange(s, i + 1, end, if s[i] == '(' then parens + 1 else if s[i] == ')' then parens - 1 else parens);
    }
  }

  type Rounds = (nat, nat, string) -> Round

  /** A walk that stays in the text and goes forward. */
  ghost predicate Forward(rounds: Rounds, s: string) {
    forall i: nat, end: nat, prefix: string :: i < end <= |s| ==> InRange(s, i, end, rounds(i, end, prefix))
  }

  /** Always true; names the places where the definition of a round is wanted. */
  predicate Here(i: nat, end: nat, prefix: string) {
    true
  }

  ghost predicate Walks(rounds: Rounds, lex: Lexicon, s: string) {
    forall i: nat, end: nat, prefix: string {:trigger Here(i, end, prefix)} ::
      Here(i, end, prefix) ==> rounds(i, end, prefix) == RoundAt(lex, s, i, end, prefix)
  }

  ghost function RoundsOf(lex: Lexicon, s: string): (rounds: Rounds)
    requires Proper(lex, s)
    ensures Walks(rounds, lex, s) && Forward(rounds, s)
  {
    var rounds: Rounds := (i: nat, end: nat, prefix: string) => RoundAt(lex, s, i, end, prefix);
    assert Forward(rounds, s) by {
      forall i: nat, end: nat, prefix: string | i < end <= |s| ensures InRange(s, i, end, rounds(i, end, prefix)) {
        RoundInRange(lex, s, i, end, prefix);
      }
    }
    rounds
  }

  /** Everything recorded from `i` on, in order. */
  ghost function Records(rounds: Rounds, s: string, i: nat, end: nat, prefix: string): seq<Record>
    requires end <= |s| && Forward(rounds, s)
    decreases end - i
  {
    if i >= end then []
    else
      match rounds(i, end, prefix)
      case Finished => []
      case Skip(next) => Records(rounds, s, next, end, prefix)
      case Enter(open, close, inner, next) =>
        Records(rounds, s, open + 1, close, inner) + Records(rounds, s, next, end, prefix)
      case Body(open, close, name, next) =>
        Found(name, open, close) + Records(rounds, s, next, end, prefix)
  }

  function Found(name: Option<string>, open: nat, close: nat): seq<Record> {
    match name
    case None => []
    case Some(n) => [Record(n, open, close)]
  }

  // ---- Disjoint and balanced ------------------------------------------------------------------

  ghost predicate Sound(s: string, r: Record, lo: nat, hi: nat) {
    lo <= r.open && r.close < hi && Braced(s, r.open, r.close)
  }

  /** In order, one behind the other, each the text between a brace and the brace that matches it. */
  ghost predicate WellSpaced(s: string, rs: seq<Record>, lo: nat, hi: nat) {
    && (forall k :: 0 <= k < |rs| ==> Sound(s, rs[k], lo, hi))
    && (forall j, k :: 0 <= j < k < |rs| ==> rs[j].close < rs[k].open)
  }

  lemma SpacedConcat(s: string, a: seq<Record>, b: seq<Record>, lo: nat, mid: nat, mid': nat, hi: nat)
    requires WellSpaced(s, a, lo, mid) && WellSpaced(s, b, mid', hi) && lo <= mid <= mid' <= hi
    ensures WellSpaced(s, a + b, lo, hi)
  {
    forall k | 0 <= k < |a + b| ensures Sound(s, (a + b)[k], lo, hi) {
      if k < |a| {
        assert Sound(s, a[k], lo, mid);
      } else {
        assert Sound(s, b[k - |a|], mid', hi);
      }
    }
    forall j, k | 0 <= j < k < |a + b| ensures (a + b)[j].close < (a + b)[k].open {
      if j < |a| <= k {
        assert Sound(s, a[j], lo, mid) && Sound(s, b[k - |a|], mid', hi);
      }
    }
  }

  lemma SpacedWider(s: string, rs: seq<Record>, lo: nat, hi: nat, lo': nat, hi': nat)
    requires WellSpaced(s, rs, lo, hi) && lo' <= lo && hi <= hi'
    ensures WellSpaced(s, rs, lo', hi')
  {
    assert forall k :: 0 <= k < |rs| ==> Sound(s, rs[k], lo, hi);
  }

  lemma EnterSpaced(s: string, a: seq<Record>, b: seq<Record>, i: nat, open: nat, close: nat, next: nat, end: nat)
    requires WellSpaced(s, a, open + 1, close) && WellSpaced(s, b, next, end)
    requires i <= open < close < next <= end
    ensures WellSpaced(s, a + b, i, end)
  {
    SpacedWider(s, a, open + 1, close, i, close);
    SpacedConcat(s, a, b, i, close, next, end);
  }

  lemma BodySpaced(s: string, name: Option<string>, b: seq<Record>, i: nat, open: nat, close: nat, next: nat, end: nat)
    requires WellSpaced(s, b, next, end) && Braced(s, open, close)
    requires i <= open < close < next <= end
    ensures WellSpaced(s, Found(name, open, close) + b, i, end)
  {
    assert forall n: string :: Sound(s, Record(n, open, close), i, close + 1);
    SpacedConcat(s, Found(name, open, close), b, i, close + 1, next, end);
  }

  /** The recorded bodies are pairwise disjoint, and each is balanced between matching braces. */
  lemma {:induction false} BodiesAreWellSpaced(rounds: Rounds, s: string, i: nat, end: nat, prefix: string)
    requires i <= end <= |s| && Forward(rounds, s)
    ensures WellSpaced(s, Records(rounds, s, i, end, prefix), i, end)
    decreases end - i
  {
    if i < end {
      match rounds(i, end, prefix)
      case Finished =>
      case Skip(next) =>
        BodiesAreWellSpaced(rounds, s, next, end, prefix);
        SpacedWider(s, Records(rounds, s, next, end, prefix), next, end, i, end);
      case Enter(open, close, inner, next) =>
        BodiesAreWellSpaced(rounds, s, open + 1, close, inner);
        BodiesAreWellSpaced(rounds, s, next, end, prefix);
        EnterSpaced(s, Records(rounds, s, open + 1, close, inner), Records(rounds, s, next, end, prefix), i, open, close, next, end);
      case Body(open, close, name, next) =>
        BodiesAreWellSpaced(rounds, s, next, end, prefix);
        BodySpaced(s, name, Records(rounds, s, next, end, prefix), i, open, close, next, end);
    }
  }

  // ---- The dictionary -------------------------------------------------------------------------

  ghost predicate Placed(s: string, rs: seq<Record>) {
    forall k :: 0 <= k < |rs| ==> rs[k].open < rs[k].close <= |s|
  }

  function BodyOf(s: string, r: Record): string
    requires r.open < r.close <= |s|
  {
    s[r.open + 1..r.close]
  }

  /** A later function of the same name takes the place of an earlier one. */
  ghost function Filed(bodies: map<string, string>, s: string, rs: seq<Record>): map<string, string>
    requires Placed(s, rs)
    decreases |rs|
  {
    if rs == [] then bodies else Filed(bodies[rs[0].name := BodyOf(s, rs[0])], s, rs[1..])
  }

  lemma TextConcat(s: string, a: seq<Record>, b: seq<Record>)
    requires Placed(s, a) && Placed(s, b)
    ensures Placed(s, a + b)
  {
  }

  lemma {:induction false} FiledInTwo(bodies: map<string, string>, s: string, a: seq<Record>, b: seq<Record>)
    requires Placed(s, a) && Placed(s, b) && Placed(s, a + b)
    ensures Filed(bodies, s, a + b) == Filed(Filed(bodies, s, a), s, b)
    decreases |a|
  {
    if a == [] {
      assert a + b == b;
    } else {
      TextConcat(s, a[1..], b);
      FiledInTwo(bodies[a[0].name := BodyOf(s, a[0])], s, a[1..], b);
      assert (a + b)[1..] == a[1..] + b;
    }
  }

  lemma SpacedIsPlaced(s: string, rs: seq<Record>, lo: nat, hi: nat)
    requires WellSpaced(s, rs, lo, hi) && hi <= |s|
    ensures Placed(s, rs)
  {
    assert forall k :: 0 <= k < |rs| ==> Sound(s, rs[k], lo, hi);
  }

  /** The dictionary after everything from `i` on has been recorded. */
  ghost function Dictionary(bodies: map<string, string>, rounds: Rounds, s: string, i: nat, end: nat, prefix: string): map<string, string>
    requires i <= end <= |s| && Forward(rounds, s)
  {
    BodiesAreWellSpaced(rounds, s, i, end, prefix);
    SpacedIsPlaced(s, Records(rounds, s, i, end, prefix), i, end);
    Filed(bodies, s, Records(rounds, s, i, end, prefix))
  }

  /** The last body recorded under `name`. */
  ghost predicate IsLast(rs: seq<Record>, name: string, k: nat) {
    k < |rs| && rs[k].name == name && forall j :: k < j < |rs| ==> rs[j].name != name
  }

  lemma {:induction false} LastExists(rs: seq<Record>, name: string)
    ensures (exists k :: 0 <= k < |rs| && rs[k].name == name) ==> exists k: nat :: IsLast(rs, name, k)
  {
    if rs != [] {
      var n := |rs| - 1;
      if rs[n].name == name {
        assert IsLast(rs, name, n);
      } else if k :| 0 <= k < |rs| && rs[k].name == name {
        assert rs[..n][k].name == name;
        LastExists(rs[..n], name);
        var m: nat :| IsLast(rs[..n], name, m);
        assert IsLast(rs, name, m);
      }
    }
  }

  lemma {:induction false} FiledOther(bodies: map<string, string>, s: string, rs: seq<Record>, name: string)
    requires Placed(s, rs) && forall k :: 0 <= k < |rs| ==> rs[k].name != name
    ensures name in Filed(bodies, s, rs) <==> name in bodies
    ensures name in bodies ==> Filed(bodies, s, rs)[name] == bodies[name]
    decreases |rs|
  {
    if rs != [] {
      FiledOther(bodies[rs[0].name := BodyOf(s, rs[0])], s, rs[1..], name);
    }
  }

  /** The dictionary maps a name to the last body recorded under it. */
  lemma {:induction false} FiledIsLast(bodies: map<string, string>, s: string, rs: seq<Record>, name: string, k: nat)
    requires Placed(s, rs) && IsLast(rs, name, k)
    ensures name in Filed(bodies, s, rs) && Filed(bodies, s, rs)[name] == BodyOf(s, rs[k])
    decreases |rs|
  {
    var bodies' := bodies[rs[0].name := BodyOf(s, rs[0])];
    if k == 0 {
      FiledOther(bodies', s, rs[1..], name);
    } else {
      assert IsLast(rs[1..], name, k - 1);
      FiledIsLast(bodies', s, rs[1..], name, k - 1);
    }
  }

  lemma SplitScans(bodies: map<string, string>, rounds: Rounds, s: string, i: nat, end: nat, prefix: string,
    from: nat, close: nat, inner: string, next: nat)
    requires i <= end <= |s| && from <= close <= |s| && next <= end && Forward(rounds, s)
    requires Records(rounds, s, i, end, prefix) == Records(rounds, s, from, close, inner) + Records(rounds, s, next, end, prefix)
    ensures Dictionary(bodies, rounds, s, i, end, prefix) ==
      Dictionary(Dictionary(bodies, rounds, s, from, close, inner), rounds, s, next, end, prefix)
  {
    var a, b := Records(rounds, s, from, close, inner), Records(rounds, s, next, end, prefix);
    BodiesAreWellSpaced(rounds, s, from, close, inner);
    BodiesAreWellSpaced(rounds, s, next, end, prefix);
    SpacedIsPlaced(s, a, from, close);
    SpacedIsPlaced(s, b, next, end);
    TextConcat(s, a, b);
    FiledInTwo(bodies, s, a, b);
  }

  lemma EnterRecords(rounds: Rounds, s: string, i: nat, end: nat, prefix: string)
    requires i < end <= |s| && Forward(rounds, s) && rounds(i, end, prefix).Enter?
    ensures
      var r := rounds(i, end, prefix);
      r.open < r.close < r.next <= end
      && Records(rounds, s, i, end, prefix) ==
         Records(rounds, s, r.open + 1, r.close, r.prefix) + Records(rounds, s, r.next, end, prefix)
  {
  }

  lemma EnterScans(bodies: map<string, string>, rounds: Rounds, s: string, i: nat, end: nat, prefix: string)
    requires i < end <= |s| && Forward(rounds, s) && rounds(i, end, prefix).Enter?
    ensures var r := rounds(i, end, prefix); r.open < r.close < end && r.close < r.next <= end
    ensures
      var r := rounds(i, end, prefix);
      Dictionary(bodies, rounds, s, i, end, prefix) ==
      Dictionary(Dictionary(bodies, rounds, s, r.open + 1, r.close, r.prefix), rounds, s, r.next, end, prefix)
  {
    var r := rounds(i, end, prefix);
    EnterRecords(rounds, s, i, end, prefix);
    SplitScans(bodies, rounds, s, i, end, prefix, r.open + 1, r.close, r.prefix, r.next);
  }

  lemma BodyRecords(rounds: Rounds, s: string, i: nat, end: nat, prefix: string)
    requires i < end <= |s| && Forward(rounds, s) && rounds(i, end, prefix).Body?
    ensures
      var r := rounds(i, end, prefix);
      r.open < r.close < r.next <= end
      && Records(rounds, s, i, end, prefix) == Found(r.name, r.open, r.close) + Records(rounds, s, r.next, end, prefix)
  {
  }

  lemma FoundIsFiled(bodies: map<string, string>, s: string, open: nat, close: nat, name: Option<string>)
    requires open < close <= |s|
    ensures Placed(s, Found(name, open, close))
    ensures Filed(bodies, s, Found(name, open, close))
         == if name == None then bodies else bodies[name.value := s[open + 1..close]]
  {
  }

  lemma BodyScans(bodies: map<string, string>, rounds: Rounds, s: string, i: nat, end: nat, prefix: string)
    requires i < end <= |s| && Forward(rounds, s) && rounds(i, end, prefix).Body?
    ensures
      var r := rounds(i, end, prefix);
      Dictionary(bodies, rounds, s, i, end, prefix) ==
      Dictionary(if r.name == None then bodies else bodies[r.name.value := s[r.open + 1..r.close]],
                 rounds, s, r.next, end, prefix)
  {
    var r := rounds(i, end, prefix);
    var a, b := Found(r.name, r.open, r.close), Records(rounds, s, r.next, end, prefix);
    BodyRecords(rounds, s, i, end, prefix);
    FoundIsFiled(bodies, s, r.open, r.close, r.name);
    BodiesAreWellSpaced(rounds, s, r.next, end, prefix);
    SpacedIsPlaced(s, b, r.next, end);
    TextConcat(s, a, b);
    FiledInTwo(bodies, s, a, b);
  }

  /** A round that only moves on, or ends the walk. */
  lemma OtherScans(bodies: map<string, string>, rounds: Rounds, s: string, i: nat, end: nat, prefix: string)
    requires i < end <= |s| && Forward(rounds, s)
    ensures rounds(i, end, prefix) == Finished ==> Dictionary(bodies, rounds, s, i, end, prefix) == bodies
    ensures rounds(i, end, prefix).Skip? ==>
      Dictionary(bodies, rounds, s, i, end, prefix) == Dictionary(bodies, rounds, s, rounds(i, end, prefix).next, end, prefix)
  {
  }

  // ---- The walk -------------------------------------------------------------------------------

  type Filing = (map<string, string>, nat, nat, string) -> map<string, string>

  /** What a walk has to do: its rounds, and the dictionary it ends with. */
  datatype Walk = Walk(rounds: Rounds, filing: Filing)

  /** A round goes forward and stays in the range. */
  predicate Within(i: nat, end: nat, r: Round) {
    match r
    case Finished => true
    case Skip(next) => i < next <= end
    case Enter(open, close, _, next) => i <= open < close < next <= end
    case Body(open, close, _, next) => i <= open < close < next <= end
  }

  ghost predicate Advances(rounds: Rounds, s: string) {
    forall i: nat, end: nat, prefix: string :: i < end <= |s| ==> Within(i, end, rounds(i, end, prefix))
  }

  lemma ForwardAdvances(rounds: Rounds, s: string)
    requires Forward(rounds, s)
    ensures Advances(rounds, s)
  {
  }

  ghost function FiledNext(w: Walk, s: string, bodies: map<string, string>, i: nat, end: nat, prefix: string): map<string, string>
    requires Advances(w.rounds, s)
  {
    if !(i < end <= |s|) then bodies
    else
      match w.rounds(i, end, prefix)
      case Finished => bodies
      case Skip(next) => w.filing(bodies, next, end, prefix)
      case Enter(open, close, inner, next) => w.filing(w.filing(bodies, open + 1, close, inner), next, end, prefix)
      case Body(open, close, name, next) => w.filing(Noted(bodies, s, open, close, name), next, end, prefix)
  }

  function Noted(bodies: map<string, string>, s: string, open: nat, close: nat, name: Option<string>): map<string, string>
    requires open < close <= |s|
  {
    match name
    case None => bodies
    case Some(n) => bodies[n := s[open + 1..close]]
  }

  /** Always true; names the places where the dictionary is taken one round further. */
  predicate Now(i: nat, end: nat, prefix: string) {
    true
  }

  ghost predicate Files(w: Walk, s: string)
    requires Advances(w.rounds, s)
  {
    forall bodies: map<string, string>, i: nat, end: nat, prefix: string {:trigger w.filing(bodies, i, end, prefix), Now(i, end, prefix)} ::
      Now(i, end, prefix) && i <= end <= |s| ==> w.filing(bodies, i, end, prefix) == FiledNext(w, s, bodies, i, end, prefix)
  }

  ghost predicate IsWalk(w: Walk, lex: Lexicon, s: string) {
    Advances(w.rounds, s) && Walks(w.rounds, lex, s) && Files(w, s)
  }

  ghost function FilingOf(rounds: Rounds, s: string): Filing {
    (bodies: map<string, string>, i: nat, end: nat, prefix: string) =>
      if i <= end <= |s| && Forward(rounds, s) then Dictionary(bodies, rounds, s, i, end, prefix) else bodies
  }

  lemma FilingIs(rounds: Rounds, s: string, bodies: map<string, string>, i: nat, end: nat, prefix: string)
    requires Forward(rounds, s) && i <= end <= |s|
    ensures FilingOf(rounds, s)(bodies, i, end, prefix) == Dictionary(bodies, rounds, s, i, end, prefix)
  {
  }

  lemma FilingEnter(rounds: Rounds, s: string, bodies: map<string, string>, i: nat, end: nat, prefix: string)
    requires Forward(rounds, s) && Advances(rounds, s) && i < end <= |s| && rounds(i, end, prefix).Enter?
    ensures FilingOf(rounds, s)(bodies, i, end, prefix)
         == FiledNext(Walk(rounds, FilingOf(rounds, s)), s, bodies, i, end, prefix)
  {
    var r := rounds(i, end, prefix);
    assert Within(i, end, r);
    EnterScans(bodies, rounds, s, i, end, prefix);
    var inside := Dictionary(bodies, rounds, s, r.open + 1, r.close, r.prefix);
    FilingIs(rounds, s, bodies, i, end, prefix);
    FilingIs(rounds, s, bodies, r.open + 1, r.close, r.prefix);
    FilingIs(rounds, s, inside, r.next, end, prefix);
  }

  lemma FilingBody(rounds: Rounds, s: string, bodies: map<string, string>, i: nat, end: nat, prefix: string)
    requires Forward(rounds, s) && Advances(rounds, s) && i < end <= |s| && rounds(i, end, prefix).Body?
    ensures FilingOf(rounds, s)(bodies, i, end, prefix)
         == FiledNext(Walk(rounds, FilingOf(rounds, s)), s, bodies, i, end, prefix)
  {
    var r := rounds(i, end, prefix);
    BodyScans(bodies, rounds, s, i, end, prefix);
    FilingIs(rounds, s, bodies, i, end, prefix);
    FilingIs(rounds, s, Noted(bodies, s, r.open, r.close, r.name), r.next, end, prefix);
  }

  lemma FilingStep(rounds: Rounds, s: string, bodies: map<string, string>, i: nat, end: nat, prefix: string)
    requires Forward(rounds, s) && Advances(rounds, s) && i <= end <= |s|
    ensures FilingOf(rounds, s)(bodies, i, end, prefix)
         == FiledNext(Walk(rounds, FilingOf(rounds, s)), s, bodies, i, end, prefix)
  {
    if i < end {
      match rounds(i, end, prefix)
      case Finished => OtherScans(bodies, rounds, s, i, end, prefix);
      case Skip(_) => OtherScans(bodies, rounds, s, i, end, prefix);
      case Enter(_, _, _, _) => FilingEnter(rounds, s, bodies, i, end, prefix);
      case Body(_, _, _, _) => FilingBody(rounds, s, bodies, i, end, prefix);
    }
  }

  ghost function WalkOf(lex: Lexicon, s: string): (w: Walk)
    requires Proper(lex, s)
    ensures IsWalk(w, lex, s) && w == Walk(RoundsOf(lex, s), FilingOf(RoundsOf(lex, s), s))
  {
    var rounds := RoundsOf(lex, s);
    var w := Walk(rounds, FilingOf(rounds, s));
    ForwardAdvances(rounds, s);
    assert Files(w, s) by {
      forall bodies: map<string, string>, i: nat, end: nat, prefix: string | i <= end <= |s|
        ensures w.filing(bodies, i, end, prefix) == FiledNext(w, s, bodies, i, end, prefix)
      {
        FilingStep(rounds, s, bodies, i, end, prefix);
      }
    }
    w
  }

  class Extractor {
    const lex: Lexicon
    var bodies: map<string, string>

    constructor (lex: Lexicon)
      ensures this.lex == lex && bodies == map[]
    {
      this.lex, bodies := lex, map[];
    }

    /** Walks `s[start..end]`, calling itself on every namespace and class. */
    method Scan(s: string, start: nat, end: nat, prefix: string, ghost w: Walk)
      requires start <= end <= |s| && IsWalk(w, lex, s)
      modifies this
      ensures bodies == w.filing(old(bodies), start, end, prefix)
      decreases end - start, 3
    {
      var i := start;
      while i < end
        invariant start <= i <= end
        invariant w.filing(bodies, i, end, prefix) == w.filing(old(bodies), start, end, prefix)
        decreases end - i
      {
        var next := Step(s, i, end, prefix, w);
        if next == None {
          return;
        }
        i := next.value;
      }
      assert Now(i, end, prefix);
    }

    /** The effect of one round: where it leads, or None where the loop returns. */
    ghost predicate Stepped(before: map<string, string>, w: Walk, i: nat, end: nat, prefix: string, next: Option<nat>)
      reads this
    {
      match next
      case None => bodies == w.filing(before, i, end, prefix)
      case Some(k) => i < k <= end && w.filing(bodies, k, end, prefix) == w.filing(before, i, end, prefix)
    }

    /** One round of the loop. */
    method Step(s: string, i: nat, end: nat, prefix: string, ghost w: Walk) returns (next: Option<nat>)
      requires i < end <= |s| && IsWalk(w, lex, s)
      modifies this
      ensures Stepped(old(bodies), w, i, end, prefix, next)
      decreases end - i, 2
    {
      assert Here(i, end, prefix) && Now(i, end, prefix);
      var c := s[i];
      if lex.isSpace(c) {
        return Some(i + 1);
      }
      if c == '}' {
        return None;
      }
      if c == '#' || (c == '/' && i + 1 < end && s[i + 1] == '/') {
        var k := SkipLine(s, i, end);
        return Some(k);
      }
      if c == '/' && i + 1 < end && s[i + 1] == '*' {
        var k := SkipComment(s, i + 2, end);
        return Some(k);
      }
      match lex.construct(s, i, end) {
        case Declaration(e) => return Some(e);
        case Namespace(name, open) => next := Scope(s, i, end, prefix, open, Join(prefix, name), false, w);
        case Anonymous(open) => next := Scope(s, i, end, prefix, open, prefix, false, w);
        case Class(name, open) => next := Scope(s, i, end, prefix, open, Join(prefix, name), true, w);
        case Other => next := Statement(s, i, end, prefix, w);
      }
    }

    /** A namespace or a class: its inside is walked first. A missing brace ends the walk. */
    method Scope(s: string, i: nat, end: nat, prefix: string, open: nat, inner: string, isClass: bool, ghost w: Walk)
      returns (next: Option<nat>)
      requires i < end <= |s| && IsWalk(w, lex, s)
      requires w.rounds(i, end, prefix) == EnterAt(lex, s, open, end, inner, isClass)
      modifies this
      ensures Stepped(old(bodies), w, i, end, prefix, next)
      decreases end - i, 1
    {
      assert Now(i, end, prefix);
      var close := FindMatchingBrace(s, open);
      if close < 0 || close >= end {
        return None;
      }
      Inside(s, i, end, prefix, open, close, inner, w);
      if isClass {
        var k := SkipSemicolon(lex, s, close + 1, end);
        return Some(k);
      }
      next := Some(close + 1);
    }

    method Inside(s: string, i: nat, end: nat, prefix: string, open: nat, close: nat, inner: string, ghost w: Walk)
      requires i < end <= |s| && IsWalk(w, lex, s) && w.rounds(i, end, prefix).Enter?
      requires Enter(open, close, inner, w.rounds(i, end, prefix).next) == w.rounds(i, end, prefix)
      modifies this
      ensures w.filing(bodies, w.rounds(i, end, prefix).next, end, prefix) == w.filing(old(bodies), i, end, prefix)
      decreases end - i, 0
    {
      assert Now(i, end, prefix);
      Scan(s, open + 1, close, inner, w);
    }

    /** A declaration, or a block with what stands before it: a function if that reads like one. */
    method Statement(s: string, i: nat, end: nat, prefix: string, ghost w: Walk) returns (next: Option<nat>)
      requires i < end <= |s| && IsWalk(w, lex, s)
      requires w.rounds(i, end, prefix) == StatementAt(lex, s, i, end, prefix)
      modifies this
      ensures Stepped(old(bodies), w, i, end, prefix, next)
    {
      assert Now(i, end, prefix);
      var marker := FindNextTop(s, i, end);
      if marker < 0 {
        return None;
      }
      if s[marker] == ';' {
        return Some(marker + 1);
      }
      if s[marker] == '}' {
        return None;
      }
      next := Block(s, i, end, prefix, marker, lex.functionName(s[i..marker]), w);
    }

    /** A block, recorded if a function name stands before it. A missing brace ends the walk. */
    method Block(s: string, i: nat, end: nat, prefix: string, open: nat, name: Option<string>, ghost w: Walk)
      returns (next: Option<nat>)
      requires i < end <= |s| && IsWalk(w, lex, s)
      requires w.rounds(i, end, prefix) == BodyAt(lex, s, open, end, prefix, name)
      modifies this
      ensures Stepped(old(bodies), w, i, end, prefix, next)
    {
      assert Now(i, end, prefix);
      var close := FindMatchingBrace(s, open);
      if close < 0 || close >= end {
        return None;
      }
      if name.Some? {
        bodies := bodies[Join(prefix, name.value) := s[open + 1..close]];
      }
      var k := SkipSemicolon(lex, s, close + 1, end);
      next := Some(k);
    }
  }
}
