/** Texts as they are written: declarations, scopes and functions, one in the other, with spaces, directives
    and comments between them. What `_scan` files of such a text can be read off the tree. */
module SourceTrees {
  import opened Options
  import opened Braces
  import opened Scanner

  datatype Scope = Named(name: string) | Unnamed | Classed(name: string)

  /** A text, piece by piece. A block is a function if it has a name; `Remains` is what the walk leaves
      unread: a stray closing brace, a statement or a scope that is not closed. */
  datatype Source =
    | End
    | Gap(c: char, rest: Source)
    | Line(text: string, rest: Source)
    | Comment(text: string, rest: Source)
    | Declared(text: string, rest: Source)
    | Statement(text: string, rest: Source)
    | Scoped(scope: Scope, head: string, body: Source, rest: Source)
    | Block(name: Option<string>, head: string, text: string, rest: Source)
    | Remains(text: string)

  predicate IsFinal(t: Source) {
    t.End? || t.Remains?
  }

  /** The first piece of a text, with all that is inside it. */
  function Piece(t: Source): string
    decreases t, 0
  {
    match t
    case End => ""
    case Gap(c, _) => [c]
    case Line(text, _) => text + "\n"
    case Comment(text, _) => "/*" + text + "*/"
    case Declared(text, _) => text
    case Statement(text, _) => text + ";"
    case Scoped(_, head, body, _) => head + "{" + Text(body) + "}"
    case Block(_, head, text, _) => head + "{" + text + "}"
    case Remains(text) => text
  }

  function Text(t: Source): string
    decreases t, 1
  {
    if IsFinal(t) then Piece(t) else Piece(t) + Text(t.rest)
  }

  // ---- The functions of a tree ----------------------------------------------------------------

  /** A function under its full name. */
  datatype Function = Function(name: string, body: string)

  /** Names joined from outside to inside. */
  function Path(names: seq<string>): string {
    if names == [] then "" else if |names| == 1 then names[0] else names[0] + "::" + Path(names[1..])
  }

  function Inside(scopes: seq<string>, scope: Scope): seq<string> {
    match scope
    case Named(name) => scopes + [name]
    case Unnamed => scopes
    case Classed(name) => scopes + [name]
  }

  /** The functions of a tree inside `scopes`, in the order of the text. */
  function Listed(t: Source, scopes: seq<string>): seq<Function> {
    match t
    case End => []
    case Gap(_, rest) => Listed(rest, scopes)
    case Line(_, rest) => Listed(rest, scopes)
    case Comment(_, rest) => Listed(rest, scopes)
    case Declared(_, rest) => Listed(rest, scopes)
    case Statement(_, rest) => Listed(rest, scopes)
    case Scoped(scope, _, body, rest) => Listed(body, Inside(scopes, scope)) + Listed(rest, scopes)
    case Block(name, _, body, rest) =>
      (if name.Some? then [Function(Path(scopes + [name.value]), body)] else []) + Listed(rest, scopes)
    case Remains(_) => []
  }

  // ---- Reading a tree off a text --------------------------------------------------------------

  ghost predicate Stands(s: string, i: nat, end: nat, text: string) {
    i + |text| <= end <= |s| && s[i..i + |text|] == text
  }

  /** What begins a construct: no space, brace or directive, and no comment. */
  predicate Begins(lex: Lexicon, text: string) {
    && text != "" && !lex.isSpace(text[0]) && text[0] != '}' && text[0] != '#'
    && (text[0] == '/' ==> |text| >= 2 && text[1] != '/' && text[1] != '*')
  }

  /** A directive or a line comment. */
  predicate IsLine(lex: Lexicon, text: string) {
    && text != "" && !lex.isSpace(text[0]) && (text[0] == '#' || (text[0] == '/' && |text| >= 2 && text[1] == '/'))
    && '\n' !in text
  }

  /** The comment ends where it does, and not before. */
  predicate IsComment(text: string) {
    forall k :: 0 <= k < |text| ==> !((text + "*/")[k] == '*' && (text + "*/")[k + 1] == '/')
  }

  /** No mark at the top level, and all parentheses closed. */
  predicate IsFlat(text: string) {
    Parens(text) == 0 && forall k :: 0 <= k < |text| ==> !TopAt(text, 0, k)
  }

  /** The first mark at the top level from `i` on. */
  predicate IsFirstTop(s: string, i: nat, end: nat, j: nat) {
    i <= j < end <= |s| && TopAt(s, i, j) && forall k :: i <= k < j ==> !TopAt(s, i, k)
  }

  ghost predicate NeverClosed(s: string, open: nat, end: nat) {
    forall close: nat :: close < end ==> !Matches(s, open, close)
  }

  /** The lexicon finds this scope with its brace at `open`. */
  predicate IsScope(c: Construct, scope: Scope, open: nat) {
    match scope
    case Named(name) => c == Namespace(name, open)
    case Unnamed => c == Anonymous(open)
    case Classed(name) => c == Class(name, open)
  }

  predicate Nameless(scope: Scope) {
    !scope.Unnamed? && scope.name == ""
  }

  /** Nothing more can be read in `s[i..end]`. */
  ghost predicate GivesUp(lex: Lexicon, s: string, i: nat, end: nat)
    requires i <= end <= |s|
  {
    i < end && !lex.isSpace(s[i]) && s[i] != ';' &&
    (s[i] == '}' ||
     (Begins(lex, s[i..end]) &&
      match lex.construct(s, i, end)
      case Declaration(_) => false
      case Namespace(_, open) => NeverClosed(s, open, end)
      case Anonymous(open) => NeverClosed(s, open, end)
      case Class(_, open) => NeverClosed(s, open, end)
      case Other =>
        || (forall j: nat :: !IsFirstTop(s, i, end, j))
        || (exists j: nat :: IsFirstTop(s, i, end, j) && (s[j] == '}' || (s[j] == '{' && NeverClosed(s, j, end))))))
  }

  /** The lexicon recognises the piece of the tree that stands at `i`. */
  ghost predicate Recognises(lex: Lexicon, s: string, i: nat, end: nat, t: Source)
    requires i <= end <= |s|
  {
    match t
    case End => true
    case Gap(c, _) => lex.isSpace(c)
    case Line(text, _) => IsLine(lex, text) && lex.isSpace('\n')
    case Comment(text, _) => IsComment(text) && !lex.isSpace('/')
    case Declared(text, _) => Begins(lex, text) && text[0] != ';' && lex.construct(s, i, end) == Declaration(i + |text|)
    case Statement(text, _) => Begins(lex, text + ";") && IsFlat(text) && lex.construct(s, i, end) == Other
    case Scoped(scope, head, body, _) =>
      && Begins(lex, head + "{") && head != "" && head[0] != ';' && !Nameless(scope)
      && IsScope(lex.construct(s, i, end), scope, i + |head|) && Balanced(Text(body))
    case Block(name, head, text, _) =>
      && Begins(lex, head + "{") && IsFlat(head) && Balanced(text)
      && lex.construct(s, i, end) == Other && lex.functionName(head) == name
    case Remains(_) => GivesUp(lex, s, i, end)
  }

  /** `s[i..end]` is the text of the tree, and the lexicon reads it as such, outside and inside scopes. */
  ghost predicate Reads(lex: Lexicon, s: string, i: nat, end: nat, t: Source)
    decreases t
  {
    && Stands(s, i, end, Piece(t)) && Recognises(lex, s, i, end, t)
    && (IsFinal(t) ==> i + |Piece(t)| == end)
    && (!IsFinal(t) ==> Reads(lex, s, i + |Piece(t)|, end, t.rest))
    && (t.Scoped? ==> Reads(lex, s, i + |t.head| + 1, i + |t.head| + 1 + |Text(t.body)|, t.body))
  }

  lemma Cut(s: string, i: nat, j: nat, end: nat)
    requires i <= j <= end <= |s|
    ensures s[i..end] == s[i..j] + s[j..end]
  {
  }

  /** What is read is the text of the tree. */
  lemma {:induction false} ReadsText(lex: Lexicon, s: string, i: nat, end: nat, t: Source)
    requires Reads(lex, s, i, end, t)
    ensures i <= end <= |s| && s[i..end] == Text(t)
    decreases t
  {
    if !IsFinal(t) {
      var j := i + |Piece(t)|;
      ReadsText(lex, s, j, end, t.rest);
      Cut(s, i, j, end);
    }
  }

  // ---- One round of the walk ------------------------------------------------------------------

  lemma {:induction false} LineEndIs(s: string, i: nat, end: nat, j: nat)
    requires i <= j < end <= |s| && s[j] == '\n' && forall k :: i <= k < j ==> s[k] != '\n'
    ensures LineEnd(s, i, end) == j
    decreases j - i
  {
    if i < j { LineEndIs(s, i + 1, end, j); }
  }

  lemma {:induction false} CommentEndIs(s: string, i: nat, end: nat, j: nat)
    requires i <= j && At(s, j, end, '*', '/') && forall k :: i <= k < j ==> !At(s, k, end, '*', '/')
    ensures CommentEnd(s, i, end) == j + 2
    decreases j - i
  {
    if i < j { CommentEndIs(s, i + 1, end, j); }
  }

  lemma ParensOne(s: string, i: nat, k: nat)
    requires i <= k < |s|
    ensures Parens(s[i..k + 1]) == Parens(s[i..k]) + (if s[k] == '(' then 1 else if s[k] == ')' then -1 else 0)
  {
    assert s[i..k + 1][..k - i] == s[i..k];
  }

  /** The search finds the first mark at the top level, if there is one. */
  lemma {:induction false} NextTopIsFirst(s: string, i: nat, k: nat, end: nat)
    requires i <= k <= end <= |s| && forall j :: i <= j < k ==> !TopAt(s, i, j)
    ensures var r := NextTop(s, k, end, Parens(s[i..k]));
            if r < 0 then r == -1 && forall j :: i <= j < end ==> !TopAt(s, i, j) else IsFirstTop(s, i, end, r)
    decreases end - k
  {
    if k < end && !TopAt(s, i, k) {
      ParensOne(s, i, k);
      NextTopIsFirst(s, i, k + 1, end);
    }
  }

  /** A flat text is followed by its mark. */
  lemma FlatTop(s: string, i: nat, end: nat, text: string)
    requires Stands(s, i, end, text) && i + |text| < end && IsFlat(text) && IsTop(s[i + |text|])
    ensures NextTop(s, i, end, 0) == i + |text|
  {
    var j := i + |text|;
    forall k | i <= k < j ensures !TopAt(s, i, k) {
      assert s[i..k] == text[0..k - i] && s[k] == text[k - i];
      assert !TopAt(text, 0, k - i);
    }
    assert s[i..j] == text;
    assert IsFirstTop(s, i, end, j);
    NextTopFrom(s, i, end);
  }

  lemma NextTopFrom(s: string, i: nat, end: nat)
    requires i <= end <= |s|
    ensures var r := NextTop(s, i, end, 0);
            if r < 0 then r == -1 && forall j :: i <= j < end ==> !TopAt(s, i, j) else IsFirstTop(s, i, end, r)
  {
    assert s[i..i] == [];
    NextTopIsFirst(s, i, i, end);
  }

  lemma StandsAt(s: string, i: nat, end: nat, text: string, k: nat)
    requires Stands(s, i, end, text) && k < |text|
    ensures s[i + k] == text[k]
  {
    assert s[i..i + |text|][k] == text[k];
  }

  lemma StandsFirst(s: string, i: nat, end: nat, a: string, b: string)
    requires Stands(s, i, end, a + b)
    ensures Stands(s, i, end, a) && Stands(s, i + |a|, end, b)
  {
    var t := s[i..i + |a + b|];
    assert t[..|a|] == a && t[|a|..] == b;
    assert s[i..i + |a|] == t[..|a|] && s[i + |a|..i + |a| + |b|] == t[|a|..];
  }

  lemma StandsPart(s: string, i: nat, end: nat, a: string, b: string, c: string)
    requires Stands(s, i, end, a + b + c)
    ensures Stands(s, i, end, a) && Stands(s, i + |a|, end, b) && Stands(s, i + |a| + |b|, end, c)
  {
    StandsFirst(s, i, end, a + b, c);
    StandsFirst(s, i, end, a, b);
  }

  /** Where a construct begins, the walk asks the lexicon. */
  lemma BeginsHere(lex: Lexicon, s: string, i: nat, end: nat, text: string, prefix: string)
    requires Stands(s, i, end, text) && Begins(lex, text)
    ensures RoundAt(lex, s, i, end, prefix) == ConstructAt(lex, s, i, end, prefix)
  {
    StandsAt(s, i, end, text, 0);
    if text[0] == '/' { StandsAt(s, i, end, text, 1); }
  }

  lemma LineRound(lex: Lexicon, s: string, i: nat, end: nat, text: string, prefix: string)
    requires Stands(s, i, end, text + "\n") && IsLine(lex, text)
    ensures RoundAt(lex, s, i, end, prefix) == Skip(i + |text|) && s[i + |text|] == '\n'
  {
    var line := text + "\n";
    forall k | i <= k < i + |text| ensures s[k] != '\n' {
      StandsAt(s, i, end, line, k - i);
      assert text[k - i] in text;
    }
    StandsAt(s, i, end, line, |text|);
    StandsAt(s, i, end, line, 0);
    if |text| >= 2 { StandsAt(s, i, end, line, 1); }
    LineEndIs(s, i, end, i + |text|);
  }

  lemma CommentRound(lex: Lexicon, s: string, i: nat, end: nat, text: string, prefix: string)
    requires Stands(s, i, end, "/*" + text + "*/") && IsComment(text) && !lex.isSpace('/')
    ensures RoundAt(lex, s, i, end, prefix) == Skip(i + |text| + 4)
  {
    var tail := text + "*/";
    assert "/*" + text + "*/" == "/*" + tail + "";
    StandsPart(s, i, end, "/*", tail, "");
    StandsAt(s, i, end, "/*", 0);
    StandsAt(s, i, end, "/*", 1);
    forall k | i + 2 <= k < i + 2 + |text| ensures !At(s, k, end, '*', '/') {
      StandsAt(s, i + 2, end, tail, k - i - 2);
      StandsAt(s, i + 2, end, tail, k - i - 1);
    }
    StandsAt(s, i + 2, end, tail, |text|);
    StandsAt(s, i + 2, end, tail, |text| + 1);
    CommentEndIs(s, i + 2, end, i + 2 + |text|);
  }

  lemma StatementRound(lex: Lexicon, s: string, i: nat, end: nat, text: string, prefix: string)
    requires Stands(s, i, end, text + ";") && Begins(lex, text + ";") && IsFlat(text) && lex.construct(s, i, end) == Other
    ensures RoundAt(lex, s, i, end, prefix) == Skip(i + |text| + 1)
  {
    BeginsHere(lex, s, i, end, text + ";", prefix);
    assert text + ";" == text + ";" + "";
    StandsPart(s, i, end, text, ";", "");
    StandsAt(s, i + |text|, end, ";", 0);
    FlatTop(s, i, end, text);
  }

  /** What stands between two braces is what they enclose. */
  lemma Enclosed(s: string, i: nat, end: nat, head: string, inside: string)
    requires Stands(s, i, end, head + "{" + inside + "}")
    ensures var open := i + |head|;
            var close := open + 1 + |inside|;
            && Stands(s, i, end, head) && Stands(s, i, end, head + "{") && s[open] == '{'
            && close < end && s[open + 1..close] == inside && s[close] == '}'
  {
    StandsPart(s, i, end, head + "{", inside, "}");
    StandsFirst(s, i, end, head, "{");
    StandsAt(s, i + |head|, end, "{", 0);
    StandsAt(s, i + |head| + 1 + |inside|, end, "}", 0);
  }

  lemma BlockRound(lex: Lexicon, s: string, i: nat, end: nat, name: Option<string>, head: string, close: nat, prefix: string)
    requires Stands(s, i, end, head) && Stands(s, i, end, head + "{") && Begins(lex, head + "{") && IsFlat(head)
    requires s[i + |head|] == '{' && Closing(s, i + |head|) == close < end
    requires lex.construct(s, i, end) == Other && lex.functionName(head) == name
    ensures var full := if name == None then None else Some(Join(prefix, name.value));
            RoundAt(lex, s, i, end, prefix) == Body(i + |head|, close, full, SemicolonEnd(lex, s, close + 1, end))
  {
    BeginsHere(lex, s, i, end, head + "{", prefix);
    FlatTop(s, i, end, head);
  }

  /** The prefix inside a scope. */
  function Prefixed(prefix: string, scope: Scope): string {
    if scope.Unnamed? then prefix else Join(prefix, scope.name)
  }

  lemma ScopeEnters(lex: Lexicon, s: string, i: nat, end: nat, scope: Scope, open: nat, prefix: string)
    requires i < end <= |s| && IsScope(lex.construct(s, i, end), scope, open)
    ensures ConstructAt(lex, s, i, end, prefix) == EnterAt(lex, s, open, end, Prefixed(prefix, scope), scope.Classed?)
  {
  }

  lemma ScopedRound(lex: Lexicon, s: string, i: nat, end: nat, scope: Scope, head: string, close: nat, prefix: string)
    requires Stands(s, i, end, head + "{") && Begins(lex, head + "{") && Closing(s, i + |head|) == close < end
    requires IsScope(lex.construct(s, i, end), scope, i + |head|)
    ensures var next := if scope.Classed? then SemicolonEnd(lex, s, close + 1, end) else close + 1;
            RoundAt(lex, s, i, end, prefix) == Enter(i + |head|, close, Prefixed(prefix, scope), next)
  {
    BeginsHere(lex, s, i, end, head + "{", prefix);
    ScopeEnters(lex, s, i, end, scope, i + |head|, prefix);
  }

  lemma EnclosedBy(s: string, i: nat, end: nat, head: string, inside: string, close: nat)
    requires Stands(s, i, end, head + "{" + inside + "}") && Balanced(inside) && close == i + |head| + 1 + |inside|
    ensures close < end <= |s| && s[i + |head| + 1..close] == inside && Closing(s, i + |head|) == close
    ensures Stands(s, i, end, head) && Stands(s, i, end, head + "{") && s[i + |head|] == '{'
  {
    Enclosed(s, i, end, head, inside);
    ClosingIs(s, i + |head|, close);
  }

  lemma BlockRoundAt(lex: Lexicon, s: string, i: nat, end: nat, name: Option<string>, head: string, text: string, close: nat,
    prefix: string)
    requires Stands(s, i, end, head + "{" + text + "}") && Begins(lex, head + "{") && IsFlat(head) && Balanced(text)
    requires lex.construct(s, i, end) == Other && lex.functionName(head) == name && close == i + |head| + 1 + |text|
    ensures close < end <= |s| && s[i + |head| + 1..close] == text
    ensures var full := if name == None then None else Some(Join(prefix, name.value));
            RoundAt(lex, s, i, end, prefix) == Body(i + |head|, close, full, SemicolonEnd(lex, s, close + 1, end))
  {
    EnclosedBy(s, i, end, head, text, close);
    BlockRound(lex, s, i, end, name, head, close, prefix);
  }

  lemma ScopedRoundAt(lex: Lexicon, s: string, i: nat, end: nat, scope: Scope, head: string, inside: string, close: nat,
    prefix: string)
    requires Stands(s, i, end, head + "{" + inside + "}") && Begins(lex, head + "{") && Balanced(inside)
    requires IsScope(lex.construct(s, i, end), scope, i + |head|) && close == i + |head| + 1 + |inside|
    ensures close < end <= |s|
    ensures var next := if scope.Classed? then SemicolonEnd(lex, s, close + 1, end) else close + 1;
            RoundAt(lex, s, i, end, prefix) == Enter(i + |head|, close, Prefixed(prefix, scope), next)
  {
    EnclosedBy(s, i, end, head, inside, close);
    ScopedRound(lex, s, i, end, scope, head, close, prefix);
  }

  lemma NeverClosing(s: string, open: nat, end: nat)
    requires NeverClosed(s, open, end)
    ensures Closing(s, open) < 0 || Closing(s, open) >= end
  {
  }

  lemma RemainsRound(lex: Lexicon, s: string, i: nat, end: nat, prefix: string)
    requires i <= end <= |s| && GivesUp(lex, s, i, end)
    ensures RoundAt(lex, s, i, end, prefix) == Finished
  {
    if s[i] != '}' {
      BeginsHere(lex, s, i, end, s[i..end], prefix);
      match lex.construct(s, i, end)
      case Declaration(_) =>
      case Namespace(_, open) => NeverClosing(s, open, end);
      case Anonymous(open) => NeverClosing(s, open, end);
      case Class(_, open) => NeverClosing(s, open, end);
      case Other =>
        NextTopFrom(s, i, end);
        var r := NextTop(s, i, end, 0);
        if r >= 0 { RemainsStatement(lex, s, i, end, r, prefix); }
    }
  }

  lemma RemainsStatement(lex: Lexicon, s: string, i: nat, end: nat, r: nat, prefix: string)
    requires IsFirstTop(s, i, end, r) && NextTop(s, i, end, 0) == r
    requires exists j: nat :: IsFirstTop(s, i, end, j) && (s[j] == '}' || (s[j] == '{' && NeverClosed(s, j, end)))
    ensures StatementAt(lex, s, i, end, prefix) == Finished
  {
    var j: nat :| IsFirstTop(s, i, end, j) && (s[j] == '}' || (s[j] == '{' && NeverClosed(s, j, end)));
    assert j == r;
    if s[j] == '{' { NeverClosing(s, j, end); }
  }

  // ---- Names ----------------------------------------------------------------------------------

  predicate AreNames(names: seq<string>) {
    forall k :: 0 <= k < |names| ==> names[k] != ""
  }

  lemma {:induction false} PathNotEmpty(names: seq<string>)
    requires AreNames(names)
    ensures Path(names) == "" <==> names == []
  {
  }

  /** Joining name by name is joining all of them. */
  lemma {:induction false} JoinIsPath(scopes: seq<string>, name: string)
    requires AreNames(scopes)
    ensures Join(Path(scopes), name) == Path(scopes + [name])
  {
    PathNotEmpty(scopes);
    if |scopes| > 1 {
      JoinIsPath(scopes[1..], name);
      PathNotEmpty(scopes[1..]);
      assert (scopes + [name])[1..] == scopes[1..] + [name];
      assert scopes[0] + "::" + Path(scopes[1..]) + "::" + name == scopes[0] + "::" + (Path(scopes[1..]) + "::" + name);
    } else if |scopes| == 1 {
      assert (scopes + [name])[1..] == [name];
    }
  }

  // ---- What is found --------------------------------------------------------------------------

  /** The functions found from a position on, in a range and under a prefix. */
  type Finding = (nat, nat, string) -> seq<Function>

  /** What one round finds, and what is found behind it. */
  ghost function FoundNext(found: Finding, lex: Lexicon, s: string, i: nat, end: nat, prefix: string): seq<Function> {
    if i < end <= |s| then RoundFinds(found, s, RoundAt(lex, s, i, end, prefix), end, prefix) else []
  }

  ghost function RoundFinds(found: Finding, s: string, r: Round, end: nat, prefix: string): seq<Function> {
    match r
    case Finished => []
    case Skip(next) => found(next, end, prefix)
    case Enter(open, close, inner, next) => found(open + 1, close, inner) + found(next, end, prefix)
    case Body(open, close, name, next) => Filed(s, open, close, name) + found(next, end, prefix)
  }

  function Filed(s: string, open: nat, close: nat, name: Option<string>): seq<Function> {
    if name.Some? && open < close <= |s| then [Function(name.value, s[open + 1..close])] else []
  }

  ghost predicate Follows(found: Finding, lex: Lexicon, s: string) {
    forall i: nat, end: nat, prefix: string {:trigger Here(i, end, prefix)} ::
      Here(i, end, prefix) && i <= end <= |s| ==> found(i, end, prefix) == FoundNext(found, lex, s, i, end, prefix)
  }

  lemma FoundFinished(found: Finding, lex: Lexicon, s: string, i: nat, end: nat, prefix: string)
    requires Follows(found, lex, s) && i <= end <= |s| && (i == end || RoundAt(lex, s, i, end, prefix) == Finished)
    ensures found(i, end, prefix) == []
  {
    assert Here(i, end, prefix);
  }

  lemma FoundSkip(found: Finding, lex: Lexicon, s: string, i: nat, end: nat, prefix: string, next: nat)
    requires Follows(found, lex, s) && i < end <= |s| && RoundAt(lex, s, i, end, prefix) == Skip(next)
    ensures found(i, end, prefix) == found(next, end, prefix)
  {
    assert Here(i, end, prefix);
  }

  lemma FoundEnter(found: Finding, lex: Lexicon, s: string, i: nat, end: nat, prefix: string,
    open: nat, close: nat, inner: string, next: nat)
    requires Follows(found, lex, s) && i < end <= |s| && RoundAt(lex, s, i, end, prefix) == Enter(open, close, inner, next)
    ensures found(i, end, prefix) == found(open + 1, close, inner) + found(next, end, prefix)
  {
    assert Here(i, end, prefix);
  }

  lemma FoundBody(found: Finding, lex: Lexicon, s: string, i: nat, end: nat, prefix: string,
    open: nat, close: nat, name: Option<string>, next: nat)
    requires Follows(found, lex, s) && i < end <= |s| && RoundAt(lex, s, i, end, prefix) == Body(open, close, name, next)
    requires open < close <= |s|
    ensures found(i, end, prefix)
         == (if name.Some? then [Function(name.value, s[open + 1..close])] else []) + found(next, end, prefix)
  {
    assert Here(i, end, prefix);
  }

  // ---- The whole tree -------------------------------------------------------------------------

  /** Where a piece begins with a semicolon, it is an empty statement. */
  lemma SemicolonIsStatement(lex: Lexicon, s: string, i: nat, end: nat, t: Source)
    requires Reads(lex, s, i, end, t) && !t.End? && !t.Gap?
    ensures i < end && !lex.isSpace(s[i])
    ensures s[i] == ';' ==> t.Statement? && t.text == ""
  {
    if !t.Remains? {
      StandsAt(s, i, end, Piece(t), 0);
    }
    if t.Statement? && t.text != "" { assert !TopAt(t.text, 0, 0); }
    if t.Block? && t.head != "" { assert !TopAt(t.head, 0, 0); }
  }

  /** Skipping a semicolon behind a block skips nothing that would be found. */
  lemma {:induction false} SemicolonSkipped(found: Finding, lex: Lexicon, s: string, i: nat, end: nat, t: Source, prefix: string)
    requires Follows(found, lex, s) && Reads(lex, s, i, end, t)
    ensures var k := SemicolonEnd(lex, s, i, end);
            found(k, end, prefix) == found(i, end, prefix)
    decreases t
  {
    if t.Gap? {
      StandsAt(s, i, end, Piece(t), 0);
      FoundSkip(found, lex, s, i, end, prefix, i + 1);
      SemicolonSkipped(found, lex, s, i + 1, end, t.rest, prefix);
    } else if !t.End? {
      SemicolonIsStatement(lex, s, i, end, t);
      if s[i] == ';' {
        StatementRound(lex, s, i, end, t.text, prefix);
        FoundSkip(found, lex, s, i, end, prefix, i + 1);
      }
    }
  }

  /** What is found behind a semicolon at `i` is what is found from `i` on. */
  ghost predicate Skippable(found: Finding, lex: Lexicon, s: string, i: nat, end: nat, prefix: string) {
    i <= end <= |s| && found(SemicolonEnd(lex, s, i, end), end, prefix) == found(i, end, prefix)
  }

  /** A scope at `i`, closed at `close`. */
  ghost predicate ScopedHere(lex: Lexicon, s: string, i: nat, end: nat, t: Source, close: nat) {
    && t.Scoped? && close == i + |t.head| + 1 + |Text(t.body)| < end
    && Stands(s, i, end, t.head + "{" + Text(t.body) + "}") && Begins(lex, t.head + "{") && Balanced(Text(t.body))
    && IsScope(lex.construct(s, i, end), t.scope, i + |t.head|) && !Nameless(t.scope)
  }

  /** A block at `i`, closed at `close`. */
  ghost predicate BlockHere(lex: Lexicon, s: string, i: nat, end: nat, t: Source, close: nat) {
    && t.Block? && close == i + |t.head| + 1 + |t.text| < end
    && Stands(s, i, end, t.head + "{" + t.text + "}") && Begins(lex, t.head + "{") && IsFlat(t.head) && Balanced(t.text)
    && lex.construct(s, i, end) == Other && lex.functionName(t.head) == t.name
  }

  lemma ReadsScoped(lex: Lexicon, s: string, i: nat, end: nat, t: Source, close: nat)
    requires Reads(lex, s, i, end, t) && t.Scoped? && close == i + |t.head| + 1 + |Text(t.body)|
    ensures ScopedHere(lex, s, i, end, t, close)
    ensures Reads(lex, s, i + |t.head| + 1, close, t.body) && Reads(lex, s, close + 1, end, t.rest)
  {
  }

  lemma ReadsBlock(lex: Lexicon, s: string, i: nat, end: nat, t: Source, close: nat)
    requires Reads(lex, s, i, end, t) && t.Block? && close == i + |t.head| + 1 + |t.text|
    ensures BlockHere(lex, s, i, end, t, close) && Reads(lex, s, close + 1, end, t.rest)
  {
  }

  lemma ScopedFound(found: Finding, lex: Lexicon, s: string, i: nat, end: nat, scope: Scope, head: string, inside: string,
    close: nat, prefix: string)
    requires Follows(found, lex, s) && close == i + |head| + 1 + |inside|
    requires Stands(s, i, end, head + "{" + inside + "}") && Begins(lex, head + "{") && Balanced(inside)
    requires IsScope(lex.construct(s, i, end), scope, i + |head|) && Skippable(found, lex, s, close + 1, end, prefix)
    ensures found(i, end, prefix) == found(i + |head| + 1, close, Prefixed(prefix, scope)) + found(close + 1, end, prefix)
  {
    var next := if scope.Classed? then SemicolonEnd(lex, s, close + 1, end) else close + 1;
    ScopedRoundAt(lex, s, i, end, scope, head, inside, close, prefix);
    FoundEnter(found, lex, s, i, end, prefix, i + |head|, close, Prefixed(prefix, scope), next);
  }

  lemma BlockFound(found: Finding, lex: Lexicon, s: string, i: nat, end: nat, name: Option<string>, head: string, text: string,
    close: nat, prefix: string)
    requires Follows(found, lex, s) && close == i + |head| + 1 + |text|
    requires Stands(s, i, end, head + "{" + text + "}") && Begins(lex, head + "{") && IsFlat(head) && Balanced(text)
    requires lex.construct(s, i, end) == Other && lex.functionName(head) == name && Skippable(found, lex, s, close + 1, end, prefix)
    ensures found(i, end, prefix)
         == (if name.Some? then [Function(Join(prefix, name.value), text)] else []) + found(close + 1, end, prefix)
  {
    var full := if name == None then None else Some(Join(prefix, name.value));
    BlockRoundAt(lex, s, i, end, name, head, text, close, prefix);
    FoundBody(found, lex, s, i, end, prefix, i + |head|, close, full, SemicolonEnd(lex, s, close + 1, end));
  }

  lemma LineFound(found: Finding, lex: Lexicon, s: string, i: nat, end: nat, text: string, prefix: string)
    requires Follows(found, lex, s) && Stands(s, i, end, text + "\n") && IsLine(lex, text) && lex.isSpace('\n')
    ensures found(i, end, prefix) == found(i + |text| + 1, end, prefix)
  {
    LineRound(lex, s, i, end, text, prefix);
    FoundSkip(found, lex, s, i, end, prefix, i + |text|);
    FoundSkip(found, lex, s, i + |text|, end, prefix, i + |text| + 1);
  }

  lemma DeclaredFound(found: Finding, lex: Lexicon, s: string, i: nat, end: nat, text: string, prefix: string)
    requires Follows(found, lex, s) && Stands(s, i, end, text) && Begins(lex, text)
    requires lex.construct(s, i, end) == Declaration(i + |text|)
    ensures found(i, end, prefix) == found(i + |text|, end, prefix)
  {
    BeginsHere(lex, s, i, end, text, prefix);
    FoundSkip(found, lex, s, i, end, prefix, i + |text|);
  }

  lemma StatementFound(found: Finding, lex: Lexicon, s: string, i: nat, end: nat, text: string, prefix: string)
    requires Follows(found, lex, s) && Stands(s, i, end, text + ";") && Begins(lex, text + ";") && IsFlat(text)
    requires lex.construct(s, i, end) == Other
    ensures found(i, end, prefix) == found(i + |text| + 1, end, prefix)
  {
    StatementRound(lex, s, i, end, text, prefix);
    FoundSkip(found, lex, s, i, end, prefix, i + |text| + 1);
  }

  lemma CommentFound(found: Finding, lex: Lexicon, s: string, i: nat, end: nat, text: string, prefix: string)
    requires Follows(found, lex, s) && Stands(s, i, end, "/*" + text + "*/") && IsComment(text) && !lex.isSpace('/')
    ensures found(i, end, prefix) == found(i + |text| + 4, end, prefix)
  {
    CommentRound(lex, s, i, end, text, prefix);
    FoundSkip(found, lex, s, i, end, prefix, i + |text| + 4);
  }

  lemma GapFound(found: Finding, lex: Lexicon, s: string, i: nat, end: nat, c: char, prefix: string)
    requires Follows(found, lex, s) && Stands(s, i, end, [c]) && lex.isSpace(c)
    ensures found(i, end, prefix) == found(i + 1, end, prefix)
  {
    StandsAt(s, i, end, [c], 0);
    FoundSkip(found, lex, s, i, end, prefix, i + 1);
  }

  /** The pieces between scopes and blocks: nothing is found in them. */
  lemma PlainFound(found: Finding, lex: Lexicon, s: string, i: nat, end: nat, t: Source, prefix: string)
    requires Follows(found, lex, s) && Stands(s, i, end, Piece(t)) && Recognises(lex, s, i, end, t)
    requires !IsFinal(t) && !t.Scoped? && !t.Block?
    ensures found(i, end, prefix) == found(i + |Piece(t)|, end, prefix)
  {
    match t
    case Gap(c, _) => GapFound(found, lex, s, i, end, c, prefix);
    case Line(text, _) => LineFound(found, lex, s, i, end, text, prefix);
    case Comment(text, _) => CommentFound(found, lex, s, i, end, text, prefix);
    case Declared(text, _) => DeclaredFound(found, lex, s, i, end, text, prefix);
    case Statement(text, _) => StatementFound(found, lex, s, i, end, text, prefix);
  }

  lemma ReadsPlain(lex: Lexicon, s: string, i: nat, end: nat, t: Source)
    requires Reads(lex, s, i, end, t) && !IsFinal(t)
    ensures Stands(s, i, end, Piece(t)) && Recognises(lex, s, i, end, t) && Reads(lex, s, i + |Piece(t)|, end, t.rest)
  {
  }

  lemma LastFound(found: Finding, lex: Lexicon, s: string, i: nat, end: nat, t: Source, prefix: string)
    requires Follows(found, lex, s) && Reads(lex, s, i, end, t) && IsFinal(t)
    ensures found(i, end, prefix) == []
  {
    if t.Remains? { RemainsRound(lex, s, i, end, prefix); }
    FoundFinished(found, lex, s, i, end, prefix);
  }

  lemma NamesInside(scopes: seq<string>, scope: Scope)
    requires AreNames(scopes) && !Nameless(scope)
    ensures AreNames(Inside(scopes, scope))
    ensures Prefixed(Path(scopes), scope) == Path(Inside(scopes, scope))
  {
    if !scope.Unnamed? { JoinIsPath(scopes, scope.name); }
  }

  lemma ScopedSplit(found: Finding, lex: Lexicon, s: string, i: nat, end: nat, t: Source, scopes: seq<string>, close: nat)
    requires Follows(found, lex, s) && ScopedHere(lex, s, i, end, t, close) && AreNames(scopes)
    requires Skippable(found, lex, s, close + 1, end, Path(scopes))
    ensures found(i, end, Path(scopes))
         == found(i + |t.head| + 1, close, Path(Inside(scopes, t.scope))) + found(close + 1, end, Path(scopes))
  {
    ScopedFound(found, lex, s, i, end, t.scope, t.head, Text(t.body), close, Path(scopes));
    NamesInside(scopes, t.scope);
  }

  lemma BlockListed(found: Finding, lex: Lexicon, s: string, i: nat, end: nat, t: Source, scopes: seq<string>, close: nat)
    requires Follows(found, lex, s) && BlockHere(lex, s, i, end, t, close) && AreNames(scopes)
    requires Skippable(found, lex, s, close + 1, end, Path(scopes))
    requires found(close + 1, end, Path(scopes)) == Listed(t.rest, scopes)
    ensures found(i, end, Path(scopes)) == Listed(t, scopes)
  {
    BlockFound(found, lex, s, i, end, t.name, t.head, t.text, close, Path(scopes));
    if t.name.Some? { JoinIsPath(scopes, t.name.value); }
  }

  lemma {:induction false} ScopeIsFound(found: Finding, lex: Lexicon, s: string, i: nat, end: nat, t: Source, scopes: seq<string>)
    requires Follows(found, lex, s) && Reads(lex, s, i, end, t) && AreNames(scopes) && t.Scoped?
    ensures found(i, end, Path(scopes)) == Listed(t, scopes)
    decreases t, 1
  {
    var close := i + |t.head| + 1 + |Text(t.body)|;
    ReadsScoped(lex, s, i, end, t, close);
    NamesInside(scopes, t.scope);
    SemicolonSkipped(found, lex, s, close + 1, end, t.rest, Path(scopes));
    ScopedSplit(found, lex, s, i, end, t, scopes, close);
    BothFound(found, lex, s, i, end, t, scopes, close);
  }

  lemma {:induction false} BothFound(found: Finding, lex: Lexicon, s: string, i: nat, end: nat, t: Source, scopes: seq<string>, close: nat)
    requires Follows(found, lex, s) && t.Scoped? && AreNames(Inside(scopes, t.scope)) && AreNames(scopes)
    requires Reads(lex, s, i + |t.head| + 1, close, t.body) && Reads(lex, s, close + 1, end, t.rest)
    requires found(i, end, Path(scopes))
          == found(i + |t.head| + 1, close, Path(Inside(scopes, t.scope))) + found(close + 1, end, Path(scopes))
    ensures found(i, end, Path(scopes)) == Listed(t, scopes)
    decreases t, 0
  {
    TreeIsFound(found, lex, s, i + |t.head| + 1, close, t.body, Inside(scopes, t.scope));
    TreeIsFound(found, lex, s, close + 1, end, t.rest, scopes);
  }

  lemma {:induction false} BlockIsFound(found: Finding, lex: Lexicon, s: string, i: nat, end: nat, t: Source, scopes: seq<string>)
    requires Follows(found, lex, s) && Reads(lex, s, i, end, t) && AreNames(scopes) && t.Block?
    ensures found(i, end, Path(scopes)) == Listed(t, scopes)
    decreases t, 0
  {
    var close := i + |t.head| + 1 + |t.text|;
    ReadsBlock(lex, s, i, end, t, close);
    SemicolonSkipped(found, lex, s, close + 1, end, t.rest, Path(scopes));
    TreeIsFound(found, lex, s, close + 1, end, t.rest, scopes);
    BlockListed(found, lex, s, i, end, t, scopes, close);
  }

  lemma {:induction false} PlainIsFound(found: Finding, lex: Lexicon, s: string, i: nat, end: nat, t: Source, scopes: seq<string>)
    requires Follows(found, lex, s) && Reads(lex, s, i, end, t) && AreNames(scopes)
    requires !IsFinal(t) && !t.Scoped? && !t.Block?
    ensures found(i, end, Path(scopes)) == Listed(t, scopes)
    decreases t, 0
  {
    ReadsPlain(lex, s, i, end, t);
    PlainFound(found, lex, s, i, end, t, Path(scopes));
    TreeIsFound(found, lex, s, i + |Piece(t)|, end, t.rest, scopes);
  }

  /** What the walk finds in the text of a tree are the functions of the tree, in order, each under the
      names of its enclosing scopes. */
  lemma {:induction false} TreeIsFound(found: Finding, lex: Lexicon, s: string, i: nat, end: nat, t: Source, scopes: seq<string>)
    requires Follows(found, lex, s) && Reads(lex, s, i, end, t) && AreNames(scopes)
    ensures found(i, end, Path(scopes)) == Listed(t, scopes)
    decreases t, 2
  {
    if IsFinal(t) {
      LastFound(found, lex, s, i, end, t, Path(scopes));
    } else if t.Scoped? {
      ScopeIsFound(found, lex, s, i, end, t, scopes);
    } else if t.Block? {
      BlockIsFound(found, lex, s, i, end, t, scopes);
    } else {
      PlainIsFound(found, lex, s, i, end, t, scopes);
    }
  }

  // ---- The records of the walk ----------------------------------------------------------------

  /** Records as functions. */
  function Shown(s: string, rs: seq<Record>): (fs: seq<Function>)
    requires Placed(s, rs)
    ensures |fs| == |rs| && forall k :: 0 <= k < |rs| ==> fs[k] == Function(rs[k].name, BodyOf(s, rs[k]))
  {
    if rs == [] then [] else [Function(rs[0].name, BodyOf(s, rs[0]))] + Shown(s, rs[1..])
  }

  lemma ShownConcat(s: string, a: seq<Record>, b: seq<Record>)
    requires Placed(s, a) && Placed(s, b)
    ensures Placed(s, a + b) && Shown(s, a + b) == Shown(s, a) + Shown(s, b)
  {
    assert Shown(s, a + b) == Shown(s, a) + Shown(s, b);
  }

  /** The records from a position on, in a range and under a prefix. */
  type Recording = (nat, nat, string) -> seq<Record>

  ghost function RecordedNext(recs: Recording, r: Round, end: nat, prefix: string): seq<Record> {
    match r
    case Finished => []
    case Skip(next) => recs(next, end, prefix)
    case Enter(open, close, inner, next) => recs(open + 1, close, inner) + recs(next, end, prefix)
    case Body(open, close, name, next) => Found(name, open, close) + recs(next, end, prefix)
  }

  ghost predicate RecordsHere(recs: Recording, lex: Lexicon, s: string, i: nat, end: nat, prefix: string) {
    && Placed(s, recs(i, end, prefix))
    && recs(i, end, prefix) == if i < end then RecordedNext(recs, RoundAt(lex, s, i, end, prefix), end, prefix) else []
  }

  ghost predicate RecordsAll(recs: Recording, lex: Lexicon, s: string) {
    forall i: nat, end: nat, prefix: string :: i <= end <= |s| ==> RecordsHere(recs, lex, s, i, end, prefix)
  }

  ghost function RecordingOf(rounds: Rounds, s: string): Recording {
    (i: nat, end: nat, prefix: string) => if i <= end <= |s| && Forward(rounds, s) then Records(rounds, s, i, end, prefix) else []
  }

  lemma RecordsPlaced(rounds: Rounds, s: string, i: nat, end: nat, prefix: string)
    requires i <= end <= |s| && Forward(rounds, s)
    ensures Placed(s, Records(rounds, s, i, end, prefix))
  {
    BodiesAreWellSpaced(rounds, s, i, end, prefix);
    SpacedIsPlaced(s, Records(rounds, s, i, end, prefix), i, end);
  }

  lemma RecordingIs(rounds: Rounds, s: string, i: nat, end: nat, prefix: string)
    requires i <= end <= |s| && Forward(rounds, s)
    ensures RecordingOf(rounds, s)(i, end, prefix) == Records(rounds, s, i, end, prefix)
  {
  }

  lemma RecordsGoOn(rounds: Rounds, s: string, i: nat, end: nat, prefix: string)
    requires i < end <= |s| && Forward(rounds, s) && Within(i, end, rounds(i, end, prefix))
    ensures Records(rounds, s, i, end, prefix) == RecordedNext(RecordingOf(rounds, s), rounds(i, end, prefix), end, prefix)
  {
    match rounds(i, end, prefix)
    case Finished =>
    case Skip(next) => RecordingIs(rounds, s, next, end, prefix);
    case Enter(open, close, inner, next) =>
      EnterRecords(rounds, s, i, end, prefix);
      RecordingIs(rounds, s, open + 1, close, inner);
      RecordingIs(rounds, s, next, end, prefix);
    case Body(_, _, _, next) =>
      BodyRecords(rounds, s, i, end, prefix);
      RecordingIs(rounds, s, next, end, prefix);
  }

  lemma RecordingStep(rounds: Rounds, lex: Lexicon, s: string, i: nat, end: nat, prefix: string)
    requires Forward(rounds, s) && Advances(rounds, s) && Walks(rounds, lex, s) && i <= end <= |s|
    ensures RecordsHere(RecordingOf(rounds, s), lex, s, i, end, prefix)
  {
    assert Here(i, end, prefix);
    RecordsPlaced(rounds, s, i, end, prefix);
    RecordingIs(rounds, s, i, end, prefix);
    if i < end {
      RecordsGoOn(rounds, s, i, end, prefix);
    }
  }

  ghost function FindingOf(recs: Recording, s: string): Finding {
    (i: nat, end: nat, prefix: string) => ShownIf(s, recs(i, end, prefix))
  }

  ghost function ShownIf(s: string, rs: seq<Record>): seq<Function> {
    if Placed(s, rs) then Shown(s, rs) else []
  }

  lemma ShownInTwo(s: string, a: seq<Record>, b: seq<Record>)
    requires Placed(s, a + b)
    ensures ShownIf(s, a + b) == ShownIf(s, a) + ShownIf(s, b)
  {
    assert forall k :: 0 <= k < |a| ==> (a + b)[k] == a[k];
    assert forall k :: 0 <= k < |b| ==> (a + b)[|a| + k] == b[k];
    ShownConcat(s, a, b);
  }

  lemma ShownOne(s: string, open: nat, close: nat, name: Option<string>)
    requires Placed(s, Found(name, open, close))
    ensures ShownIf(s, Found(name, open, close)) == Filed(s, open, close, name)
  {
    if name.Some? { assert Found(name, open, close)[0] == Record(name.value, open, close); }
  }

  lemma PlacedFirst(s: string, a: seq<Record>, b: seq<Record>)
    requires Placed(s, a + b)
    ensures Placed(s, a)
  {
    assert forall k :: 0 <= k < |a| ==> (a + b)[k] == a[k];
  }

  /** What a round records, as functions. */
  lemma RecordedIsFound(recs: Recording, s: string, r: Round, end: nat, prefix: string)
    requires Placed(s, RecordedNext(recs, r, end, prefix))
    ensures ShownIf(s, RecordedNext(recs, r, end, prefix)) == RoundFinds(FindingOf(recs, s), s, r, end, prefix)
  {
    match r
    case Finished =>
    case Skip(_) =>
    case Enter(open, close, inner, next) =>
      ShownInTwo(s, recs(open + 1, close, inner), recs(next, end, prefix));
    case Body(open, close, name, next) =>
      PlacedFirst(s, Found(name, open, close), recs(next, end, prefix));
      ShownInTwo(s, Found(name, open, close), recs(next, end, prefix));
      ShownOne(s, open, close, name);
  }

  lemma FindingStep(recs: Recording, lex: Lexicon, s: string, i: nat, end: nat, prefix: string)
    requires i <= end <= |s| && RecordsHere(recs, lex, s, i, end, prefix)
    ensures FindingOf(recs, s)(i, end, prefix) == FoundNext(FindingOf(recs, s), lex, s, i, end, prefix)
  {
    if i < end {
      RecordedIsFound(recs, s, RoundAt(lex, s, i, end, prefix), end, prefix);
    }
  }

  lemma FindingFollows(recs: Recording, lex: Lexicon, s: string)
    requires RecordsAll(recs, lex, s)
    ensures Follows(FindingOf(recs, s), lex, s)
  {
    var found := FindingOf(recs, s);
    forall i: nat, end: nat, prefix: string | i <= end <= |s|
      ensures found(i, end, prefix) == FoundNext(found, lex, s, i, end, prefix)
    {
      assert RecordsHere(recs, lex, s, i, end, prefix);
      FindingStep(recs, lex, s, i, end, prefix);
    }
  }

  lemma WalkRecords(lex: Lexicon, s: string)
    requires Proper(lex, s)
    ensures RecordsAll(RecordingOf(RoundsOf(lex, s), s), lex, s)
  {
    var rounds := RoundsOf(lex, s);
    ForwardAdvances(rounds, s);
    forall i: nat, end: nat, prefix: string | i <= end <= |s|
      ensures RecordsHere(RecordingOf(rounds, s), lex, s, i, end, prefix)
    {
      RecordingStep(rounds, lex, s, i, end, prefix);
    }
  }

  lemma TreeIsShown(recs: Recording, lex: Lexicon, s: string, t: Source)
    requires RecordsAll(recs, lex, s) && Reads(lex, s, 0, |s|, t)
    ensures Placed(s, recs(0, |s|, "")) && Shown(s, recs(0, |s|, "")) == Listed(t, [])
  {
    assert RecordsHere(recs, lex, s, 0, |s|, "");
    FindingFollows(recs, lex, s);
    assert Path([]) == "";
    TreeIsFound(FindingOf(recs, s), lex, s, 0, |s|, t, []);
  }

  /** The records of the walk through the text of a tree are the functions of the tree: as many, in the same
      order, under the same names and with the same bodies. */
  lemma TreeIsRecorded(lex: Lexicon, s: string, t: Source)
    requires Proper(lex, s) && Reads(lex, s, 0, |s|, t)
    ensures var rs := Records(RoundsOf(lex, s), s, 0, |s|, "");
            Placed(s, rs) && Shown(s, rs) == Listed(t, [])
  {
    WalkRecords(lex, s);
    TreeIsShown(RecordingOf(RoundsOf(lex, s), s), lex, s, t);
    RecordingIs(RoundsOf(lex, s), s, 0, |s|, "");
  }

  // ---- An example -----------------------------------------------------------------------------

  const EXAMPLE: string := "class C{f(){}}"
  const INSIDE: Source := Block(Some("f"), "f()", "", End)
  const TREE: Source := Scoped(Classed("C"), "class C", INSIDE, End)

  /** What the expressions say about it. */
  const LEXICON: Lexicon := Lexicon(
    c => c == ' ',
    (s, i, end) => if s == EXAMPLE && i == 0 && end == |s| then Class("C", 7) else Other,
    sig => if sig == "f()" then Some("f") else None)

  lemma ExampleBalanced()
    ensures Balanced("") && Balanced("f(){}") && Parens("f()") == 0 && IsFlat("f()")
  {
    var w := "f(){}";
    assert w[..5] == w && w[..4][..3] == w[..3] && w[..3][..2] == w[..2] && w[..2][..1] == w[..1] && w[..5][..4] == w[..4];
    assert Depth(w[..1]) == Depth(w[..1][..0]) && Depth(w[..2]) == 0 && Depth(w[..3]) == 0;
    assert Depth(w[..4]) == 1 && Depth(w[..5]) == 0;
    var f := "f()";
    assert f[..3] == f && f[..2][..1] == f[..1] && f[..3][..2] == f[..2] && f[..1][..0] == "";
    assert Parens(f[..1]) == 0 && Parens(f[..2]) == 1 && Parens(f[..3]) == 0;
  }

  lemma InsideIsRead()
    ensures Text(INSIDE) == "f(){}" && Reads(LEXICON, EXAMPLE, 8, 13, INSIDE)
  {
    ExampleBalanced();
  }

  /** The walk through it finds one function, under the name of its class. */
  lemma ExampleIsRead()
    ensures Proper(LEXICON, EXAMPLE) && Reads(LEXICON, EXAMPLE, 0, |EXAMPLE|, TREE)
    ensures Listed(TREE, []) == [Function("C::f", "")]
  {
    ExampleBalanced();
    InsideIsRead();
    assert Inside([], Classed("C")) == ["C"] && Path(["C"] + ["f"]) == "C::f";
  }
}
