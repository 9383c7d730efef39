/** How the brackets of the input relate to the `Group` nodes of the
    output, for whole inputs: when the lexer succeeds, it returns exactly
    one group of each kind for every opener of that kind that stands
    outside a string literal, and equally one for every such closer.

    `CountOutside` counts a character outside string literals by a plain
    scan that flips an in-string flag at every `"`, independently of the
    lexer's sub-scans.
 */
module Brackets {
  import opened Tokens
  import opened CharClass
  import opened Lexer

  /** Occurrences of `c` in `s` that are not inside a string literal;
      `quoted` says whether the scan starts inside one. */
  function CountOutside(s: seq<char>, c: char, quoted: bool): nat
    decreases |s|
  {
    if s == [] then 0
    else if s[0] == '"' then CountOutside(s[1..], c, !quoted)
    else (if !quoted && s[0] == c then 1 else 0) + CountOutside(s[1..], c, quoted)
  }

  /** Groups of kind `k` in a token list, nested ones included. */
  function GroupsIn(ts: seq<TokenTree>, k: Bracket): nat
    decreases ts
  {
    if ts == [] then 0 else GroupsInTree(ts[0], k) + GroupsIn(ts[1..], k)
  }

  function GroupsInTree(t: TokenTree, k: Bracket): nat
    decreases t
  {
    match t
    case Group(kind, children) => (if kind == k then 1 else 0) + GroupsIn(children, k)
    case _ => 0
  }

  /** Groups of kind `k` already built, in every scope of the stack. */
  function StackGroups(st: Stack, k: Bracket): nat
    decreases |st|
  {
    if st == [] then 0 else StackGroups(st[..|st| - 1], k) + GroupsIn(st[|st| - 1].tokens, k)
  }

  /** Scopes of the stack still open for an opener of kind `k`. */
  function OpenScopes(st: Stack, k: Bracket): nat
    decreases |st|
  {
    if st == [] then 0
    else OpenScopes(st[..|st| - 1], k) + (if st[|st| - 1].open == OpenerOf(k) then 1 else 0)
  }

  lemma {:induction false} GroupsInAppend(a: seq<TokenTree>, b: seq<TokenTree>, k: Bracket)
    ensures GroupsIn(a + b, k) == GroupsIn(a, k) + GroupsIn(b, k)
    decreases |a|
  {
    if a != [] {
      assert (a + b)[0] == a[0];
      assert (a + b)[1..] == a[1..] + b;
      GroupsInAppend(a[1..], b, k);
    } else {
      assert a + b == b;
    }
  }

  /** Emitting a token adds its groups to the stack and opens or closes no scope. */
  lemma EmitCounts(st: Stack, t: TokenTree, k: Bracket)
    requires st != []
    ensures StackGroups(Emit(st, t), k) == StackGroups(st, k) + GroupsInTree(t, k)
    ensures OpenScopes(Emit(st, t), k) == OpenScopes(st, k)
  {
    var st' := Emit(st, t);
    var top := st[|st| - 1];
    assert st'[..|st| - 1] == st[..|st| - 1];
    GroupsInAppend(top.tokens, [t], k);
    assert GroupsIn([t], k) == GroupsInTree(t, k) + GroupsIn([], k);
  }

  /** Emitting a token that is not a group changes no count. */
  lemma EmitPlain(st: Stack, t: TokenTree, k: Bracket)
    requires st != [] && !t.Group?
    ensures StackGroups(Emit(st, t), k) == StackGroups(st, k)
    ensures OpenScopes(Emit(st, t), k) == OpenScopes(st, k)
  {
    EmitCounts(st, t, k);
  }

  /** Pushing an empty scope adds no group and opens one scope. */
  lemma PushCounts(st: Stack, o: char, k: Bracket)
    ensures StackGroups(st + [Frame(o, [])], k) == StackGroups(st, k)
    ensures OpenScopes(st + [Frame(o, [])], k) == OpenScopes(st, k) + (if o == OpenerOf(k) then 1 else 0)
  {
    assert (st + [Frame(o, [])])[..|st|] == st;
  }

  /** Popping the top scope into a group of its kind. */
  lemma CloseCounts(st: Stack, k: Bracket)
    requires |st| > 1 && IsOpener(st[|st| - 1].open)
    ensures var top := st[|st| - 1];
      var st' := Emit(st[..|st| - 1], Group(KindOf(top.open), top.tokens));
      && StackGroups(st', k) == StackGroups(st, k) + (if KindOf(top.open) == k then 1 else 0)
      && OpenScopes(st', k) + (if top.open == OpenerOf(k) then 1 else 0) == OpenScopes(st, k)
  {
    var top := st[|st| - 1];
    EmitCounts(st[..|st| - 1], Group(KindOf(top.open), top.tokens), k);
  }

  /** Skipping a prefix with no quote and no `c` leaves the count of `c` alone. */
  lemma {:induction false} CountPlain(p: seq<char>, x: seq<char>, c: char)
    requires forall i :: 0 <= i < |p| ==> p[i] != '"' && p[i] != c
    ensures CountOutside(p + x, c, false) == CountOutside(x, c, false)
    decreases |p|
  {
    if p == [] {
      assert p + x == x;
    } else {
      assert (p + x)[0] == p[0];
      assert (p + x)[1..] == p[1..] + x;
      CountPlain(p[1..], x, c);
    }
  }

  /** Inside a string, a run without quotes counts nothing. */
  lemma {:induction false} CountQuoted(v: seq<char>, x: seq<char>, c: char)
    requires forall i :: 0 <= i < |v| ==> v[i] != '"'
    ensures CountOutside(v + x, c, true) == CountOutside(x, c, true)
    decreases |v|
  {
    if v == [] {
      assert v + x == x;
    } else {
      assert (v + x)[0] == v[0];
      assert (v + x)[1..] == v[1..] + x;
      CountQuoted(v[1..], x, c);
    }
  }

  /** A token read by a sub-scan, made of characters of one class. */
  lemma CountRun(s: seq<char>, m: nat, c: char, p: char -> bool)
    requires 0 < m <= |s| && IsBracket(c)
    requires forall i :: 0 <= i < m ==> p(s[i])
    requires forall d :: p(d) ==> d != '"' && !IsOpener(d) && !IsCloser(d)
    ensures CountOutside(s, c, false) == CountOutside(s[m..], c, false)
  {
    assert s == s[..m] + s[m..];
    forall i | 0 <= i < m
      ensures s[..m][i] != '"' && s[..m][i] != c
    {
      assert p(s[i]);
    }
    CountPlain(s[..m], s[m..], c);
  }

  predicate IsBracket(c: char) { IsOpener(c) || IsCloser(c) }

  predicate IsTokenChar(c: char) { IsNumberChar(c) || IsWordChar(c) }

  /** A turn of the scan consumes one counted bracket exactly when the
      input starts with it: a string hides its brackets, and a number or an
      identifier holds none. */
  lemma StepConsumes(s: seq<char>, st: Stack, c: char)
    requires s != [] && WellFormed(st) && IsBracket(c) && Step(s, st).Continue?
    ensures CountOutside(s, c, false)
         == CountOutside(Step(s, st).rest, c, false) + (if s[0] == c then 1 else 0)
  {
    if s[0] == '"' {
      StringConsumes(s, st, c);
    } else if IsDigit(s[0]) {
      NumberConsumes(s, st, c);
    } else if IsWordStart(s[0]) {
      WordConsumes(s, st, c);
    } else {
      assert Step(s, st).rest == s[1..];
    }
  }

  lemma StringConsumes(s: seq<char>, st: Stack, c: char)
    requires s != [] && s[0] == '"' && WellFormed(st) && IsBracket(c) && Step(s, st).Continue?
    ensures CountOutside(s, c, false) == CountOutside(Step(s, st).rest, c, false)
  {
    var t := s[1..];
    var n := Span(t, IsNotQuote);
    assert Step(s, st).rest == t[n + 1..];
    assert t == t[..n] + t[n..];
    CountQuoted(t[..n], t[n..], c);
    assert t[n..][1..] == t[n + 1..];
  }

  lemma NumberConsumes(s: seq<char>, st: Stack, c: char)
    requires s != [] && IsDigit(s[0]) && WellFormed(st) && IsBracket(c) && Step(s, st).Continue?
    ensures CountOutside(s, c, false) == CountOutside(Step(s, st).rest, c, false)
  {
    var n := Span(s[1..], IsNumberChar);
    assert Step(s, st).rest == s[1..][n..] == s[n + 1..];
    TokenChars(s, n, IsNumberChar);
    CountRun(s, n + 1, c, IsTokenChar);
  }

  lemma WordConsumes(s: seq<char>, st: Stack, c: char)
    requires s != [] && IsWordStart(s[0]) && WellFormed(st) && IsBracket(c)
    ensures CountOutside(s, c, false) == CountOutside(Step(s, st).rest, c, false)
  {
    var n := Span(s[1..], IsWordChar);
    TokenChars(s, n, IsWordChar);
    CountRun(s, n + 1, c, IsTokenChar);
    if n == |s| - 1 {
      assert Step(s, st).rest == [] == s[n + 1..];
    } else {
      assert Step(s, st).rest == s[1..][n..] == s[n + 1..];
    }
  }

  /** The first character and the following run of a number or identifier. */
  lemma TokenChars(s: seq<char>, n: nat, p: char -> bool)
    requires s != [] && IsTokenChar(s[0]) && n <= |s| - 1
    requires forall i :: 0 <= i < n ==> p(s[1..][i])
    requires forall d :: p(d) ==> IsTokenChar(d)
    ensures forall i :: 0 <= i < n + 1 ==> IsTokenChar(s[i])
  {
    forall i | 0 < i < n + 1
      ensures IsTokenChar(s[i])
    {
      assert s[i] == s[1..][i - 1];
      assert p(s[1..][i - 1]);
    }
  }

  /** A turn of the scan keeps the bracket balance: a closer of kind `k`
      adds one group of that kind, an opener of kind `k` one open scope. */
  lemma StepBalance(s: seq<char>, st: Stack, k: Bracket)
    requires s != [] && WellFormed(st) && Step(s, st).Continue?
    ensures var st' := Step(s, st).stack;
      && StackGroups(st', k) == StackGroups(st, k) + (if s[0] == CloserOf(OpenerOf(k)) then 1 else 0)
      && StackGroups(st', k) + OpenScopes(st', k)
         == StackGroups(st, k) + OpenScopes(st, k) + (if s[0] == OpenerOf(k) then 1 else 0)
  {
    var c := s[0];
    if IsOpener(c) {
      assert Step(s, st).stack == st + [Frame(c, [])];
      PushCounts(st, c, k);
    } else if IsCloser(c) {
      CloserBalance(s, st, k);
    } else {
      TokenBalance(s, st, k);
    }
  }

  lemma CloserBalance(s: seq<char>, st: Stack, k: Bracket)
    requires s != [] && IsCloser(s[0]) && WellFormed(st) && Step(s, st).Continue?
    ensures var st' := Step(s, st).stack;
      && StackGroups(st', k) == StackGroups(st, k) + (if s[0] == CloserOf(OpenerOf(k)) then 1 else 0)
      && StackGroups(st', k) + OpenScopes(st', k) == StackGroups(st, k) + OpenScopes(st, k)
  {
    SentinelOnlyAtBottom(st);
    var top := st[|st| - 1];
    assert IsOpener(top.open) && s[0] == CloserOf(top.open);
    assert Step(s, st).stack == Emit(st[..|st| - 1], Group(KindOf(top.open), top.tokens));
    CloseCounts(st, k);
    SameKind(top.open, k);
  }

  /** An opener, its closer and its kind determine each other. */
  lemma SameKind(o: char, k: Bracket)
    requires IsOpener(o)
    ensures CloserOf(o) == CloserOf(OpenerOf(k)) <==> KindOf(o) == k
    ensures o == OpenerOf(k) <==> KindOf(o) == k
  {
  }

  /** Every other turn emits at most one token, and never a group. */
  lemma TokenBalance(s: seq<char>, st: Stack, k: Bracket)
    requires s != [] && !IsOpener(s[0]) && !IsCloser(s[0]) && WellFormed(st) && Step(s, st).Continue?
    ensures StackGroups(Step(s, st).stack, k) == StackGroups(st, k)
    ensures OpenScopes(Step(s, st).stack, k) == OpenScopes(st, k)
  {
    var c := s[0];
    var t := s[1..];
    if c == '"' {
      var n := Span(t, IsNotQuote);
      assert Step(s, st).stack == Emit(st, Literal(Str(t[..n])));
      EmitPlain(st, Literal(Str(t[..n])), k);
    } else if IsDigit(c) {
      NumberBalance(s, st, k);
    } else if IsWordStart(c) {
      WordBalance(s, st, k);
    } else if !IsSkipped(c) {
      assert Step(s, st).stack == Emit(st, Punct(c));
      EmitPlain(st, Punct(c), k);
    } else {
      assert Step(s, st).stack == st;
    }
  }

  lemma NumberBalance(s: seq<char>, st: Stack, k: Bracket)
    requires s != [] && IsDigit(s[0]) && WellFormed(st) && Step(s, st).Continue?
    ensures StackGroups(Step(s, st).stack, k) == StackGroups(st, k)
    ensures OpenScopes(Step(s, st).stack, k) == OpenScopes(st, k)
  {
    var t := s[1..];
    var n := Span(t, IsNumberChar);
    assert Step(s, st).stack == Emit(st, Literal(Num([s[0]] + t[..n])));
    EmitPlain(st, Literal(Num([s[0]] + t[..n])), k);
  }

  lemma WordBalance(s: seq<char>, st: Stack, k: Bracket)
    requires s != [] && IsWordStart(s[0]) && WellFormed(st)
    ensures StackGroups(Step(s, st).stack, k) == StackGroups(st, k)
    ensures OpenScopes(Step(s, st).stack, k) == OpenScopes(st, k)
  {
    var t := s[1..];
    var n := Span(t, IsWordChar);
    if n < |t| {
      var w := Word([s[0]] + t[..n]);
      assert !w.Group?;
      assert Step(s, st).stack == Emit(st, w);
      EmitPlain(st, w, k);
    } else {
      assert Step(s, st).stack == st;
    }
  }

  /** The whole scan: what it returns holds the groups already on the
      stack, one more per closer of kind `k` left in the input, and equally
      one per scope still open plus one per opener left in the input. */
  lemma {:induction false} RunBalance(s: seq<char>, st: Stack, k: Bracket)
    requires WellFormed(st)
    ensures Run(s, st).Ok? ==>
      GroupsIn(Run(s, st).value, k) == StackGroups(st, k) + CountOutside(s, CloserOf(OpenerOf(k)), false)
    ensures Run(s, st).Ok? ==>
      GroupsIn(Run(s, st).value, k)
        == StackGroups(st, k) + OpenScopes(st, k) + CountOutside(s, OpenerOf(k), false)
    decreases |s|
  {
    if s == [] {
      if |st| == 1 {
        assert st[..0] == [];
      }
    } else {
      match Step(s, st)
      case Fail(_) =>
      case Continue(rest, st') =>
        StepConsumes(s, st, OpenerOf(k));
        StepConsumes(s, st, CloserOf(OpenerOf(k)));
        StepBalance(s, st, k);
        RunBalance(rest, st', k);
    }
  }

  /** When lexing succeeds, the result holds exactly one group of kind `k`
      for every opener of that kind outside string literals, and for every
      closer of that kind outside string literals. */
  lemma BracketsBecomeGroups(code: string, k: Bracket)
    requires Tokenize(code).Ok?
    ensures GroupsIn(Tokenize(code).value, k) == CountOutside(code, OpenerOf(k), false)
    ensures GroupsIn(Tokenize(code).value, k) == CountOutside(code, CloserOf(OpenerOf(k)), false)
  {
    var st := Initial();
    assert st[..0] == [];
    assert StackGroups(st, k) == 0;
    assert OpenScopes(st, k) == 0;
    RunBalance(code, st, k);
  }
}
