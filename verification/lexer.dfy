/** `to_tokens` of src/main.rs as a pure function over the unread input.

    The scan state is the rest of the input and the stack of open groups;
    each entry of the stack pairs the opener it was pushed for with the
    tokens gathered inside it so far. The bottom entry is the top-level
    scope, marked by the opener `Sentinel`. `Step` is one turn of the
    source's outer loop (one dispatched character together with the
    sub-scan it starts), `Run` repeats it until the input is used up or a
    step fails, and `Finish` is the final pop.
 */
module Lexer {
  import opened Tokens
  import opened CharClass

  datatype Frame = Frame(open: char, tokens: seq<TokenTree>)

  type Stack = seq<Frame>

  /** The stack discipline the scan keeps: never empty, the sentinel at the
      bottom, a real opener in every other entry. */
  predicate WellFormed(st: Stack) {
    && |st| >= 1
    && st[0].open == Sentinel
    && forall k :: 1 <= k < |st| ==> IsOpener(st[k].open)
  }

  /** A well-formed stack has only its bottom entry marked by the sentinel. */
  lemma SentinelOnlyAtBottom(st: Stack)
    requires WellFormed(st)
    ensures st[|st| - 1].open == Sentinel <==> |st| == 1
    ensures |st| > 1 ==> IsOpener(st[|st| - 1].open)
  {
  }

  /** The stack `to_tokens` starts from: the top-level scope alone, empty. */
  function Initial(): (st: Stack)
    ensures WellFormed(st)
    ensures |st| == 1 && st[0].tokens == []
  {
    [Frame(Sentinel, [])]
  }

  /** Appends `ts` to the innermost open scope (the source's `push_token!`,
      once per token). */
  function Extend(st: Stack, ts: seq<TokenTree>): (st': Stack)
    requires st != []
    ensures |st'| == |st|
    ensures st'[..|st| - 1] == st[..|st| - 1]
    ensures st'[|st| - 1].open == st[|st| - 1].open
    ensures st'[|st| - 1].tokens == st[|st| - 1].tokens + ts
    ensures WellFormed(st) ==> WellFormed(st')
  {
    var top := st[|st| - 1];
    st[..|st| - 1] + [Frame(top.open, top.tokens + ts)]
  }

  function Emit(st: Stack, t: TokenTree): Stack
    requires st != []
  {
    Extend(st, [t])
  }

  lemma ExtendTwice(st: Stack, a: seq<TokenTree>, b: seq<TokenTree>)
    requires st != []
    ensures Extend(Extend(st, a), b) == Extend(st, a + b)
  {
    var x := Extend(Extend(st, a), b);
    var y := Extend(st, a + b);
    assert x[..|st| - 1] == y[..|st| - 1];
    assert x[|st| - 1] == y[|st| - 1];
    assert x == x[..|st| - 1] + [x[|st| - 1]];
    assert y == y[..|st| - 1] + [y[|st| - 1]];
  }

  lemma ExtendNothing(st: Stack)
    requires st != []
    ensures Extend(st, []) == st
  {
    var st' := Extend(st, []);
    assert st'[|st| - 1] == st[|st| - 1];
    assert st' == st'[..|st| - 1] + [st'[|st| - 1]];
    assert st == st[..|st| - 1] + [st[|st| - 1]];
  }

  lemma ExtendInitial(ts: seq<TokenTree>)
    ensures Extend(Initial(), ts) == [Frame(Sentinel, ts)]
  {
    assert [] + ts == ts;
  }

  /** At top level, emitting appends to the one scope there is. */
  lemma EmitTopLevel(ts: seq<TokenTree>, t: TokenTree)
    ensures Emit([Frame(Sentinel, ts)], t) == [Frame(Sentinel, ts + [t])]
  {
    var st := [Frame(Sentinel, ts)];
    assert st[..0] == [];
  }

  /** An identifier's text becomes a boolean literal when it is exactly
      `true` or `false`, and an `Ident` otherwise. */
  function Word(text: string): (t: TokenTree)
    ensures t.Literal? <==> text == "true" || text == "false"
    ensures t.Literal? ==> t.lit == Bool(text == "true")
    ensures t.Ident? <==> !t.Literal?
    ensures t.Ident? ==> t.name == text
  {
    if text == "true" || text == "false" then
      Literal(Bool(text == "true"))
    else
      Ident(text)
  }

  /** Whether a digit-led run of digits and dots parses as an `f32`: the
      float grammar admits such a text exactly when it has at most one `.`. */
  predicate ParsesAsFloat(text: string) {
    forall i, j :: 0 <= i < j < |text| && text[i] == '.' ==> text[j] != '.'
  }

  /** What the errors a turn of the scan reports carry: a closer met at top
      level is reported against the sentinel, a mismatched closer against
      the opener it does not close, and there is no "second `.`" error. */
  predicate ReportsScan(e: LexError) {
    && !e.SecondDot?
    && !e.Unclosed?
    && (e.UnmatchedClose? ==> IsCloser(e.found) && e.open == Sentinel)
    && (e.Mismatched? ==> IsCloser(e.found) && IsOpener(e.open) && e.found != CloserOf(e.open))
  }

  datatype Outcome = Continue(rest: seq<char>, stack: Stack) | Fail(error: LexError)

  /** One turn of the outer scan loop, on the input `s` that is still unread. */
  function Step(s: seq<char>, st: Stack): (o: Outcome)
    requires s != [] && WellFormed(st)
    ensures o.Continue? ==> |o.rest| < |s| && WellFormed(o.stack)
    ensures o.Continue? ==> o.rest == s[|s| - |o.rest|..]
    ensures o.Fail? ==> ReportsScan(o.error)
  {
    var c := s[0];
    var t := s[1..];
    if c == '"' then
      var n := Span(t, IsNotQuote);
      if n == |t| then Fail(UnterminatedString)
      else Continue(t[n + 1..], Emit(st, Literal(Str(t[..n]))))
    else if IsDigit(c) then
      var n := Span(t, IsNumberChar);
      var text := [c] + t[..n];
      if n == |t| then Fail(NumberAtEof)
      else if !ParsesAsFloat(text) then Fail(BadNumber(text))
      else Continue(t[n..], Emit(st, Literal(Num(text))))
    else if IsWordStart(c) then
      var n := Span(t, IsWordChar);
      // an identifier that reaches the end of the input is never pushed
      if n == |t| then Continue([], st)
      else Continue(t[n..], Emit(st, Word([c] + t[..n])))
    else if IsOpener(c) then
      Continue(t, st + [Frame(c, [])])
    else if IsCloser(c) then
      var top := st[|st| - 1];
      if !IsOpener(top.open) then Fail(UnmatchedClose(c, top.open))
      else if c != CloserOf(top.open) then Fail(Mismatched(c, top.open))
      else Continue(t, Emit(st[..|st| - 1], Group(KindOf(top.open), top.tokens)))
    else if IsSkipped(c) then
      Continue(t, st)
    else
      Continue(t, Emit(st, Punct(c)))
  }

  /** The final pop once the input is used up. */
  function Finish(st: Stack): (r: Result<seq<TokenTree>>)
    requires WellFormed(st)
    ensures r.Ok? <==> |st| == 1
    ensures r.Ok? ==> r.value == st[0].tokens
    ensures r.Err? ==> r.error == Unclosed(st[|st| - 1].open) && IsOpener(r.error.open)
  {
    var top := st[|st| - 1];
    if top.open == Sentinel then Ok(top.tokens) else Err(Unclosed(top.open))
  }

  /** The whole scan: it fails with the error of the first failing turn, or
      with the innermost group still open once the input is used up. */
  function Run(s: seq<char>, st: Stack): (r: Result<seq<TokenTree>>)
    requires WellFormed(st)
    ensures r.Err? ==> ReportsScan(r.error) || (r.error.Unclosed? && IsOpener(r.error.open))
    decreases |s|
  {
    if s == [] then Finish(st)
    else
      match Step(s, st)
      case Fail(e) => Err(e)
      case Continue(rest, st') => Run(rest, st')
  }

  /** `to_tokens`: lex `code` starting from the top-level scope alone. */
  function Tokenize(code: string): (r: Result<seq<TokenTree>>)
    ensures r.Err? ==> ReportsScan(r.error) || (r.error.Unclosed? && IsOpener(r.error.open))
  {
    Run(code, Initial())
  }
}
