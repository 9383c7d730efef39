/** Writing a token tree back out as text, and the round trip: lexing the
    text of any tree the lexer could have produced gives that tree back.

    Every token is printed so that it ends itself: identifiers, booleans
    and numbers are followed by a space (a space is skipped, and it stops
    the sub-scan, which an identifier or number at the very end of the
    input would not have), strings by their closing quote, groups by their
    closer.
 */
module Printer {
  import opened Tokens
  import opened CharClass
  import opened Lexer
  import opened LexerProperties

  /** Text the number sub-scan accepts and the float parse admits. */
  predicate IsNumberText(text: string) {
    && |text| > 0
    && IsDigit(text[0])
    && (forall k :: 0 <= k < |text| ==> IsNumberChar(text[k]))
    && ParsesAsFloat(text)
  }

  /** Text the identifier sub-scan turns into an `Ident`. */
  predicate IsIdentText(name: string) {
    && |name| > 0
    && IsWordStart(name[0])
    && (forall k :: 0 <= k < |name| ==> IsWordChar(name[k]))
    && name != "true" && name != "false"
  }

  /** The trees the lexer can produce. */
  predicate Printable(t: TokenTree)
    decreases t
  {
    match t
    case Ident(name) => IsIdentText(name)
    case Literal(Num(text)) => IsNumberText(text)
    case Literal(Str(v)) => '"' !in v
    case Literal(Bool(_)) => true
    case Punct(c) => IsPunct(c)
    case Group(_, children) => forall i :: 0 <= i < |children| ==> Printable(children[i])
  }

  function PrintTree(t: TokenTree): string
    decreases t
  {
    match t
    case Ident(name) => name + " "
    case Literal(Num(text)) => text + " "
    case Literal(Str(v)) => ['"'] + v + ['"']
    case Literal(Bool(b)) => (if b then "true" else "false") + " "
    case Punct(c) => [c]
    case Group(k, children) => [OpenerOf(k)] + PrintSeq(children) + [CloserOf(OpenerOf(k))]
  }

  function PrintSeq(ts: seq<TokenTree>): string
    decreases ts
  {
    if ts == [] then [] else PrintTree(ts[0]) + PrintSeq(ts[1..])
  }

  /** Lexing a printed tree appends exactly that tree to the innermost
      scope and resumes with whatever follows it. */
  lemma {:induction false} TreeRoundTrip(t: TokenTree, rest: seq<char>, st: Stack)
    requires Printable(t) && WellFormed(st)
    ensures Run(PrintTree(t) + rest, st) == Run(rest, Emit(st, t))
    decreases t
  {
    match t
    case Ident(name) =>
      WordRoundTrip(name, rest, st);
    case Literal(Num(text)) =>
      NumberRoundTrip(text, rest, st);
    case Literal(Str(v)) =>
      StringStep(v, rest, st);
      RunContinues(PrintTree(t) + rest, st);
    case Literal(Bool(b)) =>
      WordRoundTrip(if b then "true" else "false", rest, st);
    case Punct(c) =>
      PunctStep(PrintTree(t) + rest, st);
      assert (PrintTree(t) + rest)[1..] == rest;
    case Group(k, children) =>
      var o := OpenerOf(k);
      var inner := st + [Frame(o, [])];
      var close := [CloserOf(o)] + rest;
      assert PrintTree(t) + rest == [o] + (PrintSeq(children) + close);
      OpenerStep([o] + (PrintSeq(children) + close), st);
      assert ([o] + (PrintSeq(children) + close))[1..] == PrintSeq(children) + close;
      SeqRoundTrip(children, close, inner);
      GroupClose(k, children, rest, st);
  }

  /** An identifier or boolean, printed with its trailing space. */
  lemma WordRoundTrip(w: string, rest: seq<char>, st: Stack)
    requires |w| > 0 && IsWordStart(w[0])
    requires forall k :: 0 <= k < |w| ==> IsWordChar(w[k])
    requires WellFormed(st)
    ensures Run(w + " " + rest, st) == Run(rest, Emit(st, Word(w)))
  {
    assert w + " " + rest == w + ([' '] + rest);
    WordStep(w, [' '] + rest, st);
    RunContinues(w + ([' '] + rest), st);
    SkipThenRun([' '] + rest, Emit(st, Word(w)));
    assert ([' '] + rest)[1..] == rest;
  }

  /** A number, printed with its trailing space. */
  lemma NumberRoundTrip(text: string, rest: seq<char>, st: Stack)
    requires IsNumberText(text) && WellFormed(st)
    ensures Run(text + " " + rest, st) == Run(rest, Emit(st, Literal(Num(text))))
  {
    assert text + " " + rest == text + ([' '] + rest);
    NumberStep(text, [' '] + rest, st);
    RunContinues(text + ([' '] + rest), st);
    SkipThenRun([' '] + rest, Emit(st, Literal(Num(text))));
    assert ([' '] + rest)[1..] == rest;
  }

  /** The closer of a group whose children have all been lexed. */
  lemma GroupClose(k: Bracket, children: seq<TokenTree>, rest: seq<char>, st: Stack)
    requires WellFormed(st)
    ensures WellFormed(Extend(st + [Frame(OpenerOf(k), [])], children))
    ensures Run([CloserOf(OpenerOf(k))] + rest, Extend(st + [Frame(OpenerOf(k), [])], children))
         == Run(rest, Emit(st, Group(k, children)))
  {
    var o := OpenerOf(k);
    var filled := Extend(st + [Frame(o, [])], children);
    FilledGroup(st, o, children);
    var close := [CloserOf(o)] + rest;
    CloseStep(o, children, rest, st);
    RunContinues(close, filled);
  }

  /** Lexing a group's children leaves them, and only them, in its scope. */
  lemma FilledGroup(st: Stack, o: char, children: seq<TokenTree>)
    requires WellFormed(st) && IsOpener(o)
    ensures Extend(st + [Frame(o, [])], children) == st + [Frame(o, children)]
    ensures WellFormed(st + [Frame(o, children)])
  {
    var filled := Extend(st + [Frame(o, [])], children);
    assert filled[..|st|] == st;
    assert filled[|st|] == Frame(o, children);
    assert filled == filled[..|st|] + [filled[|st|]];
  }

  /** The matching closer turns the innermost scope into a group. */
  lemma CloseStep(o: char, children: seq<TokenTree>, rest: seq<char>, st: Stack)
    requires WellFormed(st) && IsOpener(o)
    ensures WellFormed(st + [Frame(o, children)])
    ensures Step([CloserOf(o)] + rest, st + [Frame(o, children)])
         == Continue(rest, Emit(st, Group(KindOf(o), children)))
  {
    var filled := st + [Frame(o, children)];
    var close := [CloserOf(o)] + rest;
    assert WellFormed(filled);
    CloserStep(close, filled);
    assert filled[..|filled| - 1] == st;
    assert close[1..] == rest;
  }

  /** The same for a sequence of trees, appended in order. */
  lemma {:induction false} SeqRoundTrip(ts: seq<TokenTree>, rest: seq<char>, st: Stack)
    requires forall i :: 0 <= i < |ts| ==> Printable(ts[i])
    requires WellFormed(st)
    ensures Run(PrintSeq(ts) + rest, st) == Run(rest, Extend(st, ts))
    decreases ts
  {
    if ts == [] {
      assert PrintSeq(ts) + rest == rest;
      ExtendNothing(st);
    } else {
      var head := ts[0];
      var tail := ts[1..];
      var later := PrintSeq(tail) + rest;
      PrintSeqCons(ts, rest);
      TreeRoundTrip(head, later, st);
      var st' := Emit(st, head);
      SeqRoundTrip(tail, rest, st');
      ExtendCons(st, ts);
    }
  }

  lemma PrintSeqCons(ts: seq<TokenTree>, rest: seq<char>)
    requires ts != []
    ensures PrintSeq(ts) + rest == PrintTree(ts[0]) + (PrintSeq(ts[1..]) + rest)
  {
  }

  lemma ExtendCons(st: Stack, ts: seq<TokenTree>)
    requires st != [] && ts != []
    ensures Extend(Emit(st, ts[0]), ts[1..]) == Extend(st, ts)
  {
    ExtendTwice(st, [ts[0]], ts[1..]);
    assert [ts[0]] + ts[1..] == ts;
  }

  /** A skipped character in front of the rest changes nothing. */
  lemma SkipThenRun(s: seq<char>, st: Stack)
    requires s != [] && IsSkipped(s[0]) && WellFormed(st)
    ensures Run(s, st) == Run(s[1..], st)
  {
    OnlySkippedCharsVanish(s, st);
    RunContinues(s, st);
  }

  /** Every token gathered in every scope of the stack could have been
      produced by the lexer. */
  predicate AllPrintable(st: Stack) {
    forall k, i :: 0 <= k < |st| && 0 <= i < |st[k].tokens| ==> Printable(st[k].tokens[i])
  }

  lemma ExtendPrintable(st: Stack, ts: seq<TokenTree>)
    requires st != [] && AllPrintable(st)
    requires forall i :: 0 <= i < |ts| ==> Printable(ts[i])
    ensures AllPrintable(Extend(st, ts))
  {
    var st' := Extend(st, ts);
    var top := st[|st| - 1];
    forall k, i | 0 <= k < |st'| && 0 <= i < |st'[k].tokens|
      ensures Printable(st'[k].tokens[i])
    {
      if k < |st| - 1 {
        assert st'[k] == st'[..|st| - 1][k] == st[k];
      } else if i < |top.tokens| {
        assert st'[k].tokens[i] == top.tokens[i];
      } else {
        assert st'[k].tokens[i] == ts[i - |top.tokens|];
      }
    }
  }

  /** A turn of the scan only ever gathers tokens the lexer can produce. */
  lemma StepKeepsPrintable(s: seq<char>, st: Stack)
    requires s != [] && WellFormed(st) && AllPrintable(st)
    ensures Step(s, st).Continue? ==> AllPrintable(Step(s, st).stack)
  {
    var c := s[0];
    var t := s[1..];
    if c == '"' {
      var n := Span(t, IsNotQuote);
      if n < |t| {
        var v := t[..n];
        forall k | 0 <= k < |v|
          ensures v[k] != '"'
        {
          assert v[k] == t[k];
        }
        ExtendPrintable(st, [Literal(Str(v))]);
      }
    } else if IsDigit(c) {
      var n := Span(t, IsNumberChar);
      var text := [c] + t[..n];
      if n < |t| && ParsesAsFloat(text) {
        forall k | 0 < k < |text|
          ensures IsNumberChar(text[k])
        {
          assert text[k] == t[k - 1];
        }
        ExtendPrintable(st, [Literal(Num(text))]);
      }
    } else if IsWordStart(c) {
      var n := Span(t, IsWordChar);
      var text := [c] + t[..n];
      if n < |t| {
        forall k | 0 < k < |text|
          ensures IsWordChar(text[k])
        {
          assert text[k] == t[k - 1];
        }
        ExtendPrintable(st, [Word(text)]);
      }
    } else if IsOpener(c) {
      var st' := st + [Frame(c, [])];
      assert forall k :: 0 <= k < |st| ==> st'[k] == st[k];
    } else if IsCloser(c) {
      var top := st[|st| - 1];
      if IsOpener(top.open) && c == CloserOf(top.open) {
        var below := st[..|st| - 1];
        assert forall k :: 0 <= k < |below| ==> below[k] == st[k];
        ExtendPrintable(below, [Group(KindOf(top.open), top.tokens)]);
      }
    } else if !IsSkipped(c) {
      ExtendPrintable(st, [Punct(c)]);
    }
  }

  /** The whole scan only ever returns tokens the lexer can produce. */
  lemma {:induction false} RunPrintable(s: seq<char>, st: Stack)
    requires WellFormed(st) && AllPrintable(st)
    ensures Run(s, st).Ok? ==> forall i :: 0 <= i < |Run(s, st).value| ==> Printable(Run(s, st).value[i])
    decreases |s|
  {
    if s != [] {
      StepKeepsPrintable(s, st);
      match Step(s, st)
      case Fail(_) =>
      case Continue(rest, st') => RunPrintable(rest, st');
    }
  }

  /** Printing what the lexer returns and lexing that text again gives the
      same result. */
  lemma LexedRoundTrips(code: string)
    requires Tokenize(code).Ok?
    ensures Tokenize(PrintSeq(Tokenize(code).value)) == Tokenize(code)
  {
    RunPrintable(code, Initial());
    RoundTrip(Tokenize(code).value);
  }

  /** Lexing the printed text of any trees the lexer can produce gives
      back exactly those trees. */
  lemma RoundTrip(ts: seq<TokenTree>)
    requires forall i :: 0 <= i < |ts| ==> Printable(ts[i])
    ensures Tokenize(PrintSeq(ts)) == Ok(ts)
  {
    SeqRoundTrip(ts, [], Initial());
    assert PrintSeq(ts) + [] == PrintSeq(ts);
    ExtendInitial(ts);
  }
}
