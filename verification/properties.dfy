/** What one turn of the scan does with each kind of character, and what
    the whole scan does with the quirky inputs: a trailing identifier, a
    trailing number, a number with two dots, whitespace only, a stray
    closer, unclosed groups.
 */
module LexerProperties {
  import opened Tokens
  import opened CharClass
  import opened Lexer

  /** A step that continues leaves the rest of the run unchanged. */
  lemma RunContinues(s: seq<char>, st: Stack)
    requires s != [] && WellFormed(st) && Step(s, st).Continue?
    ensures Run(s, st) == Run(Step(s, st).rest, Step(s, st).stack)
  {
  }

  /** A string literal holds exactly the characters between its quotes. */
  lemma StringStep(v: string, rest: seq<char>, st: Stack)
    requires '"' !in v && WellFormed(st)
    ensures Step(['"'] + v + ['"'] + rest, st) == Continue(rest, Emit(st, Literal(Str(v))))
  {
    var s := ['"'] + v + ['"'] + rest;
    var t := s[1..];
    assert t == v + (['"'] + rest);
    forall k | 0 <= k < |v|
      ensures IsNotQuote(v[k])
    {
      assert v[k] in v;
    }
    SpanPrefix(v, ['"'] + rest, IsNotQuote);
    assert t[..|v|] == v;
    assert t[|v| + 1..] == rest;
  }

  /** A string literal that is never closed fails, whatever it holds. */
  lemma UnterminatedStringFails(v: string, st: Stack)
    requires '"' !in v && WellFormed(st)
    ensures Run(['"'] + v, st) == Err(UnterminatedString)
  {
    var s := ['"'] + v;
    assert s[1..] == v;
    forall k | 0 <= k < |v|
      ensures IsNotQuote(v[k])
    {
      assert v[k] in v;
    }
    SpanUnique(v, IsNotQuote, |v|);
  }

  /** A number literal stops before the first character that is neither a
      digit nor a dot, and fails if its text is not a float. */
  lemma NumberStep(text: string, rest: seq<char>, st: Stack)
    requires |text| > 0 && IsDigit(text[0])
    requires forall k :: 0 <= k < |text| ==> IsNumberChar(text[k])
    requires rest != [] && !IsNumberChar(rest[0])
    requires WellFormed(st)
    ensures ParsesAsFloat(text) ==>
              Step(text + rest, st) == Continue(rest, Emit(st, Literal(Num(text))))
    ensures !ParsesAsFloat(text) ==> Step(text + rest, st) == Fail(BadNumber(text))
  {
    var s := text + rest;
    var t := s[1..];
    var body := text[1..];
    assert t == body + rest;
    SpanPrefix(body, rest, IsNumberChar);
    assert t[..|body|] == body;
    assert [text[0]] + body == text;
    assert t[|body|..] == rest;
  }

  /** A number that runs to the end of the input is an error. */
  lemma TrailingNumberFails(text: string, st: Stack)
    requires |text| > 0 && IsDigit(text[0])
    requires forall k :: 0 <= k < |text| ==> IsNumberChar(text[k])
    requires WellFormed(st)
    ensures Run(text, st) == Err(NumberAtEof)
  {
    SpanUnique(text[1..], IsNumberChar, |text| - 1);
  }

  /** A number whose run of digits and dots holds two dots never yields a
      token: the scan fails either at the float parse or at the end of input. */
  lemma TwoDotsFail(s: seq<char>, st: Stack, i: nat, j: nat)
    requires |s| > 0 && IsDigit(s[0]) && WellFormed(st)
    requires 0 < i < j < |s| && s[i] == '.' && s[j] == '.'
    requires forall k :: 0 < k < j ==> IsNumberChar(s[k])
    ensures Step(s, st).Fail?
    ensures Step(s, st).error == NumberAtEof || Step(s, st).error.BadNumber?
    ensures Run(s, st) == Err(Step(s, st).error)
  {
    var t := s[1..];
    var n := Span(t, IsNumberChar);
    forall k | 0 <= k < j
      ensures IsNumberChar(t[k])
    {
      assert t[k] == s[k + 1];
    }
    SpanAtLeast(t, IsNumberChar, j);
    if n < |t| {
      var text := [s[0]] + t[..n];
      assert text[i] == '.' && text[j] == '.';
    }
  }

  /** An identifier stops before the first character that cannot continue
      it, and the exact texts `true` and `false` become booleans. */
  lemma WordStep(text: string, rest: seq<char>, st: Stack)
    requires |text| > 0 && IsWordStart(text[0])
    requires forall k :: 0 <= k < |text| ==> IsWordChar(text[k])
    requires rest != [] && !IsWordChar(rest[0])
    requires WellFormed(st)
    ensures text == "true" ==> Step(text + rest, st) == Continue(rest, Emit(st, Literal(Bool(true))))
    ensures text == "false" ==> Step(text + rest, st) == Continue(rest, Emit(st, Literal(Bool(false))))
    ensures text != "true" && text != "false" ==>
              Step(text + rest, st) == Continue(rest, Emit(st, Ident(text)))
  {
    var s := text + rest;
    var t := s[1..];
    var body := text[1..];
    assert t == body + rest;
    SpanPrefix(body, rest, IsWordChar);
    assert t[..|body|] == body;
    assert [text[0]] + body == text;
    assert t[|body|..] == rest;
  }

  /** An identifier that runs to the end of the input is dropped without
      an error: the scan ends as if it were not there. */
  lemma TrailingWordDropped(text: string, st: Stack)
    requires |text| > 0 && IsWordStart(text[0])
    requires forall k :: 0 <= k < |text| ==> IsWordChar(text[k])
    requires WellFormed(st)
    ensures Run(text, st) == Finish(st)
  {
    SpanUnique(text[1..], IsWordChar, |text| - 1);
  }

  /** An opener starts an empty group on top of the stack and emits nothing. */
  lemma OpenerStep(s: seq<char>, st: Stack)
    requires s != [] && IsOpener(s[0]) && WellFormed(st)
    ensures Step(s, st) == Continue(s[1..], st + [Frame(s[0], [])])
  {
  }

  /** A closer fails against the top-level scope and against the wrong
      opener; otherwise it wraps the innermost scope's tokens, in order, in
      a group of the opener's kind and appends that group to the enclosing
      scope, leaving every other scope as it was. */
  lemma CloserStep(s: seq<char>, st: Stack)
    requires s != [] && IsCloser(s[0]) && WellFormed(st)
    ensures var top := st[|st| - 1];
      && (|st| == 1 ==> Step(s, st) == Fail(UnmatchedClose(s[0], Sentinel)))
      && (|st| > 1 && s[0] != CloserOf(top.open) ==> Step(s, st) == Fail(Mismatched(s[0], top.open)))
      && (|st| > 1 && s[0] == CloserOf(top.open) ==>
            var st' := Step(s, st).stack;
            && Step(s, st).Continue?
            && Step(s, st).rest == s[1..]
            && |st'| == |st| - 1
            && st'[..|st| - 2] == st[..|st| - 2]
            && st'[|st| - 2].open == st[|st| - 2].open
            && st'[|st| - 2].tokens == st[|st| - 2].tokens + [Group(KindOf(top.open), top.tokens)])
  {
    SentinelOnlyAtBottom(st);
    var top := st[|st| - 1];
    if |st| > 1 && s[0] == CloserOf(top.open) {
      var below := st[..|st| - 1];
      assert below[..|st| - 2] == st[..|st| - 2];
    }
  }

  /** A character no other arm claims becomes exactly one `Punct` token. */
  lemma PunctStep(s: seq<char>, st: Stack)
    requires s != [] && IsPunct(s[0]) && WellFormed(st)
    ensures Step(s, st) == Continue(s[1..], Emit(st, Punct(s[0])))
  {
  }

  /** Only spaces and newlines are skipped; anything else the scan meets
      either fails or leaves a mark on the stack. */
  lemma OnlySkippedCharsVanish(s: seq<char>, st: Stack)
    requires s != [] && WellFormed(st)
    ensures IsSkipped(s[0]) ==> Step(s, st) == Continue(s[1..], st)
    ensures !IsSkipped(s[0]) && !IsWordStart(s[0]) && Step(s, st).Continue? ==> Step(s, st).stack != st
  {
    var c := s[0];
    if !IsSkipped(c) && !IsWordStart(c) && Step(s, st).Continue? {
      var st' := Step(s, st).stack;
      if IsOpener(c) {
        assert |st'| == |st| + 1;
      } else if IsCloser(c) {
        assert |st'| == |st| - 1;
      } else {
        assert |st'[|st| - 1].tokens| == |st[|st| - 1].tokens| + 1;
      }
    }
  }

  /** Input made only of spaces and newlines leaves the stack untouched. */
  lemma {:induction false} WhitespaceOnly(s: seq<char>, st: Stack)
    requires forall k :: 0 <= k < |s| ==> IsSkipped(s[k])
    requires WellFormed(st)
    ensures Run(s, st) == Finish(st)
    decreases |s|
  {
    if s != [] {
      assert Step(s, st) == Continue(s[1..], st);
      WhitespaceOnly(s[1..], st);
    }
  }

  /** ... so on its own it lexes to no tokens at all. */
  lemma WhitespaceOnlyIsEmpty(s: seq<char>)
    requires forall k :: 0 <= k < |s| ==> IsSkipped(s[k])
    ensures Tokenize(s) == Ok([])
  {
    WhitespaceOnly(s, Initial());
  }

  /** A closer before any opener is an unmatched close. */
  lemma LeadingCloserFails(s: seq<char>)
    requires s != [] && IsCloser(s[0])
    ensures Tokenize(s) == Err(UnmatchedClose(s[0], Sentinel))
  {
  }

  /** When the input runs out with groups open, the error names the
      innermost one. */
  lemma UnclosedNamesInnermost(st: Stack)
    requires WellFormed(st) && |st| > 1
    ensures Run([], st) == Err(Unclosed(st[|st| - 1].open))
  {
  }
}
