/** Worked inputs: a stray, a crossed and an unclosed bracket, an
    unterminated string, and the quirks of the source's end-of-input and
    whitespace handling on short texts. */
module Scenarios {
  import opened Tokens
  import opened CharClass
  import opened Lexer
  import opened LexerProperties

  lemma OpenBrace()
    ensures Tokenize("{") == Err(Unclosed('{'))
  {
  }

  lemma StrayCloser()
    ensures Tokenize(")") == Err(UnmatchedClose(')', Sentinel))
  {
  }

  /** The error names the innermost opener, not the closer it expected. */
  lemma CrossedBrackets()
    ensures Tokenize("([)]") == Err(Mismatched(')', '['))
  {
    OpenerStep("([)]", Initial());
    RunContinues("([)]", Initial());
    assert "([)]"[1..] == "[)]";
    OpenerStep("[)]", Initial() + [Frame('(', [])]);
    RunContinues("[)]", Initial() + [Frame('(', [])]);
    assert "[)]"[1..] == ")]";
    CloserStep(")]", Initial() + [Frame('(', [])] + [Frame('[', [])]);
  }

  lemma OpenString()
    ensures Tokenize("\"abc") == Err(UnterminatedString)
  {
  }

  lemma QuotedString()
    ensures Tokenize("\"a\"") == Ok([Literal(Str("a"))])
  {
    assert "\"a\"" == ['"'] + "a" + ['"'] + [];
    StringStep("a", [], Initial());
    RunContinues("\"a\"", Initial());
    EmitTopLevel([], Literal(Str("a")));
    assert [] + [Literal(Str("a"))] == [Literal(Str("a"))];
  }

  lemma EmptyParens()
    ensures Tokenize("()") == Ok([Group(Paren, [])])
  {
    EmitTopLevel([], Group(Paren, []));
    assert Initial()[..0] == [];
    assert [] + [Group(Paren, [])] == [Group(Paren, [])];
  }

  lemma BlankInput()
    ensures Tokenize(" \n") == Ok([])
  {
  }

  /** The identifier `b` at the very end vanishes without an error. */
  lemma TrailingIdentifier()
    ensures Tokenize(";b") == Ok([Punct(';')])
  {
    PunctStep(";b", Initial());
    RunContinues(";b", Initial());
    assert ";b"[1..] == "b";
    EmitTopLevel([], Punct(';'));
    assert [] + [Punct(';')] == [Punct(';')];
    TrailingWordDropped("b", [Frame(Sentinel, [Punct(';')])]);
  }

  lemma EqualsIsPunct()
    ensures IsPunct('=')
  {
  }

  /** The number `12` at the very end is an error. */
  lemma TrailingNumber()
    ensures Tokenize("x=12") == Err(NumberAtEof)
  {
    assert "x=12" == "x" + "=12";
    WordStep("x", "=12", Initial());
    RunContinues("x=12", Initial());
    var st1 := Emit(Initial(), Ident("x"));
    EqualsIsPunct();
    PunctStep("=12", st1);
    RunContinues("=12", st1);
    assert "=12"[1..] == "12";
    TrailingNumberFails("12", Emit(st1, Punct('=')));
  }

  /** A second dot is consumed and the float parse rejects the text. */
  lemma TwoDots()
    ensures Tokenize("1.2.;") == Err(BadNumber("1.2."))
  {
    assert "1.2.;" == "1.2." + ";";
    assert !ParsesAsFloat("1.2.") by {
      assert "1.2."[1] == '.' && "1.2."[3] == '.';
    }
    NumberStep("1.2.", ";", Initial());
    TwoDotsFail("1.2.;", Initial(), 1, 3);
  }

  /** A tab is not skipped. */
  lemma TabIsPunct()
    ensures Tokenize("\t") == Ok([Punct('\t')])
  {
    PunctStep("\t", Initial());
    RunContinues("\t", Initial());
    assert "\t"[1..] == [];
    EmitTopLevel([], Punct('\t'));
    assert [] + [Punct('\t')] == [Punct('\t')];
  }
}
