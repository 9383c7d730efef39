/** Two typical inputs, an assignment and a call, lexed in full. Each
    helper lemma covers one token together with the spaces around it, on a
    symbolic stack; the two top-level lemmas chain them. */
module WorkedExamples {
  import opened Tokens
  import opened CharClass
  import opened Lexer
  import opened LexerProperties
  import opened Printer

  /** A punctuator followed by anything, in terms of the whole run. */
  lemma PunctRun(s: seq<char>, st: Stack)
    requires s != [] && IsPunct(s[0]) && WellFormed(st)
    ensures Run(s, st) == Run(s[1..], Emit(st, Punct(s[0])))
  {
    PunctStep(s, st);
    RunContinues(s, st);
  }

  lemma AssignTarget(st: Stack)
    requires WellFormed(st)
    ensures Run("x = 3.14;", st) == Run(" = 3.14;", Emit(st, Ident("x")))
  {
    assert "x = 3.14;" == "x" + " = 3.14;";
    WordStep("x", " = 3.14;", st);
    RunContinues("x = 3.14;", st);
  }

  lemma AssignEquals(st: Stack)
    requires WellFormed(st)
    ensures Run(" = 3.14;", st) == Run("3.14;", Emit(st, Punct('=')))
  {
    SkipThenRun(" = 3.14;", st);
    assert " = 3.14;"[1..] == "= 3.14;";
    PunctRun("= 3.14;", st);
    assert "= 3.14;"[1..] == " 3.14;";
    SkipThenRun(" 3.14;", Emit(st, Punct('=')));
    assert " 3.14;"[1..] == "3.14;";
  }

  lemma AssignNumber(st: Stack)
    requires WellFormed(st)
    ensures Run("3.14;", st) == Run(";", Emit(st, Literal(Num("3.14"))))
  {
    assert "3.14;" == "3.14" + ";";
    NumberStep("3.14", ";", st);
    RunContinues("3.14;", st);
  }

  lemma AssignSemi(st: Stack)
    requires WellFormed(st)
    ensures Run(";", st) == Finish(Emit(st, Punct(';')))
  {
    PunctRun(";", st);
    assert ";"[1..] == [];
  }

  /** The top-level scope after the four tokens of `x = 3.14;`. */
  lemma AssignStack(x: TokenTree, eq: TokenTree, num: TokenTree, semi: TokenTree)
    ensures Emit(Emit(Emit(Emit(Initial(), x), eq), num), semi) == [Frame(Sentinel, [x, eq, num, semi])]
  {
    calc {
      Emit(Emit(Emit(Emit(Initial(), x), eq), num), semi);
      { EmitTopLevel([], x); assert [] + [x] == [x]; }
      Emit(Emit(Emit([Frame(Sentinel, [x])], eq), num), semi);
      { EmitTopLevel([x], eq); assert [x] + [eq] == [x, eq]; }
      Emit(Emit([Frame(Sentinel, [x, eq])], num), semi);
      { EmitTopLevel([x, eq], num); assert [x, eq] + [num] == [x, eq, num]; }
      Emit([Frame(Sentinel, [x, eq, num])], semi);
      { EmitTopLevel([x, eq, num], semi); assert [x, eq, num] + [semi] == [x, eq, num, semi]; }
      [Frame(Sentinel, [x, eq, num, semi])];
    }
  }

  /** `x = 3.14;` lexes to an identifier, `=`, the number and `;`. */
  lemma Assignment()
    ensures Tokenize("x = 3.14;") == Ok([Ident("x"), Punct('='), Literal(Num("3.14")), Punct(';')])
  {
    var st1 := Emit(Initial(), Ident("x"));
    var st2 := Emit(st1, Punct('='));
    var st3 := Emit(st2, Literal(Num("3.14")));
    calc {
      Tokenize("x = 3.14;");
      { AssignTarget(Initial()); }
      Run(" = 3.14;", st1);
      { AssignEquals(st1); }
      Run("3.14;", st2);
      { AssignNumber(st2); }
      Run(";", st3);
      { AssignSemi(st3); }
      Finish(Emit(st3, Punct(';')));
      { AssignStack(Ident("x"), Punct('='), Literal(Num("3.14")), Punct(';')); }
      Ok([Ident("x"), Punct('='), Literal(Num("3.14")), Punct(';')]);
    }
  }

  lemma CallName(st: Stack)
    requires WellFormed(st)
    ensures Run("foo(1, \"bar\", true)", st) == Run("(1, \"bar\", true)", Emit(st, Ident("foo")))
  {
    assert "foo(1, \"bar\", true)" == "foo" + "(1, \"bar\", true)";
    WordStep("foo", "(1, \"bar\", true)", st);
    RunContinues("foo(1, \"bar\", true)", st);
  }

  lemma CallOpen(st: Stack)
    requires WellFormed(st)
    ensures Run("(1, \"bar\", true)", st) == Run("1, \"bar\", true)", st + [Frame('(', [])])
  {
    OpenerStep("(1, \"bar\", true)", st);
    RunContinues("(1, \"bar\", true)", st);
    assert "(1, \"bar\", true)"[1..] == "1, \"bar\", true)";
  }

  lemma CallOne(st: Stack)
    requires WellFormed(st)
    ensures Run("1, \"bar\", true)", st) == Run(", \"bar\", true)", Emit(st, Literal(Num("1"))))
  {
    assert "1, \"bar\", true)" == "1" + ", \"bar\", true)";
    NumberStep("1", ", \"bar\", true)", st);
    RunContinues("1, \"bar\", true)", st);
  }

  lemma CallFirstComma(st: Stack)
    requires WellFormed(st)
    ensures Run(", \"bar\", true)", st) == Run("\"bar\", true)", Emit(st, Punct(',')))
  {
    PunctRun(", \"bar\", true)", st);
    assert ", \"bar\", true)"[1..] == " \"bar\", true)";
    SkipThenRun(" \"bar\", true)", Emit(st, Punct(',')));
    assert " \"bar\", true)"[1..] == "\"bar\", true)";
  }

  lemma CallBar(st: Stack)
    requires WellFormed(st)
    ensures Run("\"bar\", true)", st) == Run(", true)", Emit(st, Literal(Str("bar"))))
  {
    assert "\"bar\", true)" == ['"'] + "bar" + ['"'] + ", true)";
    StringStep("bar", ", true)", st);
    RunContinues("\"bar\", true)", st);
  }

  lemma CallSecondComma(st: Stack)
    requires WellFormed(st)
    ensures Run(", true)", st) == Run("true)", Emit(st, Punct(',')))
  {
    PunctRun(", true)", st);
    assert ", true)"[1..] == " true)";
    SkipThenRun(" true)", Emit(st, Punct(',')));
    assert " true)"[1..] == "true)";
  }

  lemma CallTrue(st: Stack)
    requires WellFormed(st)
    ensures Run("true)", st) == Run(")", Emit(st, Literal(Bool(true))))
  {
    assert "true)" == "true" + ")";
    WordStep("true", ")", st);
    RunContinues("true)", st);
  }

  /** The closer of the argument list turns its scope into a group. */
  lemma CallClose(st: Stack, children: seq<TokenTree>)
    requires WellFormed(st)
    ensures Run(")", st + [Frame('(', children)]) == Finish(Emit(st, Group(Paren, children)))
  {
    CloseStep('(', children, [], st);
    assert [CloserOf('(')] + [] == ")";
    RunContinues(")", st + [Frame('(', children)]);
  }

  /** Emitting into a scope pushed on top of `st` leaves `st` alone. */
  lemma EmitInner(st: Stack, o: char, ts: seq<TokenTree>, t: TokenTree)
    ensures Emit(st + [Frame(o, ts)], t) == st + [Frame(o, ts + [t])]
  {
    assert (st + [Frame(o, ts)])[..|st|] == st;
  }

  /** The scope of the parentheses after their five tokens. */
  lemma CallArguments(st: Stack, one: TokenTree, comma: TokenTree, bar: TokenTree, yes: TokenTree)
    ensures Emit(Emit(Emit(Emit(Emit(st + [Frame('(', [])], one), comma), bar), comma), yes)
         == st + [Frame('(', [one, comma, bar, comma, yes])]
  {
    EmitInner(st, '(', [], one);
    assert [] + [one] == [one];
    EmitInner(st, '(', [one], comma);
    assert [one] + [comma] == [one, comma];
    EmitInner(st, '(', [one, comma], bar);
    assert [one, comma] + [bar] == [one, comma, bar];
    EmitInner(st, '(', [one, comma, bar], comma);
    assert [one, comma, bar] + [comma] == [one, comma, bar, comma];
    EmitInner(st, '(', [one, comma, bar, comma], yes);
    assert [one, comma, bar, comma] + [yes] == [one, comma, bar, comma, yes];
  }

  /** The top-level scope after the name and the group. */
  lemma CallStack(name: TokenTree, group: TokenTree)
    ensures Emit(Emit(Initial(), name), group) == [Frame(Sentinel, [name, group])]
  {
    EmitTopLevel([], name);
    assert [] + [name] == [name];
    EmitTopLevel([name], group);
    assert [name] + [group] == [name, group];
  }

  /** `foo(1, "bar", true)` lexes to the name and one parenthesised group
      holding the three arguments and the two commas between them. */
  lemma Call()
    ensures Tokenize("foo(1, \"bar\", true)")
         == Ok([Ident("foo"), Group(Paren, [Literal(Num("1")), Punct(','), Literal(Str("bar")), Punct(','), Literal(Bool(true))])])
  {
    var one, comma, bar, yes := Literal(Num("1")), Punct(','), Literal(Str("bar")), Literal(Bool(true));
    var args := [one, comma, bar, comma, yes];
    var outer := Emit(Initial(), Ident("foo"));
    var in0 := outer + [Frame('(', [])];
    var in1 := Emit(in0, one);
    var in2 := Emit(in1, comma);
    var in3 := Emit(in2, bar);
    var in4 := Emit(in3, comma);
    calc {
      Tokenize("foo(1, \"bar\", true)");
      { CallName(Initial()); }
      Run("(1, \"bar\", true)", outer);
      { CallOpen(outer); }
      Run("1, \"bar\", true)", in0);
      { CallOne(in0); }
      Run(", \"bar\", true)", in1);
      { CallFirstComma(in1); }
      Run("\"bar\", true)", in2);
      { CallBar(in2); }
      Run(", true)", in3);
      { CallSecondComma(in3); }
      Run("true)", in4);
      { CallTrue(in4); }
      Run(")", Emit(in4, yes));
      { CallArguments(outer, one, comma, bar, yes); }
      Run(")", outer + [Frame('(', args)]);
      { CallClose(outer, args); }
      Finish(Emit(outer, Group(Paren, args)));
      { CallStack(Ident("foo"), Group(Paren, args)); }
      Ok([Ident("foo"), Group(Paren, args)]);
    }
  }
}
