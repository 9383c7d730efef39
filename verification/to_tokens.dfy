/** `to_tokens` of src/main.rs as the source writes it: a loop that pulls
    characters from a `Stream` with `Next` and `Peek`, with the string,
    number and identifier sub-scans as inner loops and the group stack as a
    local variable. `ToTokens` is proved to compute exactly `Lexer.Tokenize`.
 */
module StreamLexer {
  import opened Tokens
  import opened CharClass
  import opened Cursor
  import opened Lexer

  /** `res` carries what `Step` does to the input `s0` and stack `st0`:
      the same error, or a cursor at the same rest of the input together
      with the same stack. */
  predicate Agrees(s0: seq<char>, st0: Stack, code: string, res: Result<(Stream, Stack)>)
    requires s0 != [] && WellFormed(st0)
  {
    match Step(s0, st0)
    case Fail(e) => res == Err(e)
    case Continue(rest, st') =>
      && res.Ok?
      && Valid(res.value.0)
      && res.value.0.chars == code
      && Remaining(res.value.0) == rest
      && res.value.1 == st'
  }

  /** The cursor has just read the character that starts a sub-scan. */
  predicate JustRead(chars: Stream, c: char) {
    && Valid(chars)
    && chars.pos >= 1
    && chars.chars[chars.pos - 1] == c
  }

  function Before(chars: Stream): seq<char>
    requires Valid(chars) && chars.pos >= 1
  {
    chars.chars[chars.pos - 1..]
  }

  /** The string sub-scan, entered just after its opening `"`. */
  method ScanString(chars: Stream, stack: Stack) returns (res: Result<(Stream, Stack)>)
    requires JustRead(chars, '"') && WellFormed(stack)
    ensures Agrees(Before(chars), stack, chars.chars, res)
  {
    var code := chars.chars;
    var t := Remaining(chars);
    assert Before(chars)[0] == '"' && Before(chars)[1..] == t;
    var cur := chars;
    var val := "";
    while true
      invariant Valid(cur) && cur.chars == code
      invariant chars.pos <= cur.pos
      invariant val == t[..cur.pos - chars.pos]
      invariant forall k :: 0 <= k < |val| ==> IsNotQuote(val[k])
      decreases |code| - cur.pos
    {
      var d := Next(cur);
      if d.0.None? {
        SpanUnique(t, IsNotQuote, |t|);
        return Err(UnterminatedString);
      }
      cur := d.1;
      if d.0.value == '"' {
        SpanUnique(t, IsNotQuote, |val|);
        assert t[|val| + 1..] == Remaining(cur);
        return Ok((cur, Emit(stack, Literal(Str(val)))));
      }
      val := val + [d.0.value];
    }
  }

  /** Consumes characters with `Peek`/`Next` while they satisfy `p`: the
      inner loop of the identifier sub-scan. */
  method TakeWhile(chars: Stream, p: char -> bool) returns (cur: Stream, run: string)
    requires Valid(chars)
    ensures Valid(cur) && cur.chars == chars.chars
    ensures var n := Span(Remaining(chars), p);
      run == Remaining(chars)[..n] && Remaining(cur) == Remaining(chars)[n..]
  {
    var t := Remaining(chars);
    cur := chars;
    run := [];
    while true
      invariant Valid(cur) && cur.chars == chars.chars
      invariant chars.pos <= cur.pos
      invariant run == t[..cur.pos - chars.pos]
      invariant Remaining(cur) == t[cur.pos - chars.pos..]
      invariant forall k :: 0 <= k < |run| ==> p(t[k])
      decreases |chars.chars| - cur.pos
    {
      var c := Peek(cur);
      if c.None? || !p(c.value) {
        SpanUnique(t, p, |run|);
        return;
      }
      var d := Next(cur);
      cur := d.1;
      run := run + [d.0.value];
    }
  }

  /** The inner loop of the number sub-scan, entered just after its first
      digit `c`: it stops at the end of the input with an error, or before
      the first character that is neither a digit nor a `.`, returning the
      text read so far. As in the source, `decimal` starts out `false` and
      no arm ever sets it, so the arm that would report a second `.` is
      never taken and every `.` is consumed like a digit. */
  method DigitsAndDots(chars: Stream, c: char) returns (res: Result<(Stream, string)>)
    requires Valid(chars)
    ensures var t := Remaining(chars);
      var n := Span(t, IsNumberChar);
      if n == |t| then res == Err(NumberAtEof)
      else
        && res.Ok?
        && Valid(res.value.0) && res.value.0.chars == chars.chars
        && Remaining(res.value.0) == t[n..]
        && res.value.1 == [c] + t[..n]
  {
    var t := Remaining(chars);
    var cur := chars;
    var val := [c];
    var decimal := false;
    while true
      invariant Valid(cur) && cur.chars == chars.chars
      invariant chars.pos <= cur.pos
      invariant val == [c] + t[..cur.pos - chars.pos]
      invariant Remaining(cur) == t[cur.pos - chars.pos..]
      invariant forall k :: 0 <= k < cur.pos - chars.pos ==> IsNumberChar(t[k])
      decreases |chars.chars| - cur.pos
    {
      var next := Peek(cur);
      if next.None? {
        SpanUnique(t, IsNumberChar, |t|);
        return Err(NumberAtEof);
      }
      var d := next.value;
      if IsDigit(d) {
        var r := Next(cur);
        cur, val := r.1, val + [r.0.value];
      } else if d == '.' && !decimal {
        var r := Next(cur);
        cur, val := r.1, val + [r.0.value];
      } else if d == '.' && decimal {
        return Err(SecondDot);
      } else {
        SpanUnique(t, IsNumberChar, cur.pos - chars.pos);
        return Ok((cur, val));
      }
    }
  }

  /** The number sub-scan, entered just after its first digit `c`. */
  method ScanNumber(chars: Stream, stack: Stack, c: char) returns (res: Result<(Stream, Stack)>)
    requires JustRead(chars, c) && IsDigit(c) && WellFormed(stack)
    ensures Agrees(Before(chars), stack, chars.chars, res)
  {
    assert Before(chars)[0] == c && Before(chars)[1..] == Remaining(chars);
    var scanned := DigitsAndDots(chars, c);
    if scanned.Err? {
      return Err(scanned.error);
    }
    var (cur, val) := scanned.value;
    if !ParsesAsFloat(val) {
      return Err(BadNumber(val));
    }
    return Ok((cur, Emit(stack, Literal(Num(val)))));
  }

  /** The identifier sub-scan, entered just after its first character `c`. */
  method ScanWord(chars: Stream, stack: Stack, c: char) returns (res: Result<(Stream, Stack)>)
    requires JustRead(chars, c) && IsWordStart(c) && WellFormed(stack)
    ensures Agrees(Before(chars), stack, chars.chars, res)
  {
    assert Before(chars)[0] == c && Before(chars)[1..] == Remaining(chars);
    var cur, tail := TakeWhile(chars, IsWordChar);
    if Peek(cur).None? {
      // nothing is pushed: the outer loop then finds the input used up
      return Ok((cur, stack));
    }
    return Ok((cur, Emit(stack, Word([c] + tail))));
  }

  /** One turn of the outer loop, after it has read `c`. */
  method Dispatch(chars: Stream, stack: Stack, c: char) returns (res: Result<(Stream, Stack)>)
    requires JustRead(chars, c) && WellFormed(stack)
    ensures Agrees(Before(chars), stack, chars.chars, res)
  {
    assert Before(chars)[0] == c && Before(chars)[1..] == Remaining(chars);
    if c == '"' {
      res := ScanString(chars, stack);
    } else if IsDigit(c) {
      res := ScanNumber(chars, stack, c);
    } else if IsWordStart(c) {
      res := ScanWord(chars, stack, c);
    } else if IsOpener(c) {
      res := Ok((chars, stack + [Frame(c, [])]));
    } else if IsCloser(c) {
      var top := stack[|stack| - 1];
      var rest := stack[..|stack| - 1];
      if !IsOpener(top.open) {
        return Err(UnmatchedClose(c, top.open));
      }
      if c != CloserOf(top.open) {
        return Err(Mismatched(c, top.open));
      }
      SentinelOnlyAtBottom(stack);
      res := Ok((chars, Emit(rest, Group(KindOf(top.open), top.tokens))));
    } else if c == ' ' || c == '\n' {
      res := Ok((chars, stack));
    } else {
      res := Ok((chars, Emit(stack, Punct(c))));
    }
  }

  method ToTokens(code: string) returns (r: Result<seq<TokenTree>>)
    ensures r == Tokenize(code)
  {
    var chars := New(code);
    var stack := Initial();
    while true
      invariant Valid(chars) && chars.chars == code
      invariant WellFormed(stack)
      invariant Run(Remaining(chars), stack) == Tokenize(code)
      decreases |code| - chars.pos
    {
      var first := Next(chars);
      if first.0.None? {
        break;
      }
      var res := Dispatch(first.1, stack, first.0.value);
      assert Before(first.1) == Remaining(chars);
      if res.Err? {
        return Err(res.error);
      }
      chars, stack := res.value.0, res.value.1;
    }
    var top := stack[|stack| - 1];
    if top.open == Sentinel {
      r := Ok(top.tokens);
    } else {
      r := Err(Unclosed(top.open));
    }
  }
}
