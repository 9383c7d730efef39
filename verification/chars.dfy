/** Character classes used by the lexer's dispatch, the bracket pairing,
    and `Span`, the maximal run of characters of one class that every
    sub-scan of the lexer consumes.
 */
module CharClass {
  import opened Tokens

  /** The opener recorded for the implicit top-level scope. */
  const Sentinel: char := ' '

  predicate IsDigit(c: char) { '0' <= c <= '9' }

  predicate IsAsciiLetter(c: char) { 'a' <= c <= 'z' || 'A' <= c <= 'Z' }

  /** May start an identifier. */
  predicate IsWordStart(c: char) { IsAsciiLetter(c) || c == '_' }

  /** May continue an identifier. */
  predicate IsWordChar(c: char) { IsWordStart(c) || IsDigit(c) }

  /** May continue a number; the source accepts every `.`, not only the first. */
  predicate IsNumberChar(c: char) { IsDigit(c) || c == '.' }

  /** Any character a string literal runs over. */
  predicate IsNotQuote(c: char) { c != '"' }

  /** The only two characters the lexer skips. */
  predicate IsSkipped(c: char) { c == ' ' || c == '\n' }

  predicate IsOpener(c: char) { c == '(' || c == '[' || c == '{' }

  predicate IsCloser(c: char) { c == ')' || c == ']' || c == '}' }

  /** A character that the lexer turns into a `Punct` token of its own. */
  predicate IsPunct(c: char) {
    c != '"' && !IsDigit(c) && !IsWordStart(c) && !IsOpener(c) && !IsCloser(c) && !IsSkipped(c)
  }

  function CloserOf(open: char): (c: char)
    requires IsOpener(open)
    ensures IsCloser(c)
  {
    match open
    case '(' => ')'
    case '[' => ']'
    case '{' => '}'
  }

  /** The opener a bracket kind is written with. */
  function OpenerOf(k: Bracket): (c: char)
    ensures IsOpener(c)
  {
    match k
    case Paren => '('
    case Square => '['
    case Brace => '{'
  }

  /** The bracket kind an opener starts; the inverse of `OpenerOf`. */
  function KindOf(open: char): (k: Bracket)
    requires IsOpener(open)
    ensures OpenerOf(k) == open
  {
    match open
    case '(' => Paren
    case '[' => Square
    case '{' => Brace
  }

  /** The length of the longest prefix of `t` whose characters all satisfy `p`. */
  function Span(t: seq<char>, p: char -> bool): (n: nat)
    ensures n <= |t|
    ensures forall k :: 0 <= k < n ==> p(t[k])
    ensures n < |t| ==> !p(t[n])
    decreases |t|
  {
    if t == [] || !p(t[0]) then 0 else 1 + Span(t[1..], p)
  }

  /** `Span` is the only length with its two properties. */
  lemma SpanUnique(t: seq<char>, p: char -> bool, m: nat)
    requires m <= |t|
    requires forall k :: 0 <= k < m ==> p(t[k])
    requires m < |t| ==> !p(t[m])
    ensures Span(t, p) == m
  {
  }

  /** A prefix whose characters all satisfy `p` lies inside the span. */
  lemma SpanAtLeast(t: seq<char>, p: char -> bool, m: nat)
    requires m <= |t|
    requires forall k :: 0 <= k < m ==> p(t[k])
    ensures Span(t, p) >= m
  {
  }

  /** A run that is followed by a stopping character does not see past it. */
  lemma SpanPrefix(a: seq<char>, b: seq<char>, p: char -> bool)
    requires forall k :: 0 <= k < |a| ==> p(a[k])
    requires b != [] && !p(b[0])
    ensures Span(a + b, p) == |a|
  {
    var t := a + b;
    forall k | 0 <= k < |a|
      ensures p(t[k])
    {
      assert t[k] == a[k];
    }
    assert t[|a|] == b[0];
    SpanUnique(t, p, |a|);
  }
}
