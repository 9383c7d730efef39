/** The `Stream` cursor of src/main.rs: the input's characters and the index
    of the next one to read. Reading returns the advanced cursor instead of
    mutating it in place.
 */
module Cursor {
  import opened Tokens

  datatype Stream = Stream(chars: seq<char>, pos: nat)

  /** The cursor never points past the end of its input. */
  predicate Valid(s: Stream) { s.pos <= |s.chars| }

  /** The characters not yet read. */
  function Remaining(s: Stream): seq<char>
    requires Valid(s)
  {
    s.chars[s.pos..]
  }

  function New(code: string): (s: Stream)
    ensures Valid(s) && s.chars == code
    ensures Remaining(s) == code
  {
    Stream(code, 0)
  }

  /** Returns the next character and the cursor advanced by one, or nothing
      and the same cursor at the end of the input. */
  function Next(s: Stream): (r: (Option<char>, Stream))
    ensures r.1.chars == s.chars
    ensures r.0.Some? <==> s.pos < |s.chars|
    ensures r.0.Some? ==> r.0.value == s.chars[s.pos] && r.1.pos == s.pos + 1
    ensures r.0.None? ==> r.1 == s
    ensures Valid(s) ==> Valid(r.1)
    ensures Valid(s) && r.0.Some? ==> Remaining(s) == [r.0.value] + Remaining(r.1)
  {
    if s.pos < |s.chars| then (Some(s.chars[s.pos]), s.(pos := s.pos + 1)) else (None, s)
  }

  /** What `Next` would return, without moving the cursor. */
  function Peek(s: Stream): (c: Option<char>)
    ensures c == Next(s).0
    ensures Valid(s) ==> (c.Some? <==> Remaining(s) != [])
    ensures Valid(s) && c.Some? ==> c.value == Remaining(s)[0]
  {
    if s.pos < |s.chars| then Some(s.chars[s.pos]) else None
  }
}
