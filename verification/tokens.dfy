/** The token tree the lexer produces, and the ways it can fail.

    Mirrors the `Ident`, `Lit`, `Bracket`, `Punct` and `TokenTree` types of
    src/main.rs. A number literal carries the digit/dot text it was scanned
    from instead of the `f32` it is parsed into.
 */
module Tokens {

  datatype Option<+T> = None | Some(value: T)

  /** Which pair of delimiters a group was written with: `{}`, `[]` or `()`.
      `Square` is the variant the source calls `Bracket::Bracket`. */
  datatype Bracket = Brace | Square | Paren

  datatype Lit =
    | Num(text: string)
    | Str(contents: string)
    | Bool(b: bool)

  datatype TokenTree =
    | Ident(name: string)
    | Literal(lit: Lit)
    | Punct(symbol: char)
    | Group(kind: Bracket, children: seq<TokenTree>)

  /** One variant per `return Err` site of `to_tokens`. */
  datatype LexError =
      /** a `"` was opened but the input ended before the closing `"` */
    | UnterminatedString
      /** a second `.` in a number; the source never reaches this site */
    | SecondDot
      /** the scanned number text is not a float */
    | BadNumber(text: string)
      /** the input ended inside a number */
    | NumberAtEof
      /** a closer met the bottom-of-stack sentinel */
    | UnmatchedClose(found: char, open: char)
      /** a closer does not belong to the innermost open bracket */
    | Mismatched(found: char, open: char)
      /** the input ended with `open` still unclosed */
    | Unclosed(open: char)

  datatype Result<+T> = Ok(value: T) | Err(error: LexError)
}
