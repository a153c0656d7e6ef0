/**
 * The records the template parser hands to both rules: HTML tokens of the
 * markup section, with their kind, text, character offsets and line/column
 * positions. The rules only read them.
 */
module Tokens {

  datatype Option<+T> = None | Some(value: T)

  /** The token kinds the rules tell apart; every other kind is `OtherKind`. */
  datatype TokenKind =
    | HTMLTagOpen              // `<name`
    | HTMLTagClose             // `>`
    | HTMLEndTagOpen           // `</name`
    | HTMLSelfClosingTagClose  // `/>`
    | HTMLWhitespace
    | HTMLComment
    | HTMLText
    | OtherKind

  datatype Position = Position(line: int, column: int)

  datatype Location = Location(start: Position, end: Position)

  /** Character offsets `[start, end)` into the source text. */
  datatype Range = Range(start: int, end: int)

  /** For a tag-open or end-tag-open token, `value` is the tag name. */
  datatype Token = Token(kind: TokenKind, value: string, range: Range, loc: Location)

  /** Strictly increasing: the indices name tokens in source order, each once. */
  ghost predicate Increasing(idx: seq<nat>)
  {
    forall a, b :: 0 <= a < b < |idx| ==> idx[a] < idx[b]
  }

  /** The tokens of `s` at the positions `idx`, in the order of `idx`. */
  ghost function Picks(s: seq<Token>, idx: seq<nat>): (r: seq<Token>)
    requires forall k :: 0 <= k < |idx| ==> idx[k] < |s|
    ensures |r| == |idx|
  {
    seq(|idx|, k requires 0 <= k < |idx| => s[idx[k]])
  }
}
