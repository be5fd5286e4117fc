/**
 * Tokens as the parser sees them: a kind and a source span. The lexer that
 * produces them is not part of this model.
 */
module Tokens {

  /** An interned string; the model keeps its text. */
  type Symbol = string

  datatype Delimiter = Parenthesis | Brace | Bracket

  /**
   * The token kinds the parser engine distinguishes. Keywords are `Ident`
   * tokens whose symbol is a keyword; `Other` stands for every kind the
   * engine never inspects (operators, literals, ...), carrying its text.
   */
  datatype TokenKind =
    | Ident(sym: Symbol)
    | Comma
    | Dot
    | Colon
    | Semi
    | OpenDelim(delim: Delimiter)
    | CloseDelim(delim: Delimiter)
    | Eof
    | Comment
    | Other(text: string)

  /** A half-open range of byte positions. `Span(0, 0)` is the dummy span. */
  datatype Span = Span(lo: nat, hi: nat) {
    predicate IsDummy() {
      lo == 0 && hi == 0
    }

    /** The empty span at the end of this one. */
    function ShrinkToHi(): Span {
      Span(hi, hi)
    }

    /** The empty span at the start of this one. */
    function ShrinkToLo(): Span {
      Span(lo, lo)
    }

    /** The span from the start of this one to the start of `end` (ends ordered). */
    function Until(end: Span): Span {
      if lo <= end.lo then Span(lo, end.lo) else Span(end.lo, lo)
    }
  }

  const DUMMY_SP: Span := Span(0, 0)

  datatype Token = Token(kind: TokenKind, span: Span)

  /** The placeholder both cursor slots hold before the first advance. */
  const DUMMY: Token := Token(Other("?"), DUMMY_SP)

  /** The synthetic end-of-input token; its span is dummy until the cursor anchors it. */
  const EOF: Token := Token(Eof, DUMMY_SP)

  function OpenText(d: Delimiter): string {
    match d
    case Parenthesis => "("
    case Brace => "{"
    case Bracket => "["
  }

  function CloseText(d: Delimiter): string {
    match d
    case Parenthesis => ")"
    case Brace => "}"
    case Bracket => "]"
  }

  /** The text a token kind is displayed with inside backquotes. */
  function Display(k: TokenKind): string {
    match k
    case Ident(s) => s
    case Comma => ","
    case Dot => "."
    case Colon => ":"
    case Semi => ";"
    case OpenDelim(d) => OpenText(d)
    case CloseDelim(d) => CloseText(d)
    case Eof => "<eof>"
    case Comment => "<comment>"
    case Other(t) => t
  }

  /** How a found token is described in "found ..." messages. */
  function FullDescription(k: TokenKind): string {
    match k
    case Ident(s) => "identifier `" + s + "`"
    case Eof => "end of file"
    case _ => "`" + Display(k) + "`"
  }

  /** The kinds of a token sequence, in order. */
  function Kinds(ts: seq<Token>): (ks: seq<TokenKind>)
    ensures |ks| == |ts|
    ensures forall i :: 0 <= i < |ts| ==> ks[i] == ts[i].kind
  {
    if ts == [] then [] else [ts[0].kind] + Kinds(ts[1..])
  }
}
