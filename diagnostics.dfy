/**
 * Diagnostics as structured values, and the parse session's external
 * services. Rendering and the diagnostic context's bookkeeping are not part
 * of this model: emitting or cancelling a diagnostic appends an event to a log.
 */
module Diagnostics {
  import opened Tokens

  /** A labelled sub-span of a diagnostic. */
  datatype Label = Label(span: Span, text: string)

  /** A child diagnostic; the engine only ever attaches help notes. */
  datatype SubDiag = Help(span: Span, msg: string)

  datatype Diag = Diag(msg: string, span: Span, labels: seq<Label>, children: seq<SubDiag>)

  /** Every diagnostic ends in exactly one of these two terminal actions. */
  datatype DiagEvent = Emitted(diag: Diag) | Cancelled(diag: Diag)

  /** The result of a parsing operation. */
  datatype PResult<+T> = Ok(value: T) | Err(err: Diag)

  /**
   * What the parse session provides from outside the engine: the source map's
   * multi-line test, and the keyword tables of the token and symbol crates.
   * `reserved(sym, inYul)` tells whether `sym` is a reserved word in the
   * current mode.
   */
  datatype Session = Session(
    multiline: Span -> bool,
    reserved: (Symbol, bool) -> bool,
    isLit: TokenKind -> bool,
    isStrLit: TokenKind -> bool,
    isElementaryType: TokenKind -> bool)
}
