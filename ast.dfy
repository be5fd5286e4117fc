/** The syntax-tree values the engine builds itself: identifiers and dotted paths. */
module Ast {
  import opened Tokens

  /** An identifier with the span it was read from. */
  datatype Ident = Ident(name: Symbol, span: Span)

  /** A dotted path `a.b.c`, one segment per identifier. */
  datatype Path = Path(segments: seq<Ident>)

  /** The names of a sequence of identifiers, in order. */
  function Names(ids: seq<Ident>): (r: seq<Symbol>)
    ensures |r| == |ids| && forall i :: 0 <= i < |ids| ==> r[i] == ids[i].name
  {
    if ids == [] then [] else [ids[0].name] + Names(ids[1..])
  }
}
