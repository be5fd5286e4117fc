/**
 * Identifiers and dotted paths: reserved words are reported and accepted
 * when recovering, a stray comma before an identifier is skipped with a
 * note, and a path is read as long as a dot follows.
 */
module IdentParser {
  import opened Wrappers
  import opened Tokens
  import opened Diagnostics
  import opened Cursor
  import opened Tracker
  import opened Expected
  import Ast

  /** The error for a token that is not an identifier, before any note is attached. */
  function NotIdentDiag(s: State): Diag {
    Diag("expected identifier, found " + FullDescription(s.token.kind), s.token.span, [], [])
  }

  /** The same error with the note that suggests deleting the current comma. */
  function RemoveCommaDiag(s: State): Diag {
    NotIdentDiag(s).(children := [Help(s.token.span, "remove this comma")])
  }

  /** A comma directly followed by an identifier: probably a stray comma. */
  predicate StrayComma(s: State) {
    s.token.kind == Comma && LookAhead(s, 1).kind.Ident?
  }

  /** The identifier the cursor stands on, read without advancing. */
  predicate StandsOn(s: State, id: Ast.Ident) {
    s.token.kind == Ident(id.name) && s.token.span == id.span
  }

  /** The identifier the cursor has just consumed. */
  predicate JustRead(s: State, id: Ast.Ident) {
    s.prev.kind == Ident(id.name) && s.prev.span == id.span
  }

  /**
   * Returns the current identifier without advancing; otherwise reports that
   * an identifier was expected, recovering from a stray comma when asked to.
   */
  function IdentOrErr(s: State, recover: bool): (r: (PResult<Ast.Ident>, State))
    ensures r.0.Ok? <==> s.token.kind.Ident? || (recover && StrayComma(s))
    ensures s.token.kind.Ident? ==> r == (Ok(Ast.Ident(s.token.kind.sym, s.token.span)), s)
    ensures r.0.Ok? ==> StandsOn(r.1, r.0.value)
    ensures r.0.Err? ==> r.1 == s && r.0.err == if StrayComma(s) then RemoveCommaDiag(s) else NotIdentDiag(s)
    ensures !recover ==> r.1 == s
    decreases if recover then 1 else 0, 1
  {
    if s.token.kind.Ident? then (Ok(Ast.Ident(s.token.kind.sym, s.token.span)), s)
    else ExpectedIdentFound(s, recover)
  }

  /**
   * Fails with "expected identifier" at the current token; before a stray
   * comma the error carries a note and, when recovering, the comma is
   * skipped, the error emitted, and the identifier after it returned (the
   * cursor then stands on it).
   */
  function ExpectedIdentFound(s: State, recover: bool): (r: (PResult<Ast.Ident>, State))
    ensures r.0.Ok? <==> recover && StrayComma(s)
    ensures r.0.Err? ==> r.1 == s && r.0.err == if StrayComma(s) then RemoveCommaDiag(s) else NotIdentDiag(s)
    ensures r.0.Ok? ==> r.1 == Emit(Bump(s), RemoveCommaDiag(s)) && StandsOn(Bump(s), r.0.value)
    decreases if recover then 1 else 0, 0
  {
    if StrayComma(s) then
      var err := RemoveCommaDiag(s);
      if recover then
        var s1 := Bump(s);
        var (retry, s2) := IdentOrErr(s1, false);
        (Ok(retry.value), Emit(s2, err))
      else (Err(err), s)
    else (Err(NotIdentDiag(s)), s)
  }

  /**
   * Parses an identifier that should not be a reserved word in the current
   * mode: with `recover` a reserved word is reported and accepted, without it
   * the reserved word is an error and nothing is consumed.
   */
  function ParseIdentCommon(s: State, recover: bool, sess: Session): (r: (PResult<Ast.Ident>, State))
    ensures r.0.Ok? <==>
      || (s.token.kind.Ident? && (recover || !sess.reserved(s.token.kind.sym, s.inYul)))
      || (recover && StrayComma(s))
    ensures r.0.Ok? ==> JustRead(r.1, r.0.value) && Measure(r.1) < Measure(s)
    ensures r.0.Err? ==> r.1 == s
    ensures !recover ==> r.1.log == s.log
  {
    var (ir, s1) := IdentOrErr(s, recover);
    match ir
    case Err(e) => (Err(e), s1)
    case Ok(id) =>
      if sess.reserved(id.name, s1.inYul) then
        var (found, s2) := ExpectedIdentFound(s1, false);
        if recover then (Ok(id), Bump(Emit(s2, found.err)))
        else (Err(found.err), s2)
      else (Ok(id), Bump(s1))
  }

  /** `parse_ident`: recovers from reserved words. */
  function ParseIdent(s: State, sess: Session): (PResult<Ast.Ident>, State) {
    ParseIdentCommon(s, true, sess)
  }

  /** Parses an identifier whether or not it is reserved. */
  function ParseIdentAny(s: State): (r: (PResult<Ast.Ident>, State))
    ensures r.0.Ok? <==> s.token.kind.Ident? || StrayComma(s)
    ensures r.0.Ok? ==> JustRead(r.1, r.0.value) && Measure(r.1) < Measure(s)
    ensures r.0.Err? ==> r.1 == s
  {
    var (ir, s1) := IdentOrErr(s, true);
    match ir
    case Err(e) => (Err(e), s1)
    case Ok(id) => (Ok(id), Bump(s1))
  }

  /** Parses an identifier if the current token is one, and otherwise nothing. */
  function ParseIdentOpt(s: State, sess: Session): (r: (PResult<Option<Ast.Ident>>, State))
    ensures !s.token.kind.Ident? ==> r == (Ok(None), s)
    ensures s.token.kind.Ident? ==>
      && r.0 == Ok(Some(Ast.Ident(s.token.kind.sym, s.token.span)))
      && r.1.prev == s.token && r.1.rest == Bump(s).rest
  {
    if s.token.kind.Ident? then
      var (res, s1) := ParseIdent(s, sess);
      match res
      case Ok(id) => (Ok(Some(id)), s1)
      case Err(e) => (Err(e), s1)
    else (Ok(None), s)
  }

  /** The identifier rule a path uses for the segments after the first. */
  datatype IdentRule = Plain | AnyIdent

  function ParseSegment(s: State, rule: IdentRule, sess: Session): (r: (PResult<Ast.Ident>, State))
    ensures r.0.Ok? ==> JustRead(r.1, r.0.value) && Measure(r.1) < Measure(s)
    ensures r.0.Err? ==> r.1 == s
    ensures s.token.kind.Ident? ==>
      r.0 == Ok(Ast.Ident(s.token.kind.sym, s.token.span)) && r.1.token == Bump(s).token && r.1.rest == Bump(s).rest
  {
    match rule
    case Plain => ParseIdent(s, sess)
    case AnyIdent => ParseIdentAny(s)
  }

  /**
   * Reads the path that begins with the identifier `first`: a single segment
   * when no dot follows, and otherwise one more segment per dot.
   */
  function ParsePathWithF(s: State, first: Ast.Ident, rule: IdentRule, sess: Session): (r: (PResult<Ast.Path>, State))
    ensures !s.token.kind.Dot? ==> r == (Ok(Ast.Path([first])), s)
    ensures r.0.Ok? ==> |r.0.value.segments| >= 1 && r.0.value.segments[0] == first
    ensures r.0.Ok? ==> r.1.token.kind != Dot
  {
    if !CheckNoexpect(s, Dot) then (Ok(Ast.Path([first])), s)
    else PathLoop(s, [first], rule, sess)
  }

  /**
   * The loop of `parse_path_with_f`: while a dot can be eaten, read one more
   * segment; a segment error ends the path with that error.
   */
  function PathLoop(s: State, path: seq<Ast.Ident>, rule: IdentRule, sess: Session): (r: (PResult<Ast.Path>, State))
    ensures r.0.Ok? ==> path <= r.0.value.segments && r.1.token.kind != Dot
    ensures r.0.Ok? && r.1.expected != [] ==> r.1.expected[|r.1.expected| - 1] == Exact(Dot)
    decreases Measure(s)
  {
    var (dot, s1) := Eat(s, Dot);
    if !dot then (Ok(Ast.Path(path)), s1)
    else
      var (seg, s2) := ParseSegment(s1, rule, sess);
      match seg
      case Err(e) => (Err(e), s2)
      case Ok(id) => PathLoop(s2, path + [id], rule, sess)
  }

  /** `parse_path`: an identifier, then the rest of the path. */
  function ParsePath(s: State, sess: Session): (PResult<Ast.Path>, State) {
    var (first, s1) := ParseIdent(s, sess);
    match first
    case Err(e) => (Err(e), s1)
    case Ok(id) => ParsePathWithF(s1, id, Plain, sess)
  }

  /** `parse_path_any`: the same with reserved words accepted everywhere. */
  function ParsePathAny(s: State, sess: Session): (PResult<Ast.Path>, State) {
    var (first, s1) := ParseIdentAny(s);
    match first
    case Err(e) => (Err(e), s1)
    case Ok(id) => ParsePathWithF(s1, id, AnyIdent, sess)
  }
}
