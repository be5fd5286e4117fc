/**
 * The expectation tracker and the "expected X, found Y" diagnostic builder:
 * probes that record what would have been accepted, and the operations that
 * consume an expected token or fail with a diagnostic built from that record.
 */
module Tracker {
  import opened Wrappers
  import opened Tokens
  import opened Text
  import opened Expected
  import opened Diagnostics
  import opened OrLists
  import opened Cursor

  /** `r` is `s` with `added` appended to the expectations and nothing else changed. */
  predicate OnlyExpects(s: State, r: State, added: seq<ExpectedToken>) {
    r == s.(expected := s.expected + added)
  }

  /** Tests the current token's kind; reads state only. */
  function CheckNoexpect(s: State, tok: TokenKind): (r: bool)
    ensures r <==> s.token.kind == tok
  {
    s.token.kind == tok
  }

  /** Tests the current token's kind without advancing, recording `tok` when it is absent. */
  function Check(s: State, tok: TokenKind): (r: (bool, State))
    ensures r.0 <==> s.token.kind == tok
    ensures OnlyExpects(s, r.1, if r.0 then [] else [Exact(tok)])
  {
    var isPresent := CheckNoexpect(s, tok);
    if !isPresent then (isPresent, s.(expected := s.expected + [Exact(tok)]))
    else (isPresent, s)
  }

  /** Consumes `tok` if it is the current token, without recording an expectation. */
  function EatNoexpect(s: State, tok: TokenKind): (r: (bool, State))
    ensures r.0 <==> s.token.kind == tok
    ensures r.1 == if r.0 then Bump(s) else s
  {
    var isPresent := CheckNoexpect(s, tok);
    if isPresent then (isPresent, Bump(s)) else (isPresent, s)
  }

  /** Consumes `tok` if it is the current token; otherwise records it. */
  function Eat(s: State, tok: TokenKind): (r: (bool, State))
    ensures r.0 <==> Check(s, tok).0
    ensures r.0 ==> r.1 == Bump(s) && r.1.expected == []
    ensures !r.0 ==> r.1 == Check(s, tok).1
  {
    var (isPresent, s1) := Check(s, tok);
    if isPresent then (isPresent, Bump(s1)) else (isPresent, s1)
  }

  /** Tests for keyword `kw`, recording it whether or not it is there. */
  function CheckKeyword(s: State, kw: Symbol): (r: (bool, State))
    ensures r.0 <==> s.token.kind == Ident(kw)
    ensures OnlyExpects(s, r.1, [Keyword(kw)])
  {
    var s1 := s.(expected := s.expected + [Keyword(kw)]);
    (s1.token.kind == Ident(kw), s1)
  }

  /** Consumes keyword `kw` if it is the current token. */
  function EatKeyword(s: State, kw: Symbol): (r: (bool, State))
    ensures r.0 <==> s.token.kind == Ident(kw)
    ensures r.0 ==> r.1 == Bump(s)
    ensures !r.0 ==> OnlyExpects(s, r.1, [Keyword(kw)])
  {
    var (present, s1) := CheckKeyword(s, kw);
    if present then (true, Bump(s1)) else (false, s1)
  }

  /** Tests a category predicate `ok`, recording the category `t` when it fails. */
  function CheckOrExpected(s: State, ok: bool, t: ExpectedToken): (r: (bool, State))
    ensures r.0 == ok
    ensures OnlyExpects(s, r.1, if ok then [] else [t])
  {
    if !ok then (ok, s.(expected := s.expected + [t])) else (ok, s)
  }

  function CheckIdent(s: State): (bool, State) {
    CheckOrExpected(s, s.token.kind.Ident?, IdentName)
  }

  /** An identifier that is not reserved in the current mode. */
  function CheckAnyIdent(s: State, sess: Session): (bool, State) {
    CheckOrExpected(s, s.token.kind.Ident? && !sess.reserved(s.token.kind.sym, s.inYul), IdentName)
  }

  function CheckPath(s: State): (bool, State) {
    CheckOrExpected(s, s.token.kind.Ident?, PathName)
  }

  function CheckLit(s: State, sess: Session): (bool, State) {
    CheckOrExpected(s, sess.isLit(s.token.kind), Lit)
  }

  function CheckStrLit(s: State, sess: Session): (bool, State) {
    CheckOrExpected(s, sess.isStrLit(s.token.kind), StrLit)
  }

  function CheckElementaryType(s: State, sess: Session): (bool, State) {
    CheckOrExpected(s, sess.isElementaryType(s.token.kind), ElementaryType)
  }

  /** Checks the kets in order and stops at the first that matches; the misses are recorded. */
  function ExpectAny(s: State, kets: seq<TokenKind>): (r: (bool, State))
    ensures r.0 <==> s.token.kind in kets
    ensures r.1 == s.(expected := r.1.expected)
    ensures !r.0 ==> r.1.expected == s.expected + Exacts(kets)
    ensures r.0 ==> exists i :: 0 <= i < |kets| && kets[i] == s.token.kind && s.token.kind !in kets[..i]
                                && r.1.expected == s.expected + Exacts(kets[..i])
    decreases |kets|
  {
    if kets == [] then (false, s)
    else
      var (present, s1) := Check(s, kets[0]);
      if present then
        assert kets[..0] == [] && Exacts([]) == [];
        (true, s1)
      else
        var r := ExpectAny(s1, kets[1..]);
        InCons(s.token.kind, kets);
        ExactsAppend(s.expected, kets);
        if r.0 then
          var j :| 0 <= j < |kets[1..]| && kets[1..][j] == s.token.kind && s.token.kind !in kets[1..][..j]
                   && r.1.expected == s1.expected + Exacts(kets[1..][..j]);
          MissesShift(s.token.kind, kets, j);
          ExactsPrefix(s.expected, kets, j);
          r
        else r
  }

  /** The kets before position `j + 1` are the head and the tail's first `j`. */
  lemma MissesShift(k: TokenKind, kets: seq<TokenKind>, j: nat)
    requires j < |kets| - 1 && k != kets[0] && k !in kets[1..][..j]
    ensures kets[j + 1] == kets[1..][j] && k !in kets[..j + 1]
  {
    assert kets[..j + 1] == [kets[0]] + kets[1..][..j];
  }

  lemma ExactsPrefix(e: seq<ExpectedToken>, kets: seq<TokenKind>, j: nat)
    requires j < |kets| - 1
    ensures e + [Exact(kets[0])] + Exacts(kets[1..][..j]) == e + Exacts(kets[..j + 1])
  {
    var p := kets[..j + 1];
    assert p[0] == kets[0] && p[1..] == kets[1..][..j];
    assert Exacts(p) == [Exact(p[0])] + Exacts(p[1..]);
  }

  lemma InCons(k: TokenKind, kets: seq<TokenKind>)
    requires kets != []
    ensures k in kets <==> k == kets[0] || k in kets[1..]
  {
    assert kets == [kets[0]] + kets[1..];
  }

  lemma ExactsAppend(e: seq<ExpectedToken>, kets: seq<TokenKind>)
    requires kets != []
    ensures e + [Exact(kets[0])] + Exacts(kets[1..]) == e + Exacts(kets)
  {
    assert Exacts(kets) == [Exact(kets[0])] + Exacts(kets[1..]);
  }

  /**
   * Where `expect(t)` says the missing token belonged: the found token after
   * a dummy previous span, the previous token at end of input, otherwise
   * just past the previous token.
   */
  function ExpectAnchor(s: State): Span {
    if s.prev.span.IsDummy() then s.token.span
    else if s.token.kind == Eof then s.prev.span
    else s.prev.span.ShrinkToHi()
  }

  /**
   * The diagnostic for an unexpected token when `expect(t)` had nothing else
   * recorded: "expected `t`, found ..." at the found token, labelled either
   * there alone or also at the position the expectation refers to.
   */
  function UnexpectedWithDiag(s: State, t: TokenKind, sess: Session): (d: Diag)
    ensures d.span == s.token.span && d.children == []
    ensures d.msg == "expected `" + Display(t) + "`, found " + FullDescription(s.token.kind)
    ensures 1 <= |d.labels| <= 2 && d.labels[0].text == "expected `" + Display(t) + "`"
    ensures d.labels[|d.labels| - 1].span == s.token.span
    ensures |d.labels| == 1 <==> !sess.multiline(ExpectAnchor(s).Until(s.token.span))
    ensures |d.labels| == 2 ==>
      d.labels[0].span == ExpectAnchor(s) && d.labels[1] == Label(s.token.span, "unexpected token")
  {
    var prevSpan := ExpectAnchor(s);
    var span := s.token.span;
    var thisTokenStr := FullDescription(s.token.kind);
    var labelExp := "expected `" + Display(t) + "`";
    var msg := labelExp + ", found " + thisTokenStr;
    var labels :=
      if !sess.multiline(prevSpan.Until(span)) then [Label(span, labelExp)]
      else [Label(prevSpan, labelExp), Label(span, "unexpected token")];
    Diag(msg, span, labels, [])
  }

  /** The message of a "not found" diagnostic, chosen by how many expectations remain. */
  function NotFoundMessage(expected: seq<ExpectedToken>, actual: string): string {
    var expectText := OrListText(Renders(expected));
    if |expected| == 0 then "unexpected token: " + actual
    else if |expected| == 1 then "expected " + expectText + ", found " + actual
    else "expected one of " + expectText + ", found " + actual
  }

  /** The text of its primary label; long lists are summarised by their length. */
  function NotFoundLabel(expected: seq<ExpectedToken>): string {
    var expectText := OrListText(Renders(expected));
    var len := |expected|;
    if len == 0 then "unexpected token after this"
    else if len == 1 then "expected " + expectText
    else "expected one of " + if len > 6 then NatText(len) + " possible tokens" else expectText
  }

  /**
   * Where the "not found" label points when it is apart from the found
   * token: the previous token at end of input or with nothing expected,
   * otherwise just past it.
   */
  function NotFoundAnchor(s: State, count: nat): Span {
    if s.token.kind == Eof then s.prev.span
    else if count == 0 then s.prev.span
    else s.prev.span.ShrinkToHi()
  }

  /**
   * The diagnostic built when neither an edible nor an inedible token was
   * found: it points at the found token, its message and first label say
   * what the expectation list says, and a second label, if any, marks the
   * found token as unexpected.
   */
  function NotFoundDiag(s: State, edible: seq<TokenKind>, inedible: seq<TokenKind>, sess: Session): (d: Diag)
    ensures var expected := ExpectedList(s.token.kind, edible, inedible, s.expected);
      && d.span == s.token.span
      && d.msg == NotFoundMessage(expected, FullDescription(s.token.kind))
      && 1 <= |d.labels| <= 2 && d.labels[0].text == NotFoundLabel(expected)
      && d.labels[|d.labels| - 1].span == s.token.span
      && d.children == []
    ensures var expected := ExpectedList(s.token.kind, edible, inedible, s.expected);
      var labelSpan := NotFoundAnchor(s, |expected|);
      && (|d.labels| == 1 <==>
            s.prev.span.IsDummy() || !sess.multiline(s.token.span.ShrinkToHi().Until(labelSpan.ShrinkToLo())))
      && (|d.labels| == 2 ==>
            d.labels[0].span == labelSpan && d.labels[1] == Label(s.token.span, "unexpected token"))
  {
    var expected := ExpectedList(s.token.kind, edible, inedible, s.expected);
    var msgExp := NotFoundMessage(expected, FullDescription(s.token.kind));
    var labelExp := NotFoundLabel(expected);
    var labelSpan := NotFoundAnchor(s, |expected|);
    var labels :=
      if s.prev.span.IsDummy() || !sess.multiline(s.token.span.ShrinkToHi().Until(labelSpan.ShrinkToLo()))
      then [Label(s.token.span, labelExp)]
      else [Label(labelSpan, labelExp), Label(s.token.span, "unexpected token")];
    Diag(msgExp, s.token.span, labels, [])
  }

  /**
   * The message classifies by the number of remaining expectations: none
   * gives "unexpected token", one gives "expected X, found Y", more give
   * "expected one of ...", and more than six are summarised in the label.
   */
  lemma NotFoundByCount(expected: seq<ExpectedToken>, actual: string)
    ensures |expected| == 0 ==> NotFoundMessage(expected, actual) == "unexpected token: " + actual
    ensures |expected| == 1 ==> NotFoundMessage(expected, actual) == "expected " + Render(expected[0]) + ", found " + actual
    ensures |expected| >= 2 ==>
      NotFoundMessage(expected, actual) == "expected one of " + OrListText(Renders(expected)) + ", found " + actual
  {
    if |expected| == 1 {
      assert Renders(expected) == [Render(expected[0])];
      assert OrListText(Renders(expected)) == Render(expected[0]);
    }
  }

  /** Past six expectations the label gives their number instead of the list. */
  lemma NotFoundLabelSummarises(expected: seq<ExpectedToken>)
    ensures |expected| > 6 ==> NotFoundLabel(expected) == "expected one of " + NatText(|expected|) + " possible tokens"
    ensures 2 <= |expected| <= 6 ==> NotFoundLabel(expected) == "expected one of " + OrListText(Renders(expected))
  {
    var len := |expected|;
    if len >= 2 {
      var tail := if len > 6 then NatText(len) + " possible tokens" else OrListText(Renders(expected));
      assert NotFoundLabel(expected) == "expected one of " + tail;
    }
  }

  /** A text occurring in the middle part of a concatenation occurs in the whole, shifted by the first part. */
  lemma OccursInside(head: string, mid: string, tail: string, needle: string, p: nat)
    requires OccursAt(mid, needle, p)
    ensures OccursAt(head + mid + tail, needle, |head| + p)
  {
    var whole := head + mid + tail;
    assert whole[|head| + p..|head| + p + |needle|] == mid[p..p + |needle|];
  }

  /** Every remaining expectation is spelled out in the message. */
  lemma MessageMentionsEachExpectation(expected: seq<ExpectedToken>, actual: string, i: nat)
    requires i < |expected|
    ensures exists p :: OccursAt(NotFoundMessage(expected, actual), Render(expected[i]), p)
  {
    var items := Renders(expected);
    OrListMentionsAll(items, i);
    var p: nat :| OccursAt(OrListText(items), items[i], p);
    var head := if |expected| == 1 then "expected " else "expected one of ";
    assert NotFoundMessage(expected, actual) == head + OrListText(items) + (", found " + actual);
    OccursInside(head, OrListText(items), ", found " + actual, items[i], p);
  }

  /**
   * At end of input reached by advancing (the end token carries the last
   * token's span), every label of the "not found" diagnostic points at the
   * previous token rather than past the end of the file.
   */
  lemma NotFoundAtEofAnchorsOnPrevious(s: State, edible: seq<TokenKind>, inedible: seq<TokenKind>, sess: Session)
    requires s.token.kind == Eof && s.token.span == s.prev.span
    ensures forall l :: l in NotFoundDiag(s, edible, inedible, sess).labels ==> l.span == s.prev.span
  {
    var expected := ExpectedList(s.token.kind, edible, inedible, s.expected);
    var labelExp := NotFoundLabel(expected);
    var labels := NotFoundDiag(s, edible, inedible, sess).labels;
    assert labels == [Label(s.token.span, labelExp)]
        || labels == [Label(s.prev.span, labelExp), Label(s.token.span, "unexpected token")];
  }

  /** The same holds of the diagnostic of `expect` with nothing else recorded. */
  lemma UnexpectedAtEofAnchorsOnPrevious(s: State, t: TokenKind, sess: Session)
    requires s.token.kind == Eof && s.token.span == s.prev.span
    ensures forall l :: l in UnexpectedWithDiag(s, t, sess).labels ==> l.span == s.prev.span
  {
  }

  /** Advancing past the last token gives a state where end of input is anchored that way. */
  lemma BumpToEofAnchorsOnPrevious(s: State)
    requires s.rest == []
    ensures Bump(s).token.kind == Eof && Bump(s).token.span == Bump(s).prev.span
  {
  }

  /** Reporting at this token would not repeat an earlier report (the source panics if it would). */
  predicate CanReport(s: State, accepted: seq<TokenKind>) {
    s.token.kind in accepted || Fresh(s)
  }

  /** Fails with the "not found" diagnostic and remembers where it was reported. */
  function ExpectedOneOfNotFound(s: State, edible: seq<TokenKind>, inedible: seq<TokenKind>,
                                 sess: Session): (r: (PResult<bool>, State))
    ensures r.0 == Err(NotFoundDiag(s, edible, inedible, sess))
    ensures r.1 == s.(lastUnexpected := Some(s.token.span))
  {
    (Err(NotFoundDiag(s, edible, inedible, sess)), s.(lastUnexpected := Some(s.token.span)))
  }

  /**
   * Consumes an edible token, accepts an inedible one in place, and fails
   * otherwise without moving. It never reports a recovery.
   */
  function ExpectOneOf(s: State, edible: seq<TokenKind>, inedible: seq<TokenKind>,
                       sess: Session): (r: (PResult<bool>, State))
    requires CanReport(s, edible + inedible)
    ensures r.0 != Ok(true)
    ensures r.0 == Ok(false) <==> s.token.kind in edible || s.token.kind in inedible
    ensures s.token.kind in edible ==> r.1 == Bump(s)
    ensures s.token.kind !in edible && s.token.kind in inedible ==> r.1 == s
    ensures r.0.Err? ==> r.0.err == NotFoundDiag(s, edible, inedible, sess)
    ensures r.0.Err? ==> r.1 == s.(lastUnexpected := Some(s.token.span))
  {
    if s.token.kind in edible then (Ok(false), Bump(s))
    else if s.token.kind in inedible then (Ok(false), s)
    else ExpectedOneOfNotFound(s, edible, inedible, sess)
  }

  /**
   * Consumes `tok` or fails without moving; it never reports a recovery.
   * With nothing recorded the failure is the plain "expected `tok`" error and
   * nothing is remembered; otherwise it is the "not found" diagnostic over
   * `tok` and the recorded expectations, and its position is remembered.
   */
  function Expect(s: State, tok: TokenKind, sess: Session): (r: (PResult<bool>, State))
    requires s.expected == [] || CanReport(s, [tok])
    ensures r.0 != Ok(true)
    ensures r.0.Ok? <==> s.token.kind == tok
    ensures r.0.Ok? ==> r.1 == Bump(s)
    ensures r.0.Err? && s.expected == [] ==> r == (Err(UnexpectedWithDiag(s, tok, sess)), s)
    ensures r.0.Err? && s.expected != [] ==>
      r == (Err(NotFoundDiag(s, [tok], [], sess)), s.(lastUnexpected := Some(s.token.span)))
  {
    if s.expected == [] then
      if CheckNoexpect(s, tok) then (Ok(false), Bump(s))
      else (Err(UnexpectedWithDiag(s, tok, sess)), s)
    else ExpectOneOf(s, [tok], [], sess)
  }

  /** `expect(Semi)` with the result mapped to unit. */
  function ExpectSemi(s: State, sess: Session): (r: (PResult<()>, State))
    requires s.expected == [] || CanReport(s, [Semi])
    ensures r.0.Ok? <==> s.token.kind == Semi
    ensures r.0.Err? ==> r.0.err == Expect(s, Semi, sess).0.err
    ensures r.1 == Expect(s, Semi, sess).1
  {
    var (res, s1) := Expect(s, Semi, sess);
    if res.Ok? then (Ok(()), s1) else (Err(res.err), s1)
  }

  /** The "unexpected token" error for the current token, expecting nothing explicitly. */
  function UnexpectedError(s: State, sess: Session): (r: (Diag, State))
    requires Fresh(s)
    ensures r.0 == NotFoundDiag(s, [], [], sess)
    ensures r.1 == s.(lastUnexpected := Some(s.token.span))
  {
    var (res, s1) := ExpectOneOf(s, [], [], sess);
    (res.err, s1)
  }

  /**
   * Consumes keyword `kw` or fails with an "unexpected token" error that
   * lists it: the keyword is recorded and the position remembered.
   */
  function ExpectKeyword(s: State, kw: Symbol, sess: Session): (r: (PResult<()>, State))
    requires s.token.kind == Ident(kw) || Fresh(s)
    ensures r.0.Ok? <==> s.token.kind == Ident(kw)
    ensures r.0.Ok? ==> r.1 == Bump(s)
    ensures r.0.Err? ==> var s1 := s.(expected := s.expected + [Keyword(kw)]);
      r == (Err(NotFoundDiag(s1, [], [], sess)), s1.(lastUnexpected := Some(s.token.span)))
  {
    var (ate, s1) := EatKeyword(s, kw);
    if !ate then
      var (d, s2) := UnexpectedError(s1, sess);
      (Err(d), s2)
    else (Ok(()), s1)
  }

  /** The failure of `ExpectKeyword` names the keyword among the expectations it lists. */
  lemma KeywordErrorListsKeyword(s: State, kw: Symbol, sess: Session)
    requires s.token.kind != Ident(kw) && Fresh(s)
    ensures var r := ExpectKeyword(s, kw, sess);
      r.0.Err? && Keyword(kw) in ExpectedList(s.token.kind, [], [], s.expected + [Keyword(kw)])
  {
  }
}
