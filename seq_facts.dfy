/**
 * How the sequence parser behaves: one step at a time (the first element,
 * a separator, a missing separator, a trailing separator, a failing
 * element), and on comma-separated lists of names: well formed, bare or in
 * parentheses, and in parentheses with a missing or a trailing comma.
 */
module SeqFacts {
  import opened Wrappers
  import opened Tokens
  import opened Expected
  import opened Diagnostics
  import opened Cursor
  import opened Tracker
  import opened SeqParser

  /** The current token followed by the ones not yet taken from the stream. */
  function Stream(s: State): seq<Token> {
    [s.token] + s.rest
  }

  /** The kinds of `ts` begin with `tail`. */
  predicate Starts(ts: seq<Token>, tail: seq<TokenKind>) {
    |tail| <= |ts| && forall i :: 0 <= i < |tail| ==> ts[i].kind == tail[i]
  }

  /** `ts` begins with `, y0 , y1 ...` and then with `tail`. */
  predicate CommaNamesThen(ts: seq<Token>, ys: seq<Symbol>, tail: seq<TokenKind>)
    decreases |ys|
  {
    if ys == [] then Starts(ts, tail)
    else |ts| >= 2 && ts[0].kind == Comma && ts[1].kind == Ident(ys[0]) && CommaNamesThen(ts[2..], ys[1..], tail)
  }

  /** Advancing over a token with a real span shifts the stream by one. */
  lemma StreamBump(s: State)
    requires WF(s) && s.rest != []
    ensures Stream(Bump(s)) == Stream(s)[1..]
  {
    assert Bump(s).token == s.rest[0];
    assert [s.rest[0]] + s.rest[1..] == s.rest;
  }

  /** Advancing twice shifts the stream by two. */
  lemma StreamBumpTwice(s: State)
    requires WF(s) && |s.rest| >= 2
    ensures Stream(Bump(Bump(s))) == Stream(s)[2..]
  {
    BumpKeepsWF(s);
    StreamBump(s);
    StreamBump(Bump(s));
  }

  /** Advancing does not depend on the recorded expectations. */
  lemma BumpIgnoresExpected(s: State, e: seq<ExpectedToken>)
    ensures Bump(s.(expected := e)) == Bump(s)
  {
  }

  /** An element parser that accepts one name, and fails without consuming anything else. */
  function NameElem(tok: Token, rest: seq<Token>): (e: Elem<Symbol>)
    ensures e.Parsed? <==> tok.kind.Ident?
    ensures e.Parsed? ==> e.value == tok.kind.sym && e.Used() == 1
    ensures e.Failed? ==> e.Used() == 0 && e.err.span == tok.span
  {
    if tok.kind.Ident? then Parsed(tok.kind.sym, 1)
    else Failed(Diag("expected identifier, found " + FullDescription(tok.kind), tok.span, [], []), 0)
  }

  /** Terminators that are neither names nor commas. */
  predicate PlainKets(kets: seq<TokenKind>) {
    forall k :: k in kets ==> !k.Ident? && k != Comma
  }

  /** At a name that is not a terminator the element is parsed and the loop resumes after it. */
  lemma ParseOneName(s: State, kets: seq<TokenKind>, sep: SeqSep, sess: Session, v: seq<Symbol>)
    requires WF(s) && s.token.kind.Ident? && PlainKets(kets)
    ensures WF(Bump(s)) && Fresh(Bump(s))
    ensures ElemStep(s, kets, sep, NameElem, sess, false, v)
         == SeqLoop(Bump(s), kets, sep, NameElem, sess, false, v + [s.token.kind.sym])
  {
    BumpKeepsWF(s);
    var (trailing, s1) := if sep.trailingSepAllowed then ExpectAny(s, kets) else (false, s);
    assert !trailing;
    BumpIgnoresExpected(s, s1.expected);
    assert s1 == s.(expected := s1.expected);
    assert RunElem(s1, NameElem).1 == BumpN(s1, 1) == Bump(s1) == Bump(s);
  }

  /** A `, name` pair is consumed and the name kept, with no diagnostic. */
  lemma CommaNamePair(s: State, kets: seq<TokenKind>, sep: SeqSep, sess: Session,
                      ys: seq<Symbol>, v: seq<Symbol>, tail: seq<TokenKind>)
    requires WF(s) && Fresh(s)
    requires sep.sep == Some(Comma) && PlainKets(kets)
    requires ys != [] && tail != [] && CommaNamesThen(Stream(s), ys, tail)
    ensures WF(Bump(Bump(s))) && Fresh(Bump(Bump(s)))
    ensures CommaNamesThen(Stream(Bump(Bump(s))), ys[1..], tail) && Bump(Bump(s)).log == s.log
    ensures SeqLoop(s, kets, sep, NameElem, sess, false, v)
         == SeqLoop(Bump(Bump(s)), kets, sep, NameElem, sess, false, v + [ys[0]])
  {
    var ts := Stream(s);
    assert |ts[2..]| >= 1 by {
      if ys[1..] == [] {
        assert Starts(ts[2..], tail);
      }
    }
    StreamBump(s);
    var b1 := Bump(s);
    BumpKeepsWF(s);
    StreamBump(b1);
    assert Stream(Bump(b1)) == ts[2..];
    var s1 := ExpectAny(s, kets).1;
    assert SeqLoop(s, kets, sep, NameElem, sess, false, v) == SepStep(s1, kets, sep, NameElem, sess, false, v);
    BumpIgnoresExpected(s, s1.expected);
    assert Expect(s1, Comma, sess) == (Ok(false), b1);
    assert SepStep(s1, kets, sep, NameElem, sess, false, v) == ElemStep(b1, kets, sep, NameElem, sess, false, v);
    assert b1.token.kind == Ident(ys[0]);
    ParseOneName(b1, kets, sep, sess, v);
  }

  /**
   * At a terminator, any closing delimiter or the end of input the loop
   * stops: it consumes nothing, emits nothing and returns what it has.
   */
  lemma LoopStops<T>(s: State, kets: seq<TokenKind>, sep: SeqSep, f: ElemParser<T>, sess: Session,
                     first: bool, v: seq<T>)
    requires WF(s) && (first || Fresh(s))
    requires s.token.kind in kets || s.token.kind.CloseDelim? || s.token.kind == Eof
    ensures var (res, t) := SeqLoop(s, kets, sep, f, sess, first, v);
      res == Ok(SeqResult(v, false, false)) && t == s.(expected := t.expected)
  {
  }

  /** Appending the head of `ys` and then its tail appends `ys`. */
  lemma AppendHead<T>(v: seq<T>, ys: seq<T>)
    requires ys != []
    ensures v + [ys[0]] + ys[1..] == v + ys
  {
    assert ys == [ys[0]] + ys[1..];
  }

  /** Appending one element to the empty sequence and then `ys`. */
  lemma AppendToEmpty<T>(x: T, ys: seq<T>)
    ensures [] + [x] + ys == [x] + ys
  {
    assert [] + [x] == [x];
  }

  /** From a `, name` pair onwards, the pairs are consumed, the names kept, and the loop stops before `ket`. */
  lemma {:induction false} CommaNamesLoop(s: State, kets: seq<TokenKind>, sep: SeqSep, sess: Session,
                                          ys: seq<Symbol>, v: seq<Symbol>, ket: TokenKind)
    requires WF(s) && Fresh(s)
    requires sep.sep == Some(Comma) && PlainKets(kets) && ket in kets
    requires CommaNamesThen(Stream(s), ys, [ket])
    ensures var (res, t) := SeqLoop(s, kets, sep, NameElem, sess, false, v);
      res == Ok(SeqResult(v + ys, false, false)) && t.token.kind == ket && t.log == s.log
    decreases |ys|
  {
    if ys == [] {
      assert Stream(s)[0] == s.token;
      LoopStops(s, kets, sep, NameElem, sess, false, v);
      assert v + ys == v;
    } else {
      CommaNamePair(s, kets, sep, sess, ys, v, [ket]);
      CommaNamesLoop(Bump(Bump(s)), kets, sep, sess, ys[1..], v + [ys[0]], ket);
      AppendHead(v, ys);
    }
  }

  /**
   * `x , y0 , y1 ... ket` with a comma separator parses to the names in
   * order, stops before the terminator and emits nothing.
   */
  lemma CommaListParses(s: State, kets: seq<TokenKind>, sep: SeqSep, sess: Session,
                        x: Symbol, ys: seq<Symbol>, ket: TokenKind)
    requires WF(s) && sep.sep == Some(Comma) && PlainKets(kets) && ket in kets
    requires s.token.kind == Ident(x) && CommaNamesThen(s.rest, ys, [ket])
    ensures var (res, t) := SeqToBeforeTokens(s, kets, sep, NameElem, sess);
      res == Ok(SeqResult([x] + ys, false, false)) && t.token.kind == ket && t.log == s.log
  {
    var s1 := ExpectAny(s, kets).1;
    assert SeqToBeforeTokens(s, kets, sep, NameElem, sess) == SepStep(s1, kets, sep, NameElem, sess, true, []);
    assert SepStep(s1, kets, sep, NameElem, sess, true, []) == ElemStep(s1, kets, sep, NameElem, sess, false, []);
    ParseOneName(s1, kets, sep, sess, []);
    var b1 := Bump(s1);
    BumpIgnoresExpected(s, s1.expected);
    assert s.rest != [] by {
      if ys == [] {
        assert Starts(s.rest, [ket]);
      }
    }
    StreamBump(s);
    assert Stream(b1) == s.rest;
    CommaNamesLoop(b1, kets, sep, sess, ys, [] + [x], ket);
    AppendToEmpty(x, ys);
  }

  /** Before the first element no separator is looked for: the element is tried where the loop stands. */
  lemma FirstElementHasNoSeparator<T>(s: State, kets: seq<TokenKind>, sep: SeqSep, f: ElemParser<T>,
                                      sess: Session, v: seq<T>)
    requires WF(s) && s.token.kind != Eof && s.token.kind !in kets
    ensures SepStep(s, kets, sep, f, sess, true, v) == ElemStep(s, kets, sep, f, sess, sep.sep.None?, v)
  {
  }

  /** A missing separator is a hard error when a trailing separator is required; nothing moves. */
  lemma MissingRequiredSeparatorFails<T>(s: State, kets: seq<TokenKind>, sep: SeqSep, f: ElemParser<T>,
                                         sess: Session, v: seq<T>)
    requires WF(s) && Fresh(s) && s.token.kind != Eof && s.token.kind !in kets
    requires sep.sep.Some? && sep.trailingSepRequired && s.token.kind != sep.sep.value
    ensures var (res, t) := SepStep(s, kets, sep, f, sess, false, v);
      && res.Err? && res.err == Expect(s, sep.sep.value, sess).0.err
      && t.token == s.token && t.rest == s.rest && t.log == s.log
  {
  }

  /**
   * Otherwise a missing separator leaves the cursor where it is and the
   * element is tried in its place.
   */
  lemma MissingSeparatorTriesElement<T>(s: State, kets: seq<TokenKind>, sep: SeqSep, f: ElemParser<T>,
                                        sess: Session, v: seq<T>)
    requires WF(s) && Fresh(s) && s.token.kind != Eof && s.token.kind !in kets
    requires sep.sep.Some? && !sep.trailingSepRequired && s.token.kind != sep.sep.value
    ensures var (res, s1) := Expect(s, sep.sep.value, sess);
      && res.Err? && WF(s1) && s1.token == s.token && s1.rest == s.rest && s1.log == s.log
      && SepStep(s, kets, sep, f, sess, false, v) == MissingSepStep(s1, res.err, sep.sep.value, kets, sep, f, sess, v)
  {
    ReportKeepsWF(s);
  }

  /**
   * When the element parses in place of the missing separator, the
   * separator error is emitted with a "missing" help note right after the
   * element, and the element is kept.
   */
  lemma MissingSeparatorKeepsElement<T>(s: State, expectErr: Diag, tk: TokenKind, kets: seq<TokenKind>,
                                        sep: SeqSep, f: ElemParser<T>, sess: Session, v: seq<T>)
    requires WF(s) && s.token.kind != Eof && f(s.token, s.rest).Parsed?
    ensures var (res, t) := MissingSepStep(s, expectErr, tk, kets, sep, f, sess, v);
      var help := Help(s.prev.span.ShrinkToHi(), "missing `" + Display(tk) + "`");
      && s.log + [Emitted(expectErr.(children := expectErr.children + [help]))] <= t.log
      && (res.Ok? ==> v + [f(s.token, s.rest).value] <= res.value.items)
  {
  }

  /**
   * When the element fails too, its error is cancelled and its notes move to
   * the separator error, which is returned before a colon or in a
   * parenthesised list and emitted otherwise, ending the loop with what it
   * had.
   */
  lemma MissingSeparatorGivesUp<T>(s: State, expectErr: Diag, tk: TokenKind, kets: seq<TokenKind>,
                                   sep: SeqSep, f: ElemParser<T>, sess: Session, v: seq<T>)
    requires WF(s) && s.token.kind != Eof && f(s.token, s.rest).Failed?
    ensures var e := f(s.token, s.rest);
      var combined := expectErr.(children := expectErr.children + e.err.children);
      var stop := BumpN(s, e.spent);
      var (res, t) := MissingSepStep(s, expectErr, tk, kets, sep, f, sess, v);
      && t.token == stop.token && t.rest == stop.rest
      && (stop.token.kind == Colon || kets == [CloseDelim(Parenthesis)] ==>
            res == Err(combined) && t.log == s.log + [Cancelled(e.err)])
      && (stop.token.kind != Colon && kets != [CloseDelim(Parenthesis)] ==>
            res == Ok(SeqResult(v, false, false)) && t.log == s.log + [Cancelled(e.err), Emitted(combined)])
  {
  }

  /** A terminator right after a separator ends the loop with `trailing` set, when that is allowed. */
  lemma TrailingSeparatorStops<T>(s: State, kets: seq<TokenKind>, sep: SeqSep, f: ElemParser<T>,
                                  sess: Session, first: bool, v: seq<T>)
    requires WF(s) && sep.sep.Some? && s.prev.kind == sep.sep.value
    requires sep.trailingSepAllowed && s.token.kind in kets
    ensures var (res, t) := ElemStep(s, kets, sep, f, sess, first, v);
      res == Ok(SeqResult(v, true, false)) && t.token == s.token && t.rest == s.rest && t.log == s.log
  {
  }

  /**
   * An element error ends the loop with that error, including at a
   * terminator after a separator when a trailing separator is not allowed.
   */
  lemma ElementErrorPropagates<T>(s: State, kets: seq<TokenKind>, sep: SeqSep, f: ElemParser<T>,
                                  sess: Session, first: bool, v: seq<T>)
    requires WF(s) && f(s.token, s.rest).Failed?
    requires s.token.kind !in kets || (sep.sep.Some? && s.prev.kind == sep.sep.value)
    requires s.token.kind !in kets || !sep.trailingSepAllowed
    ensures var (res, t) := ElemStep(s, kets, sep, f, sess, first, v);
      res == Err(f(s.token, s.rest).err) && t.log == s.log
  {
  }

  /** `parse_seq_to_end` never sees a recovery, so it always tries to eat the terminator. */
  lemma SeqToEndEatsTerminator<T>(s: State, ket: TokenKind, sep: SeqSep, f: ElemParser<T>, sess: Session)
    requires WF(s)
    ensures var (res, t) := SeqToBeforeEnd(s, ket, sep, f, sess);
      res.Ok? ==> SeqToEnd(s, ket, sep, f, sess) == (Ok((res.value.items, res.value.trailing)), Eat(t, ket).1)
  {
  }

  /** `parse_unspanned_seq` fails without moving unless the opening token is there, which it consumes. */
  lemma UnspannedSeqNeedsOpening<T>(s: State, bra: TokenKind, ket: TokenKind, sep: SeqSep, f: ElemParser<T>,
                                    sess: Session)
    requires WF(s) && (s.expected == [] || CanReport(s, [bra]))
    ensures var (res, t) := UnspannedSeq(s, bra, ket, sep, f, sess);
      && (s.token.kind != bra ==> res.Err? && t.token == s.token && t.rest == s.rest && t.log == s.log)
      && (s.token.kind == bra ==> WF(Bump(s)) && (res, t) == SeqToEnd(Bump(s), ket, sep, f, sess))
  {
    BumpKeepsWF(s);
  }

  /**
   * `( x , y0 , y1 ... )` read by `parse_paren_comma_seq` gives the names in
   * order with no trailing comma, consumes the closing parenthesis and emits
   * nothing.
   */
  lemma ParenCommaListParses(s: State, sess: Session, x: Symbol, ys: seq<Symbol>)
    requires WF(s) && s.token.kind == OpenDelim(Parenthesis)
    requires s.rest != [] && s.rest[0].kind == Ident(x)
    requires CommaNamesThen(s.rest[1..], ys, [CloseDelim(Parenthesis)])
    ensures var (res, t) := ParenCommaSeq(s, NameElem, sess);
      res == Ok(([x] + ys, false)) && t.prev.kind == CloseDelim(Parenthesis) && t.log == s.log
  {
    var ket := CloseDelim(Parenthesis);
    var b := Bump(s);
    BumpKeepsWF(s);
    StreamBump(s);
    assert Stream(s)[1..] == s.rest;
    assert b.token == s.rest[0] && b.rest == s.rest[1..];
    CommaListParses(b, [ket], TrailingDisallowed(Comma), sess, x, ys, ket);
    assert ParenCommaSeq(s, NameElem, sess) == SeqToEnd(b, ket, TrailingDisallowed(Comma), NameElem, sess);
  }

  /** The loop's first pass over a name: it is parsed and the loop resumes after it. */
  lemma FirstName(s: State, kets: seq<TokenKind>, sep: SeqSep, sess: Session)
    requires WF(s) && s.token.kind.Ident? && PlainKets(kets) && sep.sep.Some?
    ensures WF(Bump(s)) && Fresh(Bump(s))
    ensures SeqLoop(s, kets, sep, NameElem, sess, true, [])
         == SeqLoop(Bump(s), kets, sep, NameElem, sess, false, [s.token.kind.sym])
  {
    var s1 := ExpectAny(s, kets).1;
    assert SeqLoop(s, kets, sep, NameElem, sess, true, []) == ElemStep(s1, kets, sep, NameElem, sess, false, []);
    ParseOneName(s1, kets, sep, sess, []);
    BumpIgnoresExpected(s, s1.expected);
    BumpKeepsWF(s);
    assert [] + [s.token.kind.sym] == [s.token.kind.sym];
  }

  /**
   * At a name where a comma was due, once the loop head has recorded the
   * closing parenthesis: the separator error is reported at the name and the
   * element is tried there.
   */
  lemma MissingCommaReported(c: State, sess: Session, v: seq<Symbol>)
    requires WF(c) && Fresh(c) && c.token.kind.Ident?
    ensures var c1 := c.(expected := c.expected + [Exact(CloseDelim(Parenthesis))]);
      var (res, c2) := Expect(c1, Comma, sess);
      && res.Err? && res.err.span == c.token.span && WF(c2)
      && c2.token == c.token && c2.rest == c.rest && c2.prev == c.prev && c2.log == c.log
      && SeqLoop(c, [CloseDelim(Parenthesis)], TrailingDisallowed(Comma), NameElem, sess, false, v)
         == MissingSepStep(c2, res.err, Comma, [CloseDelim(Parenthesis)], TrailingDisallowed(Comma), NameElem, sess, v)
  {
    var ket := CloseDelim(Parenthesis);
    var kets, sep := [ket], TrailingDisallowed(Comma);
    var c1 := ExpectAny(c, kets).1;
    assert Exacts(kets) == [Exact(ket)];
    assert c1 == c.(expected := c.expected + [Exact(ket)]);
    MissingSeparatorTriesElement(c1, kets, sep, NameElem, sess, v);
    ExpectCommaFails(c1, sess);
    assert SeqLoop(c, kets, sep, NameElem, sess, false, v) == SepStep(c1, kets, sep, NameElem, sess, false, v);
  }

  /** The name parses in place of the comma: the error is emitted with its help and the loop stops at `)`. */
  lemma NameAfterMissingComma(c: State, err: Diag, sess: Session, y: Symbol, v: seq<Symbol>)
    requires WF(c) && c.token.kind == Ident(y) && c.rest != [] && c.rest[0].kind == CloseDelim(Parenthesis)
    ensures var (res, t) := MissingSepStep(c, err, Comma, [CloseDelim(Parenthesis)], TrailingDisallowed(Comma), NameElem, sess, v);
      && res == Ok(SeqResult(v + [y], false, false)) && t.token.kind == CloseDelim(Parenthesis)
      && t.log == c.log + [Emitted(MissingSepHelp(err, c.prev.span.ShrinkToHi(), Comma))]
  {
    var ket := CloseDelim(Parenthesis);
    var kets, sep := [ket], TrailingDisallowed(Comma);
    var help := MissingSepHelp(err, c.prev.span.ShrinkToHi(), Comma);
    BumpKeepsWF(c);
    var d := Emit(Bump(c), help);
    assert d.token == c.rest[0];
    assert MissingSepStep(c, err, Comma, kets, sep, NameElem, sess, v)
        == SeqLoop(d, kets, sep, NameElem, sess, false, v + [y]);
    LoopStops(d, kets, sep, NameElem, sess, false, v + [y]);
  }

  /**
   * At a name where a comma was due, in a parenthesised list that does not
   * allow a trailing comma: the separator error is emitted with the
   * "missing `,`" help right after the previous token, the name is kept and
   * the loop stops at the closing parenthesis.
   */
  lemma MissingCommaBeforeName(c: State, sess: Session, y: Symbol, v: seq<Symbol>)
    requires WF(c) && Fresh(c) && c.rest != []
    requires c.token.kind == Ident(y) && c.rest[0].kind == CloseDelim(Parenthesis)
    ensures var (res, t) := SeqLoop(c, [CloseDelim(Parenthesis)], TrailingDisallowed(Comma), NameElem, sess, false, v);
      && res == Ok(SeqResult(v + [y], false, false)) && t.token.kind == CloseDelim(Parenthesis)
      && EmitsMissingComma(c.log, t.log, c.token.span, c.prev.span.ShrinkToHi())
  {
    MissingCommaReported(c, sess, v);
    var c1 := c.(expected := c.expected + [Exact(CloseDelim(Parenthesis))]);
    var (res, c2) := Expect(c1, Comma, sess);
    NameAfterMissingComma(c2, res.err, sess, y, v);
    HelpEmitsMissingComma(c.log, res.err, c.token.span, c.prev.span.ShrinkToHi());
  }

  /**
   * At `, )` in a list that does not allow a trailing comma: the comma is
   * consumed, the element parser is run on `)` and its error ends the loop,
   * with nothing emitted.
   */
  lemma TrailingCommaBeforeClose(e: State, sess: Session, v: seq<Symbol>)
    requires WF(e) && Fresh(e) && Starts(Stream(e), [Comma, CloseDelim(Parenthesis)])
    ensures var (res, t) := SeqLoop(e, [CloseDelim(Parenthesis)], TrailingDisallowed(Comma), NameElem, sess, false, v);
      res == Err(NameElem(Stream(e)[1], Stream(e)[2..]).err) && t.log == e.log
  {
    assert Stream(e)[0] == e.token && Stream(e)[1] == e.rest[0] && Stream(e)[2..] == e.rest[1..];
    var ket := CloseDelim(Parenthesis);
    var kets, sep := [ket], TrailingDisallowed(Comma);
    var e1 := ExpectAny(e, kets).1;
    assert SeqLoop(e, kets, sep, NameElem, sess, false, v) == SepStep(e1, kets, sep, NameElem, sess, false, v);
    BumpIgnoresExpected(e, e1.expected);
    BumpKeepsWF(e);
    var g := Bump(e);
    assert g.token == e.rest[0] && g.rest == e.rest[1..] && g.prev.kind == Comma;
    assert SepStep(e1, kets, sep, NameElem, sess, false, v) == ElemStep(g, kets, sep, NameElem, sess, false, v);
    ElementErrorPropagates(g, kets, sep, NameElem, sess, false, v);
  }

  /** After `( x` the loop has read `x` and resumes on the token after it. */
  lemma OpenParenName(s: State, sess: Session, x: Symbol)
    requires WF(s) && s.token.kind == OpenDelim(Parenthesis) && |s.rest| >= 2 && s.rest[0].kind == Ident(x)
    ensures WF(Bump(s)) && WF(Bump(Bump(s))) && Fresh(Bump(Bump(s)))
    ensures Stream(Bump(Bump(s))) == s.rest[1..] && Bump(Bump(s)).prev == s.rest[0]
    ensures SeqLoop(Bump(s), [CloseDelim(Parenthesis)], TrailingDisallowed(Comma), NameElem, sess, true, [])
         == SeqLoop(Bump(Bump(s)), [CloseDelim(Parenthesis)], TrailingDisallowed(Comma), NameElem, sess, false, [x])
  {
    var b := Bump(s);
    BumpKeepsWF(s);
    StreamBump(s);
    assert Stream(s)[1..] == s.rest;
    FirstName(b, [CloseDelim(Parenthesis)], TrailingDisallowed(Comma), sess);
    StreamBump(b);
  }

  /** Past its first token, a stream starts with the rest of what it started with. */
  lemma StartsDrop(ts: seq<Token>, k: TokenKind, tail: seq<TokenKind>)
    requires Starts(ts, [k] + tail)
    ensures Starts(ts[1..], tail)
  {
    forall i | 0 <= i < |tail| ensures ts[1..][i].kind == tail[i] {
      assert ([k] + tail)[i + 1] == tail[i];
    }
  }

  /** A stream starting with `, y` and then `tail` is one `, name` pair followed by `tail`. */
  lemma CommaNameStarts(ts: seq<Token>, y: Symbol, tail: seq<TokenKind>)
    requires Starts(ts, [Comma, Ident(y)] + tail)
    ensures CommaNamesThen(ts, [y], tail)
  {
    assert |ts| >= 2 && ts[0].kind == Comma && ts[1].kind == Ident(y);
    forall i | 0 <= i < |tail| ensures ts[2..][i].kind == tail[i] {
      assert ([Comma, Ident(y)] + tail)[i + 2] == tail[i];
    }
    assert Starts(ts[2..], tail);
  }

  /** After `, y` the stream is at `, )`, two tokens further on. */
  lemma PairThenComma(c: State, y: Symbol)
    requires WF(c) && Starts(Stream(c), [Comma, Ident(y), Comma, CloseDelim(Parenthesis)])
    ensures Starts(Stream(Bump(Bump(c))), [Comma, CloseDelim(Parenthesis)])
    ensures Stream(Bump(Bump(c)))[1] == Stream(c)[3] && Stream(Bump(Bump(c)))[2..] == Stream(c)[4..]
  {
    StreamBumpTwice(c);
  }

  /** `, y , )` in a list that does not allow a trailing comma: `y` is read, then the element fails on `)`. */
  lemma CommaNameThenTrailingComma(c: State, sess: Session, y: Symbol, v: seq<Symbol>)
    requires WF(c) && Fresh(c)
    requires Starts(Stream(c), [Comma, Ident(y), Comma, CloseDelim(Parenthesis)])
    ensures var (res, t) := SeqLoop(c, [CloseDelim(Parenthesis)], TrailingDisallowed(Comma), NameElem, sess, false, v);
      res == Err(NameElem(Stream(c)[3], Stream(c)[4..]).err) && t.log == c.log
  {
    var ket := CloseDelim(Parenthesis);
    var kets, sep := [ket], TrailingDisallowed(Comma);
    assert [Comma, Ident(y)] + [Comma, ket] == [Comma, Ident(y), Comma, ket];
    CommaNameStarts(Stream(c), y, [Comma, ket]);
    CommaNamePair(c, kets, sep, sess, [y], v, [Comma, ket]);
    var e := Bump(Bump(c));
    PairThenComma(c, y);
    TrailingCommaBeforeClose(e, sess, v + [y]);
  }

  /**
   * `( x y )` read by `parse_paren_comma_seq`: the missing comma is emitted
   * once, at `y`, with the "missing `,`" help right after `x`, and both names
   * are kept.
   */
  lemma ParenListMissingComma(s: State, sess: Session, x: Symbol, y: Symbol)
    requires WF(s) && s.token.kind == OpenDelim(Parenthesis)
    requires Starts(s.rest, [Ident(x), Ident(y), CloseDelim(Parenthesis)])
    ensures var (res, t) := ParenCommaSeq(s, NameElem, sess);
      && res == Ok(([x, y], false)) && t.prev.kind == CloseDelim(Parenthesis)
      && EmitsMissingComma(s.log, t.log, s.rest[1].span, s.rest[0].span.ShrinkToHi())
  {
    OpenParenName(s, sess, x);
    var c := Bump(Bump(s));
    assert c.token == s.rest[1] && c.rest == s.rest[2..];
    MissingCommaBeforeName(c, sess, y, [x]);
    assert [x] + [y] == [x, y];
    ParenSeqUnfolds(s, sess, SeqLoop(c, [CloseDelim(Parenthesis)], TrailingDisallowed(Comma), NameElem, sess, false, [x]));
  }

  /**
   * `( x , y , )` read by `parse_paren_comma_seq`: the list does not allow
   * a trailing comma, so the element parser is run on `)` and its error is
   * the result, with nothing emitted.
   */
  lemma ParenListTrailingCommaFails(s: State, sess: Session, x: Symbol, y: Symbol)
    requires WF(s) && s.token.kind == OpenDelim(Parenthesis)
    requires Starts(s.rest, [Ident(x)] + [Comma, Ident(y), Comma, CloseDelim(Parenthesis)])
    ensures var (res, t) := ParenCommaSeq(s, NameElem, sess);
      res == Err(NameElem(s.rest[4], s.rest[5..]).err) && t.log == s.log
  {
    OpenParenName(s, sess, x);
    var c := Bump(Bump(s));
    StartsDrop(s.rest, Ident(x), [Comma, Ident(y), Comma, CloseDelim(Parenthesis)]);
    CommaNameThenTrailingComma(c, sess, y, [x]);
    assert Stream(c)[3] == s.rest[4] && Stream(c)[4..] == s.rest[5..];
    ParenSeqUnfolds(s, sess, SeqLoop(c, [CloseDelim(Parenthesis)], TrailingDisallowed(Comma), NameElem, sess, false, [x]));
  }

  /** With something already expected, a missing comma is reported at the current token. */
  lemma ExpectCommaFails(s: State, sess: Session)
    requires s.token.kind != Comma && s.expected != [] && Fresh(s)
    ensures var (res, t) := Expect(s, Comma, sess);
      res.Err? && res.err.span == s.token.span && t == s.(lastUnexpected := Some(s.token.span))
  {
  }

  /**
   * The log grew by one emitted diagnostic at `at`, whose last note is the
   * "missing `,`" help at `after`.
   */
  predicate EmitsMissingComma(log0: seq<DiagEvent>, log: seq<DiagEvent>, at: Span, after: Span) {
    && |log| == |log0| + 1 && log[..|log0|] == log0 && log[|log0|].Emitted?
    && var d := log[|log0|].diag;
       d.span == at && d.children != [] && d.children[|d.children| - 1] == Help(after, "missing `,`")
  }

  /** Emitting a separator error for a comma, with its help, is such a report. */
  lemma HelpEmitsMissingComma(log0: seq<DiagEvent>, err: Diag, at: Span, after: Span)
    requires err.span == at
    ensures EmitsMissingComma(log0, log0 + [Emitted(MissingSepHelp(err, after, Comma))], at, after)
  {
    assert "missing `" + Display(Comma) + "`" == "missing `,`";
    assert (log0 + [Emitted(MissingSepHelp(err, after, Comma))])[..|log0|] == log0;
  }

  /** `parse_paren_comma_seq` is the loop after `(` followed by eating `)`. */
  lemma ParenSeqUnfolds(s: State, sess: Session, r: (PResult<SeqResult<Symbol>>, State))
    requires WF(s) && s.token.kind == OpenDelim(Parenthesis)
    requires WF(Bump(s)) && SeqLoop(Bump(s), [CloseDelim(Parenthesis)], TrailingDisallowed(Comma), NameElem, sess, true, []) == r
    ensures r.0.Ok? && !r.0.value.recovered ==>
      ParenCommaSeq(s, NameElem, sess) == (Ok((r.0.value.items, r.0.value.trailing)), Eat(r.1, CloseDelim(Parenthesis)).1)
    ensures r.0.Err? ==> ParenCommaSeq(s, NameElem, sess) == (Err(r.0.err), r.1)
  {
    var ket := CloseDelim(Parenthesis);
    assert ParenCommaSeq(s, NameElem, sess) == SeqToEnd(Bump(s), ket, TrailingDisallowed(Comma), NameElem, sess);
  }
}
