/**
 * The parser object: the cursor, the expectation record and the context
 * flags as fields that its methods update in place. Each method leaves the
 * fields as the corresponding function of the value model says, so every
 * property proved about the functions holds of the object.
 */
module Parsing {
  import opened Wrappers
  import opened Tokens
  import opened Expected
  import opened Diagnostics
  import opened Cursor
  import Tracker
  import SeqParser
  import IdentParser
  import Toggles
  import Ast

  /** Where a part of the sequence loop leaves it: stopped with a result, or going on with the flag and the items. */
  datatype Step<T> = Stop(res: PResult<SeqParser.SeqResult<T>>) | Go(first: bool, items: seq<T>)

  class Parser {
    var token: Token
    var prevToken: Token
    var expectedTokens: seq<ExpectedToken>
    var lastUnexpectedTokenSpan: Option<Span>
    var inYul: bool
    var inContract: bool
    /** The token stream not yet consumed. */
    var tokens: seq<Token>
    /** The diagnostic context: every diagnostic emitted or cancelled. */
    var diags: seq<DiagEvent>
    const sess: Session

    /** The fields as a value of the model. */
    function St(): State
      reads this
    {
      State(token, prevToken, expectedTokens, lastUnexpectedTokenSpan, inYul, inContract, tokens, diags)
    }

    /** Overwrites every field with `st`: the effect of a nested parse modelled as a function. */
    method Load(st: State)
      modifies this
      ensures St() == st
    {
      token, prevToken, expectedTokens := st.token, st.prev, st.expected;
      lastUnexpectedTokenSpan, inYul, inContract := st.lastUnexpected, st.inYul, st.inContract;
      tokens, diags := st.rest, st.log;
    }

    /** Starts on the placeholder token and advances once onto the first real one. */
    constructor(sess: Session, tokens: seq<Token>)
      requires NoComments(tokens)
      ensures St() == New(tokens) && this.sess == sess
    {
      this.sess := sess;
      token, prevToken, expectedTokens := DUMMY, DUMMY, [];
      lastUnexpectedTokenSpan, inYul, inContract := None, false, false;
      this.tokens, diags := tokens, [];
      new;
      Bump();
    }

    /** Advances by one token, anchoring a dummy-spanned next token on the current span. */
    method Bump()
      modifies this
      ensures St() == Cursor.Bump(old(St()))
    {
      var next := if tokens == [] then EOF else tokens[0];
      if tokens != [] {
        tokens := tokens[1..];
      }
      if next.span.IsDummy() {
        next := next.(span := token.span);
      }
      BumpWith(next);
    }

    /** Makes `next` the current token and forgets the expectations. */
    method BumpWith(next: Token)
      modifies this
      ensures St() == Cursor.BumpWith(old(St()), next)
    {
      prevToken := token;
      token := next;
      expectedTokens := [];
    }

    method Check(tok: TokenKind) returns (present: bool)
      modifies this
      ensures (present, St()) == Tracker.Check(old(St()), tok)
    {
      present := token.kind == tok;
      if !present {
        expectedTokens := expectedTokens + [Exact(tok)];
      }
    }

    method EatNoexpect(tok: TokenKind) returns (present: bool)
      modifies this
      ensures (present, St()) == Tracker.EatNoexpect(old(St()), tok)
    {
      present := token.kind == tok;
      if present {
        Bump();
      }
    }

    method Eat(tok: TokenKind) returns (present: bool)
      modifies this
      ensures (present, St()) == Tracker.Eat(old(St()), tok)
    {
      present := Check(tok);
      if present {
        Bump();
      }
    }

    method CheckKeyword(kw: Symbol) returns (present: bool)
      modifies this
      ensures (present, St()) == Tracker.CheckKeyword(old(St()), kw)
    {
      expectedTokens := expectedTokens + [Keyword(kw)];
      present := token.kind == TokenKind.Ident(kw);
    }

    method EatKeyword(kw: Symbol) returns (present: bool)
      modifies this
      ensures (present, St()) == Tracker.EatKeyword(old(St()), kw)
    {
      present := CheckKeyword(kw);
      if present {
        Bump();
      }
    }

    method CheckOrExpected(ok: bool, t: ExpectedToken) returns (r: bool)
      modifies this
      ensures (r, St()) == Tracker.CheckOrExpected(old(St()), ok, t)
    {
      if !ok {
        expectedTokens := expectedTokens + [t];
      }
      r := ok;
    }

    method CheckIdent() returns (r: bool)
      modifies this
      ensures (r, St()) == Tracker.CheckIdent(old(St()))
    {
      r := CheckOrExpected(token.kind.Ident?, IdentName);
    }

    method CheckAnyIdent() returns (r: bool)
      modifies this
      ensures (r, St()) == Tracker.CheckAnyIdent(old(St()), sess)
    {
      r := CheckOrExpected(token.kind.Ident? && !sess.reserved(token.kind.sym, inYul), IdentName);
    }

    method CheckPath() returns (r: bool)
      modifies this
      ensures (r, St()) == Tracker.CheckPath(old(St()))
    {
      r := CheckOrExpected(token.kind.Ident?, PathName);
    }

    method CheckLit() returns (r: bool)
      modifies this
      ensures (r, St()) == Tracker.CheckLit(old(St()), sess)
    {
      r := CheckOrExpected(sess.isLit(token.kind), Lit);
    }

    method CheckStrLit() returns (r: bool)
      modifies this
      ensures (r, St()) == Tracker.CheckStrLit(old(St()), sess)
    {
      r := CheckOrExpected(sess.isStrLit(token.kind), StrLit);
    }

    method CheckElementaryType() returns (r: bool)
      modifies this
      ensures (r, St()) == Tracker.CheckElementaryType(old(St()), sess)
    {
      r := CheckOrExpected(sess.isElementaryType(token.kind), ElementaryType);
    }

    /** Checks the kets in order until one is present; every miss is recorded. */
    method ExpectAny(kets: seq<TokenKind>) returns (hit: bool)
      modifies this
      ensures (hit, St()) == Tracker.ExpectAny(old(St()), kets)
    {
      hit := false;
      var i := 0;
      while i < |kets| && !hit
        invariant 0 <= i <= |kets|
        invariant !hit ==> Tracker.ExpectAny(St(), kets[i..]) == Tracker.ExpectAny(old(St()), kets)
        invariant hit ==> (true, St()) == Tracker.ExpectAny(old(St()), kets)
        decreases |kets| - i, if hit then 0 else 1
      {
        assert kets[i..][0] == kets[i] && kets[i..][1..] == kets[i + 1..];
        hit := Check(kets[i]);
        if !hit {
          i := i + 1;
        }
      }
    }

    method ExpectedOneOfNotFound(edible: seq<TokenKind>, inedible: seq<TokenKind>) returns (r: PResult<bool>)
      modifies this
      ensures (r, St()) == Tracker.ExpectedOneOfNotFound(old(St()), edible, inedible, sess)
    {
      r := Err(Tracker.NotFoundDiag(St(), edible, inedible, sess));
      lastUnexpectedTokenSpan := Some(token.span);
    }

    method ExpectOneOf(edible: seq<TokenKind>, inedible: seq<TokenKind>) returns (r: PResult<bool>)
      requires Tracker.CanReport(St(), edible + inedible)
      modifies this
      ensures (r, St()) == Tracker.ExpectOneOf(old(St()), edible, inedible, sess)
    {
      if token.kind in edible {
        Bump();
        r := Ok(false);
      } else if token.kind in inedible {
        r := Ok(false);
      } else {
        r := ExpectedOneOfNotFound(edible, inedible);
      }
    }

    method Expect(tok: TokenKind) returns (r: PResult<bool>)
      requires expectedTokens == [] || Tracker.CanReport(St(), [tok])
      modifies this
      ensures (r, St()) == Tracker.Expect(old(St()), tok, sess)
    {
      if expectedTokens == [] {
        if token.kind == tok {
          Bump();
          r := Ok(false);
        } else {
          r := Err(Tracker.UnexpectedWithDiag(St(), tok, sess));
        }
      } else {
        r := ExpectOneOf([tok], []);
      }
    }

    method UnexpectedError() returns (d: Diag)
      requires Fresh(St())
      modifies this
      ensures (d, St()) == Tracker.UnexpectedError(old(St()), sess)
    {
      var r := ExpectOneOf([], []);
      d := r.err;
    }

    /** `unexpected`: the same error as a failed result. */
    method Unexpected<T>() returns (r: PResult<T>)
      requires Fresh(St())
      modifies this
      ensures r.Err? && (r.err, St()) == Tracker.UnexpectedError(old(St()), sess)
    {
      var d := UnexpectedError();
      r := Err(d);
    }

    method ExpectSemi() returns (r: PResult<()>)
      requires expectedTokens == [] || Tracker.CanReport(St(), [Semi])
      modifies this
      ensures (r, St()) == Tracker.ExpectSemi(old(St()), sess)
    {
      var e := Expect(Semi);
      r := if e.Ok? then Ok(()) else Err(e.err);
    }

    method ExpectKeyword(kw: Symbol) returns (r: PResult<()>)
      requires token.kind == Ident(kw) || Fresh(St())
      modifies this
      ensures (r, St()) == Tracker.ExpectKeyword(old(St()), kw, sess)
    {
      var ate := EatKeyword(kw);
      if !ate {
        r := Unexpected();
      } else {
        r := Ok(());
      }
    }

    /** Runs the element parser and advances past what it consumed. */
    method RunElem<T>(f: SeqParser.ElemParser<T>) returns (r: PResult<T>)
      modifies this
      ensures (r, St()) == SeqParser.RunElem(old(St()), f)
    {
      var e := f(token, tokens);
      Load(BumpN(St(), e.Used()));
      r := if e.Parsed? then Ok(e.value) else Err(e.err);
    }

    /**
     * The arm of the loop where the separator `tk` was missing: try the
     * element anyway; keep it and go on if it parses, and otherwise stop with
     * the combined error, returned or emitted.
     */
    method MissingSeparator<T>(expectErr: Diag, tk: TokenKind, kets: seq<TokenKind>, sep: SeqParser.SeqSep,
                               f: SeqParser.ElemParser<T>, v: seq<T>) returns (step: Step<T>)
      requires WF(St()) && token.kind != Eof
      modifies this
      ensures step.Stop? ==> (step.res, St()) == SeqParser.MissingSepStep(old(St()), expectErr, tk, kets, sep, f, sess, v)
      ensures step.Go? ==>
        && !step.first && WF(St()) && Fresh(St()) && Measure(St()) < Measure(old(St()))
        && SeqParser.SeqLoop(St(), kets, sep, f, sess, false, step.items)
           == SeqParser.MissingSepStep(old(St()), expectErr, tk, kets, sep, f, sess, v)
    {
      var sp := prevToken.span.ShrinkToHi();
      var fr := RunElem(f);
      match fr
      case Ok(t) =>
        diags := diags + [Emitted(SeqParser.MissingSepHelp(expectErr, sp, tk))];
        return Go(false, v + [t]);
      case Err(e) =>
        var combined := expectErr.(children := expectErr.children + e.children);
        diags := diags + [Cancelled(e)];
        if token.kind == Colon {
          return Stop(Err(combined));
        } else if kets == [CloseDelim(Parenthesis)] {
          return Stop(Err(combined));
        } else {
          diags := diags + [Emitted(combined)];
          return Stop(Ok(SeqParser.SeqResult(v, false, false)));
        }
    }

    /**
     * The end of the loop body: stop after a trailing separator when that is
     * allowed, otherwise parse one element and keep it, or stop with its error.
     */
    method Element<T>(kets: seq<TokenKind>, sep: SeqParser.SeqSep, f: SeqParser.ElemParser<T>, first: bool, v: seq<T>)
      returns (step: Step<T>)
      requires WF(St())
      requires token.kind !in kets || (sep.sep.Some? && prevToken.kind == sep.sep.value)
      modifies this
      ensures step.Stop? ==> (step.res, St()) == SeqParser.ElemStep(old(St()), kets, sep, f, sess, first, v)
      ensures step.Go? ==>
        && step.first == first && WF(St()) && Fresh(St()) && Measure(St()) < 2 * |old(tokens)| + 1
        && SeqParser.SeqLoop(St(), kets, sep, f, sess, first, step.items)
           == SeqParser.ElemStep(old(St()), kets, sep, f, sess, first, v)
    {
      if sep.trailingSepAllowed {
        var trailing := ExpectAny(kets);
        if trailing {
          return Stop(Ok(SeqParser.SeqResult(v, true, false)));
        }
      }
      var er := RunElem(f);
      if er.Err? {
        return Stop(Err(er.err));
      }
      step := Go(first, v + [er.value]);
    }

    /**
     * The separator between two elements: expect it, then parse the element;
     * stop on a reported recovery or, when a trailing separator is required,
     * on the error; otherwise try the element without the separator.
     */
    method Separator<T>(kets: seq<TokenKind>, sep: SeqParser.SeqSep, f: SeqParser.ElemParser<T>, v: seq<T>)
      returns (step: Step<T>)
      requires WF(St()) && Fresh(St()) && sep.sep.Some?
      requires token.kind != Eof && token.kind !in kets
      modifies this
      ensures step.Stop? ==> (step.res, St()) == SeqParser.SepStep(old(St()), kets, sep, f, sess, false, v)
      ensures step.Go? ==>
        && !step.first && WF(St()) && Fresh(St()) && Measure(St()) < Measure(old(St()))
        && SeqParser.SeqLoop(St(), kets, sep, f, sess, false, step.items)
           == SeqParser.SepStep(old(St()), kets, sep, f, sess, false, v)
    {
      ghost var atSep := St();
      var tk := sep.sep.value;
      var r := Expect(tk);
      match r
      case Ok(recovered) =>
        if recovered {
          return Stop(Ok(SeqParser.SeqResult(v, false, true)));
        }
        BumpKeepsWF(atSep);
        step := Element(kets, sep, f, false, v);
      case Err(expectErr) =>
        if sep.trailingSepRequired {
          return Stop(Err(expectErr));
        }
        ReportKeepsWF(atSep);
        step := MissingSeparator(expectErr, tk, kets, sep, f, v);
    }

    /**
     * One pass of the loop body after the terminator check: the separator
     * (none before the first element), then the element.
     */
    method SeparatorThenElement<T>(kets: seq<TokenKind>, sep: SeqParser.SeqSep, f: SeqParser.ElemParser<T>,
                                   first: bool, v: seq<T>) returns (step: Step<T>)
      requires WF(St()) && (first || Fresh(St()))
      requires token.kind != Eof && token.kind !in kets
      modifies this
      ensures step.Stop? ==> (step.res, St()) == SeqParser.SepStep(old(St()), kets, sep, f, sess, first, v)
      ensures step.Go? ==>
        && WF(St()) && (step.first || Fresh(St())) && Measure(St()) < Measure(old(St()))
        && SeqParser.SeqLoop(St(), kets, sep, f, sess, step.first, step.items)
           == SeqParser.SepStep(old(St()), kets, sep, f, sess, first, v)
    {
      if sep.sep.None? {
        step := Element(kets, sep, f, first, v);
      } else if first {
        step := Element(kets, sep, f, false, v);
      } else {
        step := Separator(kets, sep, f, v);
      }
    }

    /**
     * `parse_seq_to_before_tokens`: the loop with its `first` flag and its
     * items, following the value model step by step.
     */
    method ParseSeqToBeforeTokens<T>(kets: seq<TokenKind>, sep: SeqParser.SeqSep, f: SeqParser.ElemParser<T>)
      returns (res: PResult<SeqParser.SeqResult<T>>)
      requires WF(St())
      modifies this
      ensures (res, St()) == SeqParser.SeqToBeforeTokens(old(St()), kets, sep, f, sess)
    {
      var first := true;
      var v: seq<T> := [];
      while true
        invariant WF(St()) && (first || Fresh(St()))
        invariant SeqParser.SeqLoop(St(), kets, sep, f, sess, first, v)
               == SeqParser.SeqToBeforeTokens(old(St()), kets, sep, f, sess)
        decreases Measure(St())
      {
        var hit := ExpectAny(kets);
        if hit || token.kind.CloseDelim? || token.kind == Eof {
          return Ok(SeqParser.SeqResult(v, false, false));
        }
        var step := SeparatorThenElement(kets, sep, f, first, v);
        match step
        case Stop(r) => return r;
        case Go(fst, items) => first, v := fst, items;
      }
    }

    method ParseSeqToBeforeEnd<T>(ket: TokenKind, sep: SeqParser.SeqSep, f: SeqParser.ElemParser<T>)
      returns (res: PResult<SeqParser.SeqResult<T>>)
      requires WF(St())
      modifies this
      ensures (res, St()) == SeqParser.SeqToBeforeEnd(old(St()), ket, sep, f, sess)
    {
      res := ParseSeqToBeforeTokens([ket], sep, f);
    }

    /** Parses the sequence, then eats `ket` unless the loop reported a recovery. */
    method ParseSeqToEnd<T>(ket: TokenKind, sep: SeqParser.SeqSep, f: SeqParser.ElemParser<T>)
      returns (res: PResult<(seq<T>, bool)>)
      requires WF(St())
      modifies this
      ensures (res, St()) == SeqParser.SeqToEnd(old(St()), ket, sep, f, sess)
    {
      var r := ParseSeqToBeforeEnd(ket, sep, f);
      if r.Err? {
        return Err(r.err);
      }
      if !r.value.recovered {
        var _ := Eat(ket);
      }
      res := Ok((r.value.items, r.value.trailing));
    }

    method ParseUnspannedSeq<T>(bra: TokenKind, ket: TokenKind, sep: SeqParser.SeqSep, f: SeqParser.ElemParser<T>)
      returns (res: PResult<(seq<T>, bool)>)
      requires WF(St()) && (expectedTokens == [] || Tracker.CanReport(St(), [bra]))
      modifies this
      ensures (res, St()) == SeqParser.UnspannedSeq(old(St()), bra, ket, sep, f, sess)
    {
      BumpKeepsWF(St());
      var r := Expect(bra);
      if r.Err? {
        return Err(r.err);
      }
      res := ParseSeqToEnd(ket, sep, f);
    }

    method ParseDelimSeq<T>(delim: Delimiter, sep: SeqParser.SeqSep, f: SeqParser.ElemParser<T>)
      returns (res: PResult<(seq<T>, bool)>)
      requires WF(St()) && (expectedTokens == [] || Tracker.CanReport(St(), [OpenDelim(delim)]))
      modifies this
      ensures (res, St()) == SeqParser.DelimSeq(old(St()), delim, sep, f, sess)
    {
      res := ParseUnspannedSeq(OpenDelim(delim), CloseDelim(delim), sep, f);
    }

    method ParseDelimCommaSeq<T>(delim: Delimiter, f: SeqParser.ElemParser<T>)
      returns (res: PResult<(seq<T>, bool)>)
      requires WF(St()) && (expectedTokens == [] || Tracker.CanReport(St(), [OpenDelim(delim)]))
      modifies this
      ensures (res, St()) == SeqParser.DelimCommaSeq(old(St()), delim, f, sess)
    {
      res := ParseDelimSeq(delim, SeqParser.TrailingDisallowed(Comma), f);
    }

    method ParseParenCommaSeq<T>(f: SeqParser.ElemParser<T>) returns (res: PResult<(seq<T>, bool)>)
      requires WF(St()) && (expectedTokens == [] || Tracker.CanReport(St(), [OpenDelim(Parenthesis)]))
      modifies this
      ensures (res, St()) == SeqParser.ParenCommaSeq(old(St()), f, sess)
    {
      res := ParseDelimCommaSeq(Parenthesis, f);
    }

    method ParseNodelimCommaSeq<T>(stop: TokenKind, f: SeqParser.ElemParser<T>) returns (res: PResult<(seq<T>, bool)>)
      requires WF(St())
      modifies this
      ensures (res, St()) == SeqParser.NodelimCommaSeq(old(St()), stop, f, sess)
    {
      var r := ParseSeqToBeforeEnd(stop, SeqParser.TrailingDisallowed(Comma), f);
      if r.Err? {
        return Err(r.err);
      }
      res := Ok((r.value.items, r.value.trailing));
    }

    /** The current identifier, without advancing; otherwise the "expected identifier" path. */
    method IdentOrErr(recover: bool) returns (r: PResult<Ast.Ident>)
      modifies this
      ensures (r, St()) == IdentParser.IdentOrErr(old(St()), recover)
      decreases if recover then 1 else 0, 1
    {
      if token.kind.Ident? {
        r := Ok(Ast.Ident(token.kind.sym, token.span));
      } else {
        r := ExpectedIdentFound(recover);
      }
    }

    method ExpectedIdentFound(recover: bool) returns (r: PResult<Ast.Ident>)
      modifies this
      ensures (r, St()) == IdentParser.ExpectedIdentFound(old(St()), recover)
      decreases if recover then 1 else 0, 0
    {
      ghost var s0 := St();
      var err := IdentParser.NotIdentDiag(St());
      var span := token.span;
      var recovered: Option<Ast.Ident> := None;
      var suggestRemoveComma := token.kind == Comma && Cursor.LookAhead(St(), 1).kind.Ident?;
      if suggestRemoveComma {
        if recover {
          Cursor.LookAheadPredictsBump(St(), 0);
          Bump();
          var retry := IdentOrErr(false);
          recovered := if retry.Ok? then Some(retry.value) else None;
          assert recovered.Some?;
        }
        err := err.(children := err.children + [Help(span, "remove this comma")]);
        assert err == IdentParser.RemoveCommaDiag(s0);
      }
      if recover && recovered.Some? {
        diags := diags + [Emitted(err)];
        return Ok(recovered.value);
      }
      r := Err(err);
    }

    method ParseIdentCommon(recover: bool) returns (r: PResult<Ast.Ident>)
      modifies this
      ensures (r, St()) == IdentParser.ParseIdentCommon(old(St()), recover, sess)
    {
      var ident := IdentOrErr(recover);
      if ident.Err? {
        return ident;
      }
      if sess.reserved(ident.value.name, inYul) {
        var found := ExpectedIdentFound(false);
        if recover {
          diags := diags + [Emitted(found.err)];
        } else {
          return Err(found.err);
        }
      }
      Bump();
      r := ident;
    }

    method ParseIdent() returns (r: PResult<Ast.Ident>)
      modifies this
      ensures (r, St()) == IdentParser.ParseIdent(old(St()), sess)
    {
      r := ParseIdentCommon(true);
    }

    method ParseIdentAny() returns (r: PResult<Ast.Ident>)
      modifies this
      ensures (r, St()) == IdentParser.ParseIdentAny(old(St()))
    {
      var ident := IdentOrErr(true);
      if ident.Err? {
        return ident;
      }
      Bump();
      r := ident;
    }

    method ParseIdentOpt() returns (r: PResult<Option<Ast.Ident>>)
      modifies this
      ensures (r, St()) == IdentParser.ParseIdentOpt(old(St()), sess)
    {
      if token.kind.Ident? {
        var id := ParseIdent();
        match id
        case Ok(v) => r := Ok(Some(v));
        case Err(e) => r := Err(e);
      } else {
        r := Ok(None);
      }
    }

    method ParseSegment(rule: IdentParser.IdentRule) returns (r: PResult<Ast.Ident>)
      modifies this
      ensures (r, St()) == IdentParser.ParseSegment(old(St()), rule, sess)
    {
      match rule
      case Plain => r := ParseIdent();
      case AnyIdent => r := ParseIdentAny();
    }

    /** `parse_path_with_f`: one segment per eaten dot, pushed in order. */
    method ParsePathWithF(first: Ast.Ident, rule: IdentParser.IdentRule) returns (r: PResult<Ast.Path>)
      modifies this
      ensures (r, St()) == IdentParser.ParsePathWithF(old(St()), first, rule, sess)
    {
      if token.kind != Dot {
        return Ok(Ast.Path([first]));
      }
      var path := [first];
      while true
        invariant IdentParser.PathLoop(St(), path, rule, sess) == IdentParser.ParsePathWithF(old(St()), first, rule, sess)
        decreases Measure(St())
      {
        var dot := Eat(Dot);
        if !dot {
          return Ok(Ast.Path(path));
        }
        var seg := ParseSegment(rule);
        if seg.Err? {
          return Err(seg.err);
        }
        path := path + [seg.value];
      }
    }

    method ParsePath() returns (r: PResult<Ast.Path>)
      modifies this
      ensures (r, St()) == IdentParser.ParsePath(old(St()), sess)
    {
      var first := ParseIdent();
      if first.Err? {
        return Err(first.err);
      }
      r := ParsePathWith(first.value);
    }

    /** `parse_path_with`: the rest of a path whose first identifier is known. */
    method ParsePathWith(first: Ast.Ident) returns (r: PResult<Ast.Path>)
      modifies this
      ensures (r, St()) == IdentParser.ParsePathWithF(old(St()), first, IdentParser.Plain, sess)
    {
      r := ParsePathWithF(first, IdentParser.Plain);
    }

    method ParsePathAny() returns (r: PResult<Ast.Path>)
      modifies this
      ensures (r, St()) == IdentParser.ParsePathAny(old(St()), sess)
    {
      var first := ParseIdentAny();
      if first.Err? {
        return Err(first.err);
      }
      r := ParsePathWithF(first.value, IdentParser.AnyIdent);
    }

    /** Runs `f` with the contract flag set and restores the flag afterwards. */
    method InContract<R>(f: Toggles.Nested<R>) returns (res: R)
      modifies this
      ensures (res, St()) == Toggles.InContract(old(St()), f)
    {
      var saved := inContract;
      inContract := true;
      var (r, after) := f(St());
      Load(after);
      inContract := saved;
      res := r;
    }

    /** Runs `f` with the Yul flag set and restores the flag afterwards. */
    method InYul<R>(f: Toggles.Nested<R>) returns (res: R)
      modifies this
      ensures (res, St()) == Toggles.InYul(old(St()), f)
    {
      var saved := inYul;
      inYul := true;
      var (r, after) := f(St());
      Load(after);
      inYul := saved;
      res := r;
    }
  }
}
