/**
 * The sequence parser: `bra elem sep elem sep ... [sep] ket` under a
 * separator policy, with recovery from a missing separator.
 */
module SeqParser {
  import opened Wrappers
  import opened Tokens
  import opened Expected
  import opened Diagnostics
  import opened Cursor
  import opened Tracker

  /** The separator policy of one sequence. */
  datatype SeqSep = SeqSep(sep: Option<TokenKind>, trailingSepAllowed: bool, trailingSepRequired: bool)

  /** A policy never requires a trailing separator it does not allow, nor one without a separator. */
  predicate Consistent(p: SeqSep) {
    p.trailingSepRequired ==> p.trailingSepAllowed && p.sep.Some?
  }

  /** A separator that must also end the sequence. */
  function TrailingEnforced(t: TokenKind): (r: SeqSep)
    ensures r.sep == Some(t) && r.trailingSepRequired && r.trailingSepAllowed
    ensures Consistent(r)
  {
    SeqSep(Some(t), true, true)
  }

  /** A separator that may also end the sequence. */
  function TrailingAllowed(t: TokenKind): (r: SeqSep)
    ensures r.sep == Some(t) && !r.trailingSepRequired && r.trailingSepAllowed
    ensures Consistent(r)
  {
    SeqSep(Some(t), true, false)
  }

  /** A separator that may not end the sequence. */
  function TrailingDisallowed(t: TokenKind): (r: SeqSep)
    ensures r.sep == Some(t) && !r.trailingSepRequired && !r.trailingSepAllowed
    ensures Consistent(r)
  {
    SeqSep(Some(t), false, false)
  }

  /** No separator between the elements. */
  function NoSeparator(): (r: SeqSep)
    ensures r.sep.None? && !r.trailingSepRequired && !r.trailingSepAllowed
    ensures Consistent(r)
  {
    SeqSep(None, false, false)
  }

  type Positive = n: nat | n >= 1 witness 1

  /**
   * What an element parser does at the current position: it parses a value
   * and consumes at least one token, or fails with a diagnostic after
   * consuming some tokens.
   */
  datatype Elem<+T> = Parsed(value: T, consumed: Positive) | Failed(err: Diag, spent: nat)
  {
    /** How many tokens the element parser consumed. */
    function Used(): nat {
      match this
      case Parsed(_, n) => n
      case Failed(_, n) => n
    }
  }

  /** An element parser sees the current token and the tokens after it. */
  type ElemParser<!T> = (Token, seq<Token>) -> Elem<T>

  datatype SeqResult<T> = SeqResult(items: seq<T>, trailing: bool, recovered: bool)

  /** Runs the element parser: its result, with the cursor moved past what it consumed. */
  function RunElem<T>(s: State, f: ElemParser<T>): (r: (PResult<T>, State))
    ensures r.0.Ok? <==> f(s.token, s.rest).Parsed?
    ensures r.0.Ok? ==> r.0.value == f(s.token, s.rest).value
    ensures r.0.Err? ==> r.0.err == f(s.token, s.rest).err
    ensures r.1 == BumpN(s, f(s.token, s.rest).Used())
    ensures WF(s) ==> WF(r.1)
    ensures r.0.Ok? && WF(s) ==> Fresh(r.1)
    ensures Measure(r.1) <= Measure(s)
    ensures r.0.Ok? ==> Measure(r.1) < 2 * |s.rest| + 1
    ensures r.0.Ok? && s.token.kind != Eof ==> Measure(r.1) < Measure(s)
  {
    var e := f(s.token, s.rest);
    assert WF(s) ==> WF(BumpN(s, e.Used())) && (e.Used() >= 1 ==> Fresh(BumpN(s, e.Used()))) by {
      if WF(s) {
        BumpNKeepsWF(s, e.Used());
      }
    }
    match e
    case Parsed(v, n) => (Ok(v), BumpN(s, n))
    case Failed(d, n) => (Err(d), BumpN(s, n))
  }

  /** The help note attached to a separator error when only the separator was missing. */
  function MissingSepHelp(expectErr: Diag, sp: Span, tk: TokenKind): Diag {
    expectErr.(children := expectErr.children + [Help(sp, "missing `" + Display(tk) + "`")])
  }

  /** The last diagnostic event is an emission. */
  predicate EndsWithEmitted(log: seq<DiagEvent>) {
    |log| > 0 && log[|log| - 1].Emitted?
  }

  /**
   * What every run of the loop guarantees, from a state whose log was
   * `log0` and with items `v` already parsed: no diagnostic is lost, a
   * recovery is never reported, the items already parsed are kept, a
   * trailing separator is reported only when allowed, right after that
   * separator and before a terminator, and an error-free run ends before a
   * terminator, an unrelated closing delimiter or end of input, or right
   * after emitting the separator error that made it give up.
   */
  ghost predicate Settled<T>(log0: seq<DiagEvent>, v: seq<T>, kets: seq<TokenKind>, sep: SeqSep,
                       r: (PResult<SeqResult<T>>, State)) {
    && log0 <= r.1.log
    && (r.0.Ok? ==>
          && !r.0.value.recovered
          && v <= r.0.value.items
          && (r.0.value.trailing ==>
                && sep.trailingSepAllowed && sep.sep.Some?
                && r.1.prev.kind == sep.sep.value && r.1.token.kind in kets)
          && (!r.0.value.trailing ==>
                || r.1.token.kind in kets || r.1.token.kind.CloseDelim? || r.1.token.kind == Eof
                || EndsWithEmitted(r.1.log)))
  }

  /*
   * The loop of `parse_seq_to_before_tokens`, one function per part of its
   * body; each part continues with the next, and the last one with the loop
   * head again. `first` is the loop's flag, which only a separator clears.
   */

  /** The loop head: stop before a terminator, an unrelated closing delimiter or end of input. */
  function SeqLoop<T>(s: State, kets: seq<TokenKind>, sep: SeqSep, f: ElemParser<T>, sess: Session,
                      first: bool, v: seq<T>): (r: (PResult<SeqResult<T>>, State))
    requires WF(s) && (first || Fresh(s))
    ensures Settled(s.log, v, kets, sep, r)
    decreases Measure(s), 3
  {
    var (hit, s1) := ExpectAny(s, kets);
    if hit then (Ok(SeqResult(v, false, false)), s1)
    else if s1.token.kind.CloseDelim? || s1.token.kind == Eof then (Ok(SeqResult(v, false, false)), s1)
    else SepStep(s1, kets, sep, f, sess, first, v)
  }

  /**
   * The separator before an element (none before the first): consume it,
   * stop with the error when a trailing separator is required, or try the
   * element without it.
   */
  function SepStep<T>(s: State, kets: seq<TokenKind>, sep: SeqSep, f: ElemParser<T>, sess: Session,
                      first: bool, v: seq<T>): (r: (PResult<SeqResult<T>>, State))
    requires WF(s) && (first || Fresh(s))
    requires s.token.kind != Eof && s.token.kind !in kets
    ensures Settled(s.log, v, kets, sep, r)
    decreases Measure(s), 2
  {
    if sep.sep.None? then ElemStep(s, kets, sep, f, sess, first, v)
    else if first then ElemStep(s, kets, sep, f, sess, false, v)
    else
      var tk := sep.sep.value;
      var (res, s1) := Expect(s, tk, sess);
      match res
      case Ok(recovered) =>
        if recovered then (Ok(SeqResult(v, false, true)), s1)
        else
          BumpKeepsWF(s);
          ElemStep(s1, kets, sep, f, sess, false, v)
      case Err(expectErr) =>
        if sep.trailingSepRequired then (Err(expectErr), s1)
        else
          ReportKeepsWF(s);
          MissingSepStep(s1, expectErr, tk, kets, sep, f, sess, v)
  }

  /**
   * After the separator `tk` was not found: if an element parses anyway,
   * only the separator was missing, so the error is emitted with a help
   * note and the loop goes on; otherwise the element's error is cancelled,
   * its notes move to the separator error, and the loop stops, with that
   * error before a colon or in a parenthesised list and after emitting it
   * elsewhere.
   */
  function MissingSepStep<T>(s: State, expectErr: Diag, tk: TokenKind, kets: seq<TokenKind>, sep: SeqSep,
                             f: ElemParser<T>, sess: Session, v: seq<T>): (r: (PResult<SeqResult<T>>, State))
    requires WF(s) && s.token.kind != Eof
    ensures Settled(s.log, v, kets, sep, r)
    decreases Measure(s), 1
  {
    var sp := s.prev.span.ShrinkToHi();
    var (fr, s2) := RunElem(s, f);
    match fr
    case Ok(t) =>
      var s3 := Emit(s2, MissingSepHelp(expectErr, sp, tk));
      var r := SeqLoop(s3, kets, sep, f, sess, false, v + [t]);
      assert s.log <= s3.log;
      r
    case Err(e) =>
      var combined := expectErr.(children := expectErr.children + e.children);
      var s3 := Cancel(s2, e);
      if s3.token.kind == Colon then (Err(combined), s3)
      else if kets == [CloseDelim(Parenthesis)] then (Err(combined), s3)
      else (Ok(SeqResult(v, false, false)), Emit(s3, combined))
  }

  /**
   * Stop after a trailing separator when that is allowed; otherwise parse
   * one element, propagate its error, or keep it and go back to the loop
   * head. The current token is not a terminator unless a separator was
   * just consumed.
   */
  function ElemStep<T>(s: State, kets: seq<TokenKind>, sep: SeqSep, f: ElemParser<T>, sess: Session,
                       first: bool, v: seq<T>): (r: (PResult<SeqResult<T>>, State))
    requires WF(s)
    requires s.token.kind !in kets || (sep.sep.Some? && s.prev.kind == sep.sep.value)
    ensures Settled(s.log, v, kets, sep, r)
    decreases 2 * |s.rest| + 1, 0
  {
    var (trailing, s1) := if sep.trailingSepAllowed then ExpectAny(s, kets) else (false, s);
    if trailing then (Ok(SeqResult(v, true, false)), s1)
    else
      var (er, s2) := RunElem(s1, f);
      if er.Err? then (Err(er.err), s2)
      else SeqLoop(s2, kets, sep, f, sess, first, v + [er.value])
  }

  /** Parses a sequence up to, not including, one of the terminators `kets`. */
  function SeqToBeforeTokens<T>(s: State, kets: seq<TokenKind>, sep: SeqSep, f: ElemParser<T>,
                                sess: Session): (PResult<SeqResult<T>>, State)
    requires WF(s)
  {
    SeqLoop(s, kets, sep, f, sess, true, [])
  }

  function SeqToBeforeEnd<T>(s: State, ket: TokenKind, sep: SeqSep, f: ElemParser<T>,
                             sess: Session): (PResult<SeqResult<T>>, State)
    requires WF(s)
  {
    SeqToBeforeTokens(s, [ket], sep, f, sess)
  }

  /** Parses a sequence and then eats its terminator, unless the loop reported a recovery. */
  function SeqToEnd<T>(s: State, ket: TokenKind, sep: SeqSep, f: ElemParser<T>,
                       sess: Session): (PResult<(seq<T>, bool)>, State)
    requires WF(s)
  {
    var (res, s1) := SeqToBeforeEnd(s, ket, sep, f, sess);
    if res.Err? then (Err(res.err), s1)
    else
      var s2 := if !res.value.recovered then Eat(s1, ket).1 else s1;
      (Ok((res.value.items, res.value.trailing)), s2)
  }

  /** Parses `bra`, the sequence, and `ket`; a missing `bra` is a hard failure. */
  function UnspannedSeq<T>(s: State, bra: TokenKind, ket: TokenKind, sep: SeqSep, f: ElemParser<T>,
                           sess: Session): (PResult<(seq<T>, bool)>, State)
    requires WF(s) && (s.expected == [] || CanReport(s, [bra]))
  {
    var (res, s1) := Expect(s, bra, sess);
    if res.Err? then (Err(res.err), s1)
    else
      BumpKeepsWF(s);
      SeqToEnd(s1, ket, sep, f, sess)
  }

  function DelimSeq<T>(s: State, delim: Delimiter, sep: SeqSep, f: ElemParser<T>,
                       sess: Session): (PResult<(seq<T>, bool)>, State)
    requires WF(s) && (s.expected == [] || CanReport(s, [OpenDelim(delim)]))
  {
    UnspannedSeq(s, OpenDelim(delim), CloseDelim(delim), sep, f, sess)
  }

  function DelimCommaSeq<T>(s: State, delim: Delimiter, f: ElemParser<T>,
                            sess: Session): (PResult<(seq<T>, bool)>, State)
    requires WF(s) && (s.expected == [] || CanReport(s, [OpenDelim(delim)]))
  {
    DelimSeq(s, delim, TrailingDisallowed(Comma), f, sess)
  }

  function ParenCommaSeq<T>(s: State, f: ElemParser<T>, sess: Session): (PResult<(seq<T>, bool)>, State)
    requires WF(s) && (s.expected == [] || CanReport(s, [OpenDelim(Parenthesis)]))
  {
    DelimCommaSeq(s, Parenthesis, f, sess)
  }

  /** A comma-separated sequence with no delimiters, ending before `stop`. */
  function NodelimCommaSeq<T>(s: State, stop: TokenKind, f: ElemParser<T>,
                              sess: Session): (PResult<(seq<T>, bool)>, State)
    requires WF(s)
  {
    var (res, s1) := SeqToBeforeEnd(s, stop, TrailingDisallowed(Comma), f, sess);
    if res.Err? then (Err(res.err), s1)
    else (Ok((res.value.items, res.value.trailing)), s1)
  }
}
