/**
 * What the identifier and path parsers do on concrete inputs: reserved
 * words, a stray comma, and a dotted path read segment by segment.
 */
module IdentFacts {
  import opened Tokens
  import opened Diagnostics
  import opened Cursor
  import opened IdentParser
  import Ast
  import SeqFacts

  /** A reserved word is reported and accepted when recovering, and is an error that consumes nothing otherwise. */
  lemma ReservedWordHandling(s: State, sess: Session)
    requires s.token.kind.Ident? && sess.reserved(s.token.kind.sym, s.inYul)
    ensures ParseIdentCommon(s, true, sess) == (Ok(Ast.Ident(s.token.kind.sym, s.token.span)), Bump(Emit(s, NotIdentDiag(s))))
    ensures ParseIdentCommon(s, false, sess) == (Err(NotIdentDiag(s)), s)
  {
    assert !StrayComma(s);
  }

  /** An identifier that is not reserved is read and consumed without any diagnostic. */
  lemma UnreservedIdentRead(s: State, recover: bool, sess: Session)
    requires s.token.kind.Ident? && !sess.reserved(s.token.kind.sym, s.inYul)
    ensures ParseIdentCommon(s, recover, sess) == (Ok(Ast.Ident(s.token.kind.sym, s.token.span)), Bump(s))
  {
  }

  /**
   * Before a comma followed by an identifier, recovery skips the comma,
   * emits the error with its "remove this comma" note first, and reads the
   * identifier; without recovery the annotated error is returned and nothing
   * moves.
   */
  lemma StrayCommaSkipped(s: State, sess: Session)
    requires StrayComma(s)
    ensures var b := Bump(s);
      var (res, t) := ParseIdentCommon(s, true, sess);
      && b.token.kind.Ident?
      && res == Ok(Ast.Ident(b.token.kind.sym, b.token.span))
      && t.prev == b.token && t.token == Bump(b).token && t.rest == Bump(b).rest
      && s.log + [Emitted(RemoveCommaDiag(s))] <= t.log
    ensures ParseIdentCommon(s, false, sess) == (Err(RemoveCommaDiag(s)), s)
  {
    LookAheadPredictsBump(s, 0);
    var b := Bump(s);
    var b1 := Emit(b, RemoveCommaDiag(s));
    if sess.reserved(b.token.kind.sym, s.inYul) {
      assert ParseIdentCommon(s, true, sess).1 == Bump(Emit(b1, NotIdentDiag(b1)));
    }
  }

  /** The path after the first segment: `. y0 . y1 ...` from look-ahead distance `k`, then no dot. */
  predicate DotNamesAt(s: State, ys: seq<Symbol>, k: nat)
    decreases |ys|
  {
    if ys == [] then LookAhead(s, k).kind != Dot
    else LookAhead(s, k).kind == Dot && LookAhead(s, k + 1).kind == Ident(ys[0]) && DotNamesAt(s, ys[1..], k + 2)
  }

  /** After one advance, what was `k + 1` ahead is `k` ahead. */
  lemma {:induction false} DotNamesShift(s: State, ys: seq<Symbol>, k: nat)
    requires DotNamesAt(s, ys, k + 1)
    ensures DotNamesAt(Bump(s), ys, k)
    decreases |ys|
  {
    LookAheadPredictsBump(s, k);
    if ys != [] {
      LookAheadPredictsBump(s, k + 1);
      DotNamesShift(s, ys[1..], k + 2);
    }
  }

  /** Look-ahead depends on the cursor only. */
  lemma DotNamesSameCursor(s: State, u: State, ys: seq<Symbol>, k: nat)
    requires DotNamesAt(s, ys, k) && s.token == u.token && s.rest == u.rest
    ensures DotNamesAt(u, ys, k)
    decreases |ys|
  {
    if ys != [] {
      DotNamesSameCursor(s, u, ys[1..], k + 2);
    }
  }

  lemma LookAheadSameCursor(s: State, u: State, n: nat)
    requires s.token == u.token && s.rest == u.rest
    ensures LookAhead(s, n) == LookAhead(u, n)
  {
  }

  lemma NamesAppend(ids: seq<Ast.Ident>, id: Ast.Ident)
    ensures Ast.Names(ids + [id]) == Ast.Names(ids) + [id.name]
  {
  }

  /** Two advances look two tokens further. */
  lemma LookAheadTwice(s: State, n: nat)
    ensures LookAhead(Bump(Bump(s)), n).kind == LookAhead(s, n + 2).kind
  {
    LookAheadPredictsBump(Bump(s), n);
    LookAheadPredictsBump(s, n + 1);
  }

  /** At a dot followed by a name, the loop reads that name as the next segment and goes on after it. */
  lemma PathStep(s: State, path: seq<Ast.Ident>, rule: IdentRule, sess: Session)
    requires s.token.kind == Dot && LookAhead(s, 1).kind.Ident?
    ensures var (seg, t) := ParseSegment(Bump(s), rule, sess);
      && seg.Ok? && seg.value.name == LookAhead(s, 1).kind.sym
      && t.token == Bump(Bump(s)).token && t.rest == Bump(Bump(s)).rest
      && PathLoop(s, path, rule, sess) == PathLoop(t, path + [seg.value], rule, sess)
  {
    LookAheadPredictsBump(s, 0);
  }

  /** Past a `. y0` pair, the rest of the path lies ahead. */
  lemma DotNamesAdvance(s: State, t: State, ys: seq<Symbol>)
    requires ys != [] && DotNamesAt(s, ys, 0)
    requires t.token == Bump(Bump(s)).token && t.rest == Bump(Bump(s)).rest
    ensures DotNamesAt(t, ys[1..], 0)
    ensures LookAhead(t, 2 * |ys[1..]|).kind == LookAhead(s, 2 * |ys|).kind
  {
    DotNamesShift(s, ys[1..], 1);
    DotNamesShift(Bump(s), ys[1..], 0);
    DotNamesSameCursor(Bump(Bump(s)), t, ys[1..], 0);
    var n := 2 * |ys[1..]|;
    LookAheadTwice(s, n);
    LookAheadSameCursor(Bump(Bump(s)), t, n);
    assert n + 2 == 2 * |ys|;
  }

  /** A `. y0` pair is read as segment `y0`, and the rest of the path lies ahead of the new position. */
  lemma PathPair(s: State, path: seq<Ast.Ident>, rule: IdentRule, sess: Session, ys: seq<Symbol>)
    requires ys != [] && DotNamesAt(s, ys, 0)
    ensures var (seg, t) := ParseSegment(Bump(s), rule, sess);
      && seg.Ok? && seg.value.name == ys[0] && DotNamesAt(t, ys[1..], 0)
      && PathLoop(s, path, rule, sess) == PathLoop(t, path + [seg.value], rule, sess)
      && LookAhead(t, 2 * |ys[1..]|).kind == LookAhead(s, 2 * |ys|).kind
  {
    PathStep(s, path, rule, sess);
    var (seg, t) := ParseSegment(Bump(s), rule, sess);
    DotNamesAdvance(s, t, ys);
  }

  /** The path loop reads one segment per `. name` pair and stops at the first token that is not a dot. */
  lemma {:induction false} PathLoopReads(s: State, path: seq<Ast.Ident>, rule: IdentRule, sess: Session, ys: seq<Symbol>)
    requires DotNamesAt(s, ys, 0)
    ensures var (res, t) := PathLoop(s, path, rule, sess);
      res.Ok? && Ast.Names(res.value.segments) == Ast.Names(path) + ys
      && t.token.kind == LookAhead(s, 2 * |ys|).kind
    decreases |ys|
  {
    if ys == [] {
      assert LookAhead(s, 0) == s.token;
      assert Ast.Names(path) + ys == Ast.Names(path);
    } else {
      PathPair(s, path, rule, sess, ys);
      var (seg, t) := ParseSegment(Bump(s), rule, sess);
      PathLoopReads(t, path + [seg.value], rule, sess, ys[1..]);
      NamesAppend(path, seg.value);
      SeqFacts.AppendHead(Ast.Names(path), ys);
    }
  }

  /**
   * `first . y0 . y1 ...` followed by a token that is not a dot is read as
   * the path of those names, whichever identifier rule the segments use,
   * and the cursor stops on that token.
   */
  lemma PathRoundTrip(s: State, first: Ast.Ident, rule: IdentRule, sess: Session, ys: seq<Symbol>)
    requires DotNamesAt(s, ys, 0)
    ensures var (res, t) := ParsePathWithF(s, first, rule, sess);
      res.Ok? && Ast.Names(res.value.segments) == [first.name] + ys
      && t.token.kind == LookAhead(s, 2 * |ys|).kind
  {
    if ys == [] {
      assert Ast.Names([first]) == [first.name];
    } else {
      PathLoopReads(s, [first], rule, sess, ys);
    }
  }
}
