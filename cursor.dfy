/**
 * The token cursor as a value: the current and previous token, the tokens
 * not yet consumed, and the rest of the parser's mutable state. Every
 * operation of the engine is modelled as a function from one `State` to the
 * next; the `Parser` class implements them by updating fields.
 */
module Cursor {
  import opened Wrappers
  import opened Tokens
  import opened Expected
  import opened Diagnostics

  datatype State = State(
    token: Token,                          // the current token
    prev: Token,                           // the token before it
    expected: seq<ExpectedToken>,          // expectations recorded since the last advance
    lastUnexpected: Option<Span>,          // span of the last "not found" failure
    inYul: bool,
    inContract: bool,
    rest: seq<Token>,                      // tokens not yet taken from the stream
    log: seq<DiagEvent>)                   // diagnostics emitted or cancelled so far

  /** The lexer strips comments before parsing. */
  predicate NoComments(tokens: seq<Token>) {
    forall i :: 0 <= i < |tokens| ==> tokens[i].kind != Comment
  }

  /** The state before the first advance. */
  function Start(tokens: seq<Token>): State {
    State(DUMMY, DUMMY, [], None, false, false, tokens, [])
  }

  /** The token the stream yields next, anchored on the current span if its own is dummy. */
  function NextToken(s: State): Token {
    var next := if s.rest == [] then EOF else s.rest[0];
    if next.span.IsDummy() then next.(span := s.token.span) else next
  }

  /** Shifts `next` in as the current token and forgets the expectations. */
  function BumpWith(s: State, next: Token): (r: State)
    ensures r.token == next && r.prev == s.token && r.expected == []
    ensures r.rest == s.rest && r.lastUnexpected == s.lastUnexpected && r.log == s.log
    ensures r.inYul == s.inYul && r.inContract == s.inContract
  {
    s.(prev := s.token, token := next, expected := [])
  }

  /** The number of advances that can still change the current token, doubled. */
  function Measure(s: State): nat {
    2 * |s.rest| + if s.token.kind == Eof then 0 else 1
  }

  /**
   * Advances by one token: the current token becomes the previous one, the
   * expectations are cleared, and end of input is reached once the stream is
   * exhausted. A token without a real span takes the current token's span.
   */
  function Bump(s: State): (r: State)
    ensures r.prev == s.token && r.expected == []
    ensures s.rest == [] ==> r.token.kind == Eof && r.rest == []
    ensures s.rest != [] ==> r.token.kind == s.rest[0].kind && r.rest == s.rest[1..]
    ensures s.rest == [] || s.rest[0].span.IsDummy() ==> r.token.span == s.token.span
    ensures s.rest != [] && !s.rest[0].span.IsDummy() ==> r.token == s.rest[0]
    ensures r.lastUnexpected == s.lastUnexpected && r.log == s.log
    ensures r.inYul == s.inYul && r.inContract == s.inContract
    ensures Measure(r) <= Measure(s) && Measure(r) < 2 * |s.rest| + 1
    ensures s.token.kind != Eof ==> Measure(r) < Measure(s)
  {
    var r := BumpWith(s, NextToken(s));
    r.(rest := if s.rest == [] then [] else s.rest[1..])
  }

  /** `n` advances in a row: what an element parser that consumes `n` tokens does to the cursor. */
  function BumpN(s: State, n: nat): (r: State)
    ensures n >= 1 ==> r.expected == []
    ensures r.lastUnexpected == s.lastUnexpected && r.log == s.log
    ensures r.inYul == s.inYul && r.inContract == s.inContract
    ensures Measure(r) <= Measure(s)
    ensures n >= 1 ==> Measure(r) < 2 * |s.rest| + 1
    ensures n >= 1 && s.token.kind != Eof ==> Measure(r) < Measure(s)
    decreases n
  {
    if n == 0 then s else BumpN(Bump(s), n - 1)
  }

  /** The freshly constructed parser: the placeholder state advanced once. */
  function New(tokens: seq<Token>): (s: State)
    requires NoComments(tokens)
    ensures s.prev == DUMMY
    ensures tokens == [] ==> s.token.kind == Eof && s.rest == []
    ensures tokens != [] ==> s.token.kind == tokens[0].kind && s.rest == tokens[1..]
    ensures tokens != [] && !tokens[0].span.IsDummy() ==> s.token == tokens[0]
    ensures s.expected == [] && s.lastUnexpected == None && s.log == []
    ensures !s.inYul && !s.inContract
  {
    Bump(Start(tokens))
  }

  /**
   * The token `dist` positions ahead: the current one for 0, otherwise the
   * stream's token `dist - 1` or, past its end, the end-of-input token.
   */
  function LookAhead(s: State, dist: nat): (t: Token)
    ensures dist == 0 ==> t == s.token
    ensures 1 <= dist <= |s.rest| ==> t == s.rest[dist - 1]
    ensures dist > |s.rest| ==> t == EOF
  {
    if dist == 0 then s.token
    else if dist - 1 < |s.rest| then s.rest[dist - 1]
    else EOF
  }

  /** Looking `n + 1` ahead shows the kind that the current token has after one advance, `n` ahead. */
  lemma LookAheadPredictsBump(s: State, n: nat)
    ensures LookAhead(Bump(s), n).kind == LookAhead(s, n + 1).kind
  {
    if n > 0 && s.rest != [] {
      assert Bump(s).rest == s.rest[1..];
      if n <= |s.rest| - 1 {
        assert LookAhead(Bump(s), n) == s.rest[1..][n - 1] == s.rest[n];
      }
    }
  }

  /**
   * Every token in `ts` has a real span that is not in `banned` and not
   * repeated later in `ts`.
   */
  predicate SpansFresh(ts: seq<Token>, banned: set<Span>)
    decreases |ts|
  {
    ts == [] ||
    (!ts[0].span.IsDummy() && ts[0].span !in banned && SpansFresh(ts[1..], banned + {ts[0].span}))
  }

  /** Banning fewer spans keeps a stream fresh. */
  lemma {:induction false} SpansFreshMono(ts: seq<Token>, banned: set<Span>, fewer: set<Span>)
    requires SpansFresh(ts, banned) && fewer <= banned
    ensures SpansFresh(ts, fewer)
    decreases |ts|
  {
    if ts != [] {
      SpansFreshMono(ts[1..], banned + {ts[0].span}, fewer + {ts[0].span});
    }
  }

  /** A fresh stream has real, pairwise distinct spans, none of them banned. */
  lemma {:induction false} SpansFreshMeans(ts: seq<Token>, banned: set<Span>)
    requires SpansFresh(ts, banned)
    ensures forall i :: 0 <= i < |ts| ==> !ts[i].span.IsDummy() && ts[i].span !in banned
    ensures forall i, j :: 0 <= i < j < |ts| ==> ts[i].span != ts[j].span
    decreases |ts|
  {
    if ts != [] {
      SpansFreshMeans(ts[1..], banned + {ts[0].span});
      forall i, j | 0 <= i < j < |ts|
        ensures ts[i].span != ts[j].span
      {
        if i > 0 {
          assert ts[i].span == ts[1..][i - 1].span;
        }
        assert ts[j].span == ts[1..][j - 1].span;
      }
    }
  }

  /** The spans that the stream's tokens must avoid: the current token's and the last reported one. */
  function Banned(s: State): set<Span> {
    {s.token.span} + if s.lastUnexpected.Some? then {s.lastUnexpected.value} else {}
  }

  /**
   * Spans are well formed for diagnostics: every token still in the stream
   * has a real span, the spans are pairwise distinct, and neither the
   * current token nor the last "not found" failure shares one of them.
   * The lexer's output satisfies this when it starts.
   */
  predicate WF(s: State) {
    SpansFresh(s.rest, Banned(s))
  }

  /** The current token has not been reported as unexpected yet (end of input may be reported again). */
  predicate Fresh(s: State) {
    s.token.kind == Eof || s.lastUnexpected != Some(s.token.span)
  }

  /** Advancing keeps spans well formed and arrives at a token not yet reported. */
  lemma BumpKeepsWF(s: State)
    requires WF(s)
    ensures WF(Bump(s)) && Fresh(Bump(s))
  {
    if s.rest != [] {
      var r := Bump(s);
      assert r.token == s.rest[0];
      assert r.rest == s.rest[1..];
      SpansFreshMono(s.rest[1..], Banned(s) + {s.rest[0].span}, Banned(r));
    }
  }

  lemma {:induction false} BumpNKeepsWF(s: State, n: nat)
    requires WF(s)
    ensures WF(BumpN(s, n))
    ensures n >= 1 ==> Fresh(BumpN(s, n))
    decreases n
  {
    if n > 0 {
      BumpKeepsWF(s);
      BumpNKeepsWF(Bump(s), n - 1);
    }
  }

  /** Recording a "not found" failure at the current token keeps spans well formed. */
  lemma ReportKeepsWF(s: State)
    requires WF(s)
    ensures WF(s.(lastUnexpected := Some(s.token.span)))
  {
    var r := s.(lastUnexpected := Some(s.token.span));
    SpansFreshMono(s.rest, Banned(s), Banned(r));
  }

  /** Emits a diagnostic. */
  function Emit(s: State, d: Diag): State {
    s.(log := s.log + [Emitted(d)])
  }

  /** Cancels a diagnostic. */
  function Cancel(s: State, d: Diag): State {
    s.(log := s.log + [Cancelled(d)])
  }
}
