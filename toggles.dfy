/**
 * The context toggles: run a nested parse with the contract or Yul flag
 * set, and put the previous value back afterwards, whatever the nested
 * parse returned.
 */
module Toggles {
  import opened Tokens
  import opened Diagnostics
  import opened Cursor
  import opened IdentParser
  import Ast

  /** A nested parse: a result and the state it leaves behind. */
  type Nested<R> = State -> (R, State)

  /** Runs `f` in a contract context. */
  function InContract<R>(s: State, f: Nested<R>): (r: (R, State))
    ensures r.1.inContract == s.inContract
    ensures var (res, t) := f(s.(inContract := true)); r.0 == res && r.1.(inContract := true) == t.(inContract := true)
  {
    var saved := s.inContract;
    var (res, s1) := f(s.(inContract := true));
    (res, s1.(inContract := saved))
  }

  /** Runs `f` in a Yul context. */
  function InYul<R>(s: State, f: Nested<R>): (r: (R, State))
    ensures r.1.inYul == s.inYul
    ensures var (res, t) := f(s.(inYul := true)); r.0 == res && r.1.(inYul := true) == t.(inYul := true)
  {
    var saved := s.inYul;
    var (res, s1) := f(s.(inYul := true));
    (res, s1.(inYul := saved))
  }

  /** A Yul context inside a Yul context behaves as the inner one alone. */
  lemma NestedYulIsYul<R>(s: State, f: Nested<R>)
    ensures InYul(s, t => InYul(t, f)) == InYul(s, f)
  {
    var s1 := s.(inYul := true);
    var (res, t) := f(s1);
    assert InYul(s1, f) == (res, t.(inYul := true));
  }

  /** The two toggles are independent: their order does not matter. */
  lemma TogglesCommute<R>(s: State, f: Nested<R>)
    ensures InYul(s, t => InContract(t, f)) == InContract(s, t => InYul(t, f))
  {
    var both := s.(inYul := true, inContract := true);
    assert s.(inYul := true).(inContract := true) == both == s.(inContract := true).(inYul := true);
  }

  /** `parse_ident` inside a Yul context rejects exactly the words reserved in Yul, and leaves the flag as it was. */
  lemma IdentInYul(s: State, recover: bool, sess: Session)
    requires s.token.kind.Ident?
    ensures var (res, t) := InYul(s, u => ParseIdentCommon(u, recover, sess));
      && (res.Ok? <==> recover || !sess.reserved(s.token.kind.sym, true))
      && t.inYul == s.inYul
  {
  }
}
