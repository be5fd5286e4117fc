/**
 * Expectation records and the candidate list a "not found" diagnostic is
 * built from: filtered, sorted by rendering, and deduplicated.
 */
module Expected {
  import opened Tokens
  import opened Text
  import opened Sorting

  /**
   * What the parser would have accepted at the current position: an exact
   * token, a keyword, or an abstract category.
   */
  datatype ExpectedToken =
    | Exact(kind: TokenKind)
    | Keyword(kw: Symbol)
    | Lit
    | StrLit
    | VersionNumber
    | IdentName
    | PathName
    | ElementaryType

  /** A text enclosed in backquotes. */
  predicate Quoted(s: string) {
    |s| >= 2 && s[0] == '`' && s[|s| - 1] == '`'
  }

  /**
   * The text an expectation is shown with, which is also its sort key: a
   * token or keyword is shown quoted, a category by its description.
   */
  function Render(t: ExpectedToken): (r: string)
    ensures t.Exact? || t.Keyword? <==> Quoted(r)
  {
    match t
    case Exact(k) => "`" + Display(k) + "`"
    case Keyword(kw) => "`" + kw + "`"
    case StrLit => "string literal"
    case VersionNumber => "`*`, `X`, `x`, decimal integer literal"
    case Lit => "literal"
    case IdentName => "identifier"
    case PathName => "path"
    case ElementaryType => "elementary type name"
  }

  /** A keyword and the identifier token spelling it are different expectations shown alike. */
  lemma KeywordRendersLikeItsIdent(x: Symbol)
    ensures Render(Keyword(x)) == Render(Exact(Ident(x))) && Keyword(x) != Exact(Ident(x))
  {
  }

  function Renders(ts: seq<ExpectedToken>): (r: seq<string>)
    ensures |r| == |ts| && forall i :: 0 <= i < |ts| ==> r[i] == Render(ts[i])
  {
    if ts == [] then [] else [Render(ts[0])] + Renders(ts[1..])
  }

  /** Whether `t` expects exactly the token kind `other`. */
  function EqKind(t: ExpectedToken, other: TokenKind): (r: bool)
    ensures r <==> t == Exact(other)
  {
    match t
    case Exact(k) => k == other
    case _ => false
  }

  /** An identifier that spells the suggested keyword. */
  predicate IsIdentEqKeyword(found: TokenKind, expected: ExpectedToken) {
    found.Ident? && expected.Keyword? && found.sym == expected.kw
  }

  /** The filter applied to each candidate, in the shape of the source's closure. */
  predicate Keep(found: TokenKind, t: ExpectedToken) {
    if !EqKind(t, found) then
      var eq := IsIdentEqKeyword(found, t);
      if !eq then
        if t.Exact? && t.kind == found then false else true
      else false
    else false
  }

  /**
   * The filter drops exactly the suggestions of the found token itself and,
   * when an identifier was found, the keyword it spells.
   */
  lemma KeepDropsOnlyTheFoundToken(found: TokenKind, t: ExpectedToken)
    ensures Keep(found, t) <==> t != Exact(found) && !(found.Ident? && t == Keyword(found.sym))
  {
  }

  function Exacts(kinds: seq<TokenKind>): (r: seq<ExpectedToken>)
    ensures |r| == |kinds| && forall i :: 0 <= i < |kinds| ==> r[i] == Exact(kinds[i])
  {
    if kinds == [] then [] else [Exact(kinds[0])] + Exacts(kinds[1..])
  }

  /** The members of `Exacts(kinds)` are the exact expectations of the kinds listed. */
  lemma ExactsMembers(kinds: seq<TokenKind>)
    ensures forall x :: x in Exacts(kinds) <==> x.Exact? && x.kind in kinds
  {
    forall x ensures x in Exacts(kinds) <==> x.Exact? && x.kind in kinds {
      if x in Exacts(kinds) {
        var i :| 0 <= i < |kinds| && Exacts(kinds)[i] == x;
      }
      if x.Exact? && x.kind in kinds {
        var i :| 0 <= i < |kinds| && kinds[i] == x.kind;
        assert Exacts(kinds)[i] == x;
      }
    }
  }

  /** Keeps the candidates the closure accepts, in order. */
  function Filter(found: TokenKind, ts: seq<ExpectedToken>): (r: seq<ExpectedToken>)
    ensures |r| <= |ts|
  {
    if ts == [] then []
    else if Keep(found, ts[0]) then [ts[0]] + Filter(found, ts[1..])
    else Filter(found, ts[1..])
  }

  /** The kept entries are exactly the candidates the closure accepts. */
  lemma {:induction false} FilterMembers(found: TokenKind, ts: seq<ExpectedToken>)
    ensures forall x :: x in Filter(found, ts) <==> x in ts && Keep(found, x)
    decreases |ts|
  {
    if ts != [] {
      FilterMembers(found, ts[1..]);
      FilterCons(found, ts[0], ts[1..]);
      assert ts == [ts[0]] + ts[1..];
    }
  }

  /** Unfolds `Filter` on a list given as head and tail. */
  lemma FilterCons(found: TokenKind, x: ExpectedToken, ys: seq<ExpectedToken>)
    ensures Filter(found, [x] + ys) == (if Keep(found, x) then [x] else []) + Filter(found, ys)
  {
    assert ([x] + ys)[0] == x && ([x] + ys)[1..] == ys;
  }

  /**
   * Filtering distributes over concatenation; with the one-entry case this
   * says the kept entries stay in their order, repeats included.
   */
  lemma {:induction false} FilterAppend(found: TokenKind, a: seq<ExpectedToken>, b: seq<ExpectedToken>)
    ensures Filter(found, a + b) == Filter(found, a) + Filter(found, b)
    decreases |a|
  {
    if a != [] {
      FilterAppend(found, a[1..], b);
      assert a + b == [a[0]] + (a[1..] + b) && a == [a[0]] + a[1..];
      FilterCons(found, a[0], a[1..] + b);
      FilterCons(found, a[0], a[1..]);
    } else {
      assert a + b == b;
    }
  }

  /** Edible, then inedible, then the recorded expectations, minus the found token. */
  function Candidates(found: TokenKind, edible: seq<TokenKind>, inedible: seq<TokenKind>,
                      expected: seq<ExpectedToken>): seq<ExpectedToken>
  {
    Filter(found, Exacts(edible) + Exacts(inedible) + expected)
  }

  /** Which entries survive filtering, sorting and deduplication. */
  lemma CandidateMembers(found: TokenKind, edible: seq<TokenKind>, inedible: seq<TokenKind>,
                         expected: seq<ExpectedToken>)
    ensures forall x :: x in Dedup(SortBy(Candidates(found, edible, inedible, expected), Render)) <==>
      && ((x.Exact? && (x.kind in edible || x.kind in inedible)) || x in expected)
      && x != Exact(found)
      && !(found.Ident? && x == Keyword(found.sym))
  {
    var c := Candidates(found, edible, inedible, expected);
    FilterMembers(found, Exacts(edible) + Exacts(inedible) + expected);
    SortKeepsMembers(c, Render);
    ExactsMembers(edible);
    ExactsMembers(inedible);
    DedupMembers(SortBy(c, Render));
    forall x ensures Keep(found, x) <==> x != Exact(found) && !(found.Ident? && x == Keyword(found.sym)) {
      KeepDropsOnlyTheFoundToken(found, x);
    }
  }

  /**
   * The expectation list of a "not found" diagnostic: every explicit or
   * recorded expectation except the found token itself, sorted by its
   * rendering, with no entry repeated next to itself. Among entries shown
   * alike it keeps the candidates' order, merging only equal neighbours.
   */
  function ExpectedList(found: TokenKind, edible: seq<TokenKind>, inedible: seq<TokenKind>,
                        expected: seq<ExpectedToken>): (r: seq<ExpectedToken>)
    ensures forall x :: x in r <==>
      && ((x.Exact? && (x.kind in edible || x.kind in inedible)) || x in expected)
      && x != Exact(found)
      && !(found.Ident? && x == Keyword(found.sym))
    ensures SortedBy(r, Render) && NoAdjacentRepeats(r)
    ensures forall k :: WithKey(r, Render, k) == Dedup(WithKey(Candidates(found, edible, inedible, expected), Render, k))
    ensures |r| <= |edible| + |inedible| + |expected|
  {
    var c := Candidates(found, edible, inedible, expected);
    CandidateMembers(found, edible, inedible, expected);
    SortKeepsMembers(c, Render);
    DedupFacts(SortBy(c, Render), Render);
    SortDedupByKey(c, Render);
    Dedup(SortBy(c, Render))
  }

  /**
   * The contract above fixes the list: any list sorted by rendering that
   * has, under every rendering, the deduplicated candidates of that
   * rendering in their order is the expectation list.
   */
  lemma ExpectedListDetermined(found: TokenKind, edible: seq<TokenKind>, inedible: seq<TokenKind>,
                               expected: seq<ExpectedToken>, r: seq<ExpectedToken>)
    requires SortedBy(r, Render)
    requires forall k :: WithKey(r, Render, k) == Dedup(WithKey(Candidates(found, edible, inedible, expected), Render, k))
    ensures r == ExpectedList(found, edible, inedible, expected)
  {
    SortedByKeysUnique(r, ExpectedList(found, edible, inedible, expected), Render);
  }

  /**
   * A keyword recorded between two suggestions of the identifier token that
   * spells it is shown three times: the three are alike but no two equal
   * neighbours, so nothing is merged.
   */
  lemma ExpectedListKeepsSeparatedRepeats(x: Symbol)
    ensures ExpectedList(Comma, [Ident(x)], [], [Keyword(x), Exact(Ident(x))])
         == [Exact(Ident(x)), Keyword(x), Exact(Ident(x))]
  {
    var e, kw := Exact(Ident(x)), Keyword(x);
    var r := [e, kw, e];
    FilterCons(Comma, e, [kw, e]);
    FilterCons(Comma, kw, [e]);
    FilterCons(Comma, e, []);
    assert Exacts([Ident(x)]) + Exacts([]) + [kw, e] == r;
    assert Candidates(Comma, [Ident(x)], [], [kw, e]) == r;
    KeywordRendersLikeItsIdent(x);
    StrLeRefl(Render(e));
    assert SortedBy(r, Render);
    DedupKeepsNonAdjacent(r);
    forall k ensures WithKey(r, Render, k) == Dedup(WithKey(r, Render, k)) {
      WithKeyCons(e, [kw, e], Render, k);
      WithKeyCons(kw, [e], Render, k);
      WithKeyCons(e, [], Render, k);
      if Render(e) != k {
        assert WithKey(r, Render, k) == [];
      }
    }
    ExpectedListDetermined(Comma, [Ident(x)], [], [kw, e], r);
  }
}
