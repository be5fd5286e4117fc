/**
 * The "a, b, or c" rendering of a list of expectations.
 */
module OrLists {

  /** The items joined by ", ". */
  function Joined(items: seq<string>): string
  {
    if |items| == 0 then ""
    else if |items| == 1 then items[0]
    else Joined(items[..|items| - 1]) + ", " + items[|items| - 1]
  }

  /**
   * The English disjunction of the items: nothing for none, the item itself
   * for one, "a or b" for two, and "a, b, or c" (with the serial comma) for
   * three or more.
   */
  function OrListText(items: seq<string>): string
  {
    var n := |items|;
    if n <= 1 then Joined(items)
    else if n == 2 then items[0] + " or " + items[1]
    else Joined(items[..n - 1]) + ", or " + items[n - 1]
  }

  /** Builds the disjunction by appending each item after its separator. */
  method OrList(list: seq<string>) returns (s: string)
    ensures s == OrListText(list)
  {
    var len := |list|;
    s := "";
    var i := 0;
    while i < len
      invariant 0 <= i <= len
      invariant s == if i < len || len <= 1 then Joined(list[..i]) else OrListText(list)
    {
      if i > 0 {
        var isLast := i == len - 1;
        s := s + if len > 2 && isLast then ", or "
                 else if len == 2 && isLast then " or "
                 else ", ";
      }
      assert list[..i + 1][..i] == list[..i];
      s := s + list[i];
      i := i + 1;
    }
    assert list[..len] == list;
  }

  /** The rendering table the source checks its implementation against: up to two items. */
  lemma OrListTableShort()
    ensures OrListText([]) == ""
    ensures OrListText(["`<eof>`"]) == "`<eof>`"
    ensures OrListText(["integer", "identifier"]) == "integer or identifier"
  {
  }

  /** The rendering table's three-item row: a serial comma before "or". */
  lemma OrListTableThree()
    ensures OrListText(["path", "string literal", "`&&`"]) == "path, string literal, or `&&`"
  {
    var three := ["path", "string literal", "`&&`"];
    assert three[..2] == ["path", "string literal"];
    assert ["path", "string literal"][..1] == ["path"];
    assert Joined(["path", "string literal"]) == "path, string literal";
  }

  /** The rendering table's four-item row: repeated items are kept. */
  lemma OrListTableFour()
    ensures OrListText(["`&&`", "`||`", "`&&`", "`||`"]) == "`&&`, `||`, `&&`, or `||`"
  {
    var four := ["`&&`", "`||`", "`&&`", "`||`"];
    assert four[..3] == ["`&&`", "`||`", "`&&`"];
    assert ["`&&`", "`||`", "`&&`"][..2] == ["`&&`", "`||`"];
    assert ["`&&`", "`||`"][..1] == ["`&&`"];
    assert Joined(["`&&`", "`||`"]) == "`&&`, `||`";
    assert Joined(["`&&`", "`||`", "`&&`"]) == "`&&`, `||`, `&&`";
  }

  /** `needle` occurs in `hay` at position `p`. */
  predicate OccursAt(hay: string, needle: string, p: nat)
  {
    p + |needle| <= |hay| && hay[p..p + |needle|] == needle
  }

  /** Every item occurs in the joined text, so no expectation is lost from a message. */
  lemma {:induction false} JoinedMentionsAll(items: seq<string>, i: nat)
    requires i < |items|
    ensures exists p :: OccursAt(Joined(items), items[i], p)
    decreases |items|
  {
    var n := |items|;
    var j := Joined(items);
    if n == 1 {
      assert OccursAt(j, items[i], 0);
    } else if i == n - 1 {
      var pre := Joined(items[..n - 1]) + ", ";
      assert j == pre + items[n - 1];
      assert OccursAt(j, items[i], |pre|);
    } else {
      JoinedMentionsAll(items[..n - 1], i);
      var p :| OccursAt(Joined(items[..n - 1]), items[..n - 1][i], p);
      assert j == Joined(items[..n - 1]) + (", " + items[n - 1]);
      assert OccursAt(j, items[i], p);
    }
  }

  /** Every item occurs in the disjunction. */
  lemma OrListMentionsAll(items: seq<string>, i: nat)
    requires i < |items|
    ensures exists p :: OccursAt(OrListText(items), items[i], p)
  {
    var n := |items|;
    var t := OrListText(items);
    if n <= 1 {
      JoinedMentionsAll(items, i);
    } else if n == 2 {
      if i == 0 {
        assert OccursAt(t, items[i], 0);
      } else {
        assert OccursAt(t, items[i], |items[0] + " or "|);
      }
    } else if i == n - 1 {
      var pre := Joined(items[..n - 1]) + ", or ";
      assert t == pre + items[n - 1];
      assert OccursAt(t, items[i], |pre|);
    } else {
      JoinedMentionsAll(items[..n - 1], i);
      var p :| OccursAt(Joined(items[..n - 1]), items[..n - 1][i], p);
      assert t == Joined(items[..n - 1]) + (", or " + items[n - 1]);
      assert OccursAt(t, items[i], p);
    }
  }
}
