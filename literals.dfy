/** SQL keywords with optional surrounding spaces (dcorm/literal.py). */
module Literals {
  /** A keyword and whether a space goes before and after it when rendered. */
  datatype Literal = Literal(keyword: string, spaceLeft: bool := false, spaceRight: bool := false)

  /** Number of characters placed before the keyword. */
  function Lead(l: Literal): nat {
    if l.spaceLeft then 1 else 0
  }

  /**
   * `str(literal)`: the keyword, with one space before it exactly when
   * `spaceLeft` holds and one space after it exactly when `spaceRight` holds.
   */
  function Render(l: Literal): (r: string)
    ensures |r| == Lead(l) + |l.keyword| + (if l.spaceRight then 1 else 0)
    ensures r[Lead(l)..Lead(l) + |l.keyword|] == l.keyword
    ensures l.spaceLeft ==> r[0] == ' '
    ensures l.spaceRight ==> r[|r| - 1] == ' '
  {
    if l.spaceLeft then
      if l.spaceRight then " " + l.keyword + " " else " " + l.keyword
    else if l.spaceRight then l.keyword + " "
    else l.keyword
  }

  /** A keyword used between two operands: spaced on both sides. */
  function Binary(keyword: string): (l: Literal)
    ensures l.keyword == keyword && l.spaceLeft && l.spaceRight
  {
    Literal(keyword, spaceLeft := true, spaceRight := true)
  }

  /** A keyword used before an operand: spaced on the right only. */
  function Unary(keyword: string): (l: Literal)
    ensures l.keyword == keyword && !l.spaceLeft && l.spaceRight
  {
    Literal(keyword, spaceRight := true)
  }

  lemma BinaryRendersSpaced(keyword: string)
    ensures Render(Binary(keyword)) == " " + keyword + " "
  {
  }

  lemma UnaryRendersTrailingSpace(keyword: string)
    ensures Render(Unary(keyword)) == keyword + " "
  {
  }

  /** The rendered text holds a percent sign only where the keyword does. */
  lemma RenderAddsNoPercent(l: Literal)
    requires forall i :: 0 <= i < |l.keyword| ==> l.keyword[i] != '%'
    ensures forall i :: 0 <= i < |Render(l)| ==> Render(l)[i] != '%'
  {
    var r := Render(l);
    forall i | 0 <= i < |r|
      ensures r[i] != '%'
    {
      if Lead(l) <= i < Lead(l) + |l.keyword| {
        assert r[i] == r[Lead(l)..Lead(l) + |l.keyword|][i - Lead(l)];
      }
    }
  }
}
