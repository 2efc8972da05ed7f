// The matplotlib line-style classifier `line(i, total)`: curve `i` of a
// family of `total` curves is drawn blue ("b-"), red ("r-") or green ("g-")
// depending on which side of the middle of the family it sits.
module LineStyle {

  const Blue: string := "b-"
  const Red: string := "r-"
  const Green: string := "g-"

  /** The median index of a family of `total` curves, by true division. */
  function Median(total: int): (m: real)
    ensures 2.0 * m == (total - 1) as real
  {
    (total - 1) as real / 2.0
  }

  /** The style of curve `i` among `total` curves. With exactly two curves the
      first is blue and every other index (Python truthiness of `i`) is red;
      otherwise indices more than half a step below the median are blue, more
      than half a step above it red, and the rest green. */
  function Line(i: int, total: int): (r: string)
    ensures r == Blue || r == Red || r == Green
  {
    if total == 2 then
      (if i != 0 then Red else Blue)
    else if (i as real) < Median(total) - 0.5 then Blue
    else if (i as real) > Median(total) + 0.5 then Red
    else Green
  }

  /** Exactly two curves: index 0 is blue, any other index red, never green. */
  lemma TwoLines(i: int)
    ensures Line(i, 2) == (if i == 0 then Blue else Red)
    ensures Line(i, 2) != Green
  {
  }

  /** Away from the two-curve case, the three styles are exactly the three
      bands around the real median. */
  lemma Bands(i: int, total: int)
    requires total != 2
    ensures Line(i, total) == Blue <==> (i as real) < Median(total) - 0.5
    ensures Line(i, total) == Red <==> (i as real) > Median(total) + 0.5
    ensures Line(i, total) == Green <==>
              Median(total) - 0.5 <= (i as real) <= Median(total) + 0.5
  {
  }

  /** The same bands stated over integers only: `2 i` against `total - 2` and
      `total`, with no real division. */
  lemma IntegerBands(i: int, total: int)
    requires total != 2
    ensures Line(i, total) == Blue <==> 2 * i < total - 2
    ensures Line(i, total) == Red <==> 2 * i > total
    ensures Line(i, total) == Green <==> total - 2 <= 2 * i <= total
  {
    Bands(i, total);
    assert (2 * i) as real == 2.0 * (i as real);
  }

  /** Mirror symmetry: reversing the family (`i` to `total - 1 - i`) swaps
      blue and red and keeps green. With two curves this holds on the two
      indices that are actually drawn. */
  lemma Mirror(i: int, total: int)
    requires total != 2 || 0 <= i <= 1
    ensures Line(i, total) == Blue <==> Line(total - 1 - i, total) == Red
    ensures Line(i, total) == Red <==> Line(total - 1 - i, total) == Blue
    ensures Line(i, total) == Green <==> Line(total - 1 - i, total) == Green
  {
    if total != 2 {
      IntegerBands(i, total);
      IntegerBands(total - 1 - i, total);
    }
  }

  /** The green band among the drawn indices `0 .. total-1` of a family of
      one curve or of more than two: the single middle curve when `total` is
      odd, the two middle curves when it is even. */
  lemma GreenBand(total: int)
    requires total >= 1 && total != 2
    ensures var g := set i | 0 <= i < total && Line(i, total) == Green;
            if total % 2 == 1 then g == {(total - 1) / 2}
            else g == {total / 2 - 1, total / 2}
  {
    var g := set i | 0 <= i < total && Line(i, total) == Green;
    var expected := if total % 2 == 1 then {(total - 1) / 2} else {total / 2 - 1, total / 2};
    forall i | 0 <= i < total
      ensures i in g <==> i in expected
    {
      IntegerBands(i, total);
    }
    forall i | i in expected
      ensures 0 <= i < total && Line(i, total) == Green
    {
      IntegerBands(i, total);
    }
    assert g == expected;
  }

  /** Hence the green band has one member for an odd family and two for an
      even one. */
  lemma GreenCount(total: int)
    requires total >= 1 && total != 2
    ensures |set i | 0 <= i < total && Line(i, total) == Green| ==
            (if total % 2 == 1 then 1 else 2)
  {
    GreenBand(total);
  }
}
