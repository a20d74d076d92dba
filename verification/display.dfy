/** Display rectangles in the global logical-point space. */
module Display {
  import opened Words

  /** Rust's `as i32` cast of a float: truncated toward zero, then saturated. */
  function AsPixels(v: real): int32 {
    var t := if v >= 0.0 then v.Floor else -(-v).Floor;
    if t < -0x8000_0000 then -0x8000_0000 else if t > 0x7FFF_FFFF then 0x7FFF_FFFF else t
  }

  datatype DisplayRect = DisplayRect(originX: real, originY: real, width: real, height: real) {
    function Right(): real {
      originX + width
    }

    function RightPx(): int32 {
      AsPixels(Right())
    }

    /** Bounds are half-open. */
    predicate Contains(x: int, y: int) {
      originX <= x as real < originX + width && originY <= y as real < originY + height
    }
  }

  /** The right edge in whole pixels: the fraction is dropped toward zero, and what
      does not fit in 32 bits is cut. */
  lemma RightEdgeInPixels(d: DisplayRect)
    ensures 0.0 <= d.Right() <= 2147483647.0 ==> d.RightPx() as real <= d.Right() < d.RightPx() as real + 1.0
    ensures -2147483648.0 <= d.Right() <= 0.0 ==> d.RightPx() as real - 1.0 < d.Right() <= d.RightPx() as real
    ensures d.Right() > 2147483647.0 ==> d.RightPx() == 0x7FFF_FFFF
    ensures d.Right() < -2147483648.0 ==> d.RightPx() == -0x8000_0000
  {
    var v := -d.Right();
    assert v.Floor as real <= v < v.Floor as real + 1.0;
  }

  /** A display at whole pixels holds exactly its own: the columns `a` to `a + w - 1`
      and the rows `b` to `b + h - 1`. */
  lemma ContainsItsPixels(a: int, b: int, w: nat, h: nat, x: int, y: int)
    ensures DisplayRect(a as real, b as real, w as real, h as real).Contains(x, y) <==> a <= x < a + w && b <= y < b + h
  {
    assert (a + w) as real == a as real + w as real && (b + h) as real == b as real + h as real;
  }

  /** A display wider than `back` pixels, or as wide when its edges lie on whole
      pixels, contains the column `back` pixels left of its right edge. */
  lemma WideEnough(d: DisplayRect, back: int, y: int)
    requires 2 <= back
    requires d.originY <= y as real < d.originY + d.height
    requires -2147483648.0 <= d.Right() < 2147483648.0
    requires
      || back as real + 1.0 <= d.width
      || (back as real <= d.width && d.Right() == d.Right().Floor as real)
    ensures d.Contains(d.RightPx() - back, y) && d.RightPx() - back < d.RightPx() - 1
  {
  }

  /** The first display of the list that contains the point. */
  function DisplayContaining(displays: seq<DisplayRect>, x: int, y: int): (r: Option<DisplayRect>)
    ensures r.Some? ==> r.value in displays && r.value.Contains(x, y)
    ensures r.None? <==> forall d :: d in displays ==> !d.Contains(x, y)
  {
    if displays == [] then None
    else if displays[0].Contains(x, y) then Some(displays[0])
    else DisplayContaining(displays[1..], x, y)
  }

  /** No two list entries share a point. */
  ghost predicate PairwiseDisjoint(displays: seq<DisplayRect>) {
    forall i, j, x, y | 0 <= i < |displays| && 0 <= j < |displays| ::
      displays[i].Contains(x, y) && displays[j].Contains(x, y) ==> i == j
  }

  /** With disjoint displays the search order does not matter. */
  lemma FindsTheDisplay(displays: seq<DisplayRect>, d: DisplayRect, x: int, y: int)
    requires PairwiseDisjoint(displays) && d in displays && d.Contains(x, y)
    ensures DisplayContaining(displays, x, y) == Some(d)
  {
    var r := DisplayContaining(displays, x, y);
    var i :| 0 <= i < |displays| && displays[i] == d;
    var j :| 0 <= j < |displays| && displays[j] == r.value;
    assert displays[j].Contains(x, y);
  }
}
