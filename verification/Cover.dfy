/** The tiles a rectangle can touch (`get_cover_map_by_scope` in crates/server/src/world.rs). */
module Cover {
  import opened Basic
  import opened MapTool

  /** The grid tags whose column and row lie between those of the two corners. */
  ghost predicate IsCover(scope: RectScope, t: MapTag) {
    && t.xLen != 0 && LenOf(scope.leftUp.x) <= t.xLen <= LenOf(scope.rightDown.x)
    && t.yLen != 0 && LenOf(scope.rightDown.y) <= t.yLen <= LenOf(scope.leftUp.y)
    && t == GridTag(t.xLen, t.yLen)
  }

  /** What the inner loop has pushed for column `x` before it reaches row `y`. */
  ghost predicate Covered(scope: RectScope, x: int, y: int, t: MapTag) {
    IsCover(scope, t) && (t.xLen < x || (t.xLen == x && t.yLen > y))
  }

  /** Enumerates the cover column by column from left to right and row by row from top to bottom,
      stepping over the column and the row numbered 0. The counters stay within i32. */
  method GetCoverMapByScope(scope: RectScope) returns (tags: seq<MapTag>)
    ensures Distinct(tags)
    ensures forall t :: t in tags <==> IsCover(scope, t)
  {
    var leftUp := Pos2MapTag(scope.leftUp);
    var rightDown := Pos2MapTag(scope.rightDown);
    var outStart, outEnd := leftUp.xLen, rightDown.xLen;
    var insideStart, insideEnd := leftUp.yLen, rightDown.yLen;
    tags := [];
    var xLen := outStart;
    while xLen < outEnd + 1
      invariant outStart <= xLen && -I32_MAX <= xLen <= 6
      invariant Distinct(tags)
      invariant forall t :: t in tags <==> IsCover(scope, t) && t.xLen < xLen
      decreases outEnd + 1 - xLen
    {
      if xLen == 0 {
        xLen := xLen + 1;
      }
      var yLen := insideStart;
      while insideEnd - 1 < yLen
        invariant -I32_MAX - 1 <= yLen <= insideStart
        invariant Distinct(tags)
        invariant forall t :: t in tags <==> Covered(scope, xLen, yLen, t)
        decreases yLen - insideEnd + 1
      {
        if yLen == 0 {
          yLen := yLen - 1;
        }
        var tag := GridTag(xLen, yLen);
        assert tag !in tags;
        tags := tags + [tag];
        yLen := yLen - 1;
      }
      xLen := xLen + 1;
    }
  }

  /** No tile is missed: the tag of any tiled point of the rectangle is covered. */
  lemma CoverContains(scope: RectScope, p: Vector2)
    requires scope.Contains(p) && Tiled(p)
    ensures IsCover(scope, Pos2MapTag(p))
  {
    LenMonotone(scope.leftUp.x, p.x);
    LenMonotone(p.x, scope.rightDown.x);
    LenMonotone(scope.rightDown.y, p.y);
    LenMonotone(p.y, scope.leftUp.y);
  }

  /** No tile too many: for a rectangle that is not inverted, the covered tags are the grid tags of the
      columns and rows that the rectangle really meets. */
  lemma CoverExactly(scope: RectScope, t: MapTag)
    requires scope.leftUp.x <= scope.rightDown.x && scope.rightDown.y <= scope.leftUp.y
    ensures IsCover(scope, t) <==>
            && t == GridTag(t.xLen, t.yLen)
            && exists p :: scope.Contains(p) && LenOf(p.x) == t.xLen && LenOf(p.y) == t.yLen
  {
    if IsCover(scope, t) {
      var x := SideMeets(scope.leftUp.x, scope.rightDown.x, t.xLen);
      var y := SideMeets(scope.rightDown.y, scope.leftUp.y, t.yLen);
      assert scope.Contains(Vector2(x, y));
    }
    forall p | scope.Contains(p) && LenOf(p.x) == t.xLen && LenOf(p.y) == t.yLen
      ensures t == GridTag(t.xLen, t.yLen) ==> IsCover(scope, t)
    {
      LenMonotone(scope.leftUp.x, p.x);
      LenMonotone(p.x, scope.rightDown.x);
      LenMonotone(scope.rightDown.y, p.y);
      LenMonotone(p.y, scope.leftUp.y);
    }
  }

  lemma SideMeets(lo: real, hi: real, k: int) returns (c: real)
    requires lo <= hi && LenOf(lo) <= k <= LenOf(hi) && k != 0
    ensures lo <= c <= hi && LenOf(c) == k
  {
    if k == LenOf(lo) {
      c := lo;
    } else if k == LenOf(hi) {
      c := hi;
    } else {
      c := k as real * AREA_LEN;
      EdgeHasLen(c, k);
      if c < lo {
        LenMonotone(c, lo);
      } else if c > hi {
        LenMonotone(hi, c);
      }
    }
  }

  lemma EdgeHasLen(c: real, k: int)
    requires c == k as real * AREA_LEN && k != 0 && -I32_MAX <= k <= 5
    ensures LenOf(c) == k
  {
    var q := c / AREA_LEN;
    assert q == k as real;
    var n := Ceiling(Abs(q));
    assert n as real - 1.0 < Abs(q) <= n as real;
  }
}
