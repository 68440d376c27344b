/** Which tile of the 10 x 10 grid a position belongs to (crates/common_server/src/map_tool.rs). */
module MapTool {
  import opened Basic

  const AREA_LEN: real := 200000.0
  const I32_MAX: int := 0x7fff_ffff

  datatype MapTag = MapTag(fieldId: char, xLen: int, yLen: int)

  function Ceiling(r: real): (n: int)
    ensures n as real - 1.0 < r <= n as real
  {
    -(-r).Floor
  }

  function Abs(r: real): real {
    if r >= 0.0 then r else -r
  }

  /** The saturating `as i32` cast of a non-negative number. */
  function SaturateI32(n: int): int {
    if n > I32_MAX then I32_MAX else n
  }

  /** Column (or row) number of a coordinate: the ceiling away from zero, never 0, at most 5,
      but with no lower bound other than the width of i32. */
  function LenOf(c: real): (n: int)
    ensures n != 0 && -I32_MAX <= n <= 5
  {
    var point := c / AREA_LEN;
    var size := SaturateI32(Ceiling(Abs(point)));
    var signed := if point >= 0.0 then size else -size;
    var nonZero := if signed == 0 then 1 else signed;
    if nonZero > 5 then 5 else nonZero
  }

  function FieldId(x: real, y: real): char {
    if (x == 0.0 && y == 0.0) || (x == 0.0 && y > 0.0) || (x < 0.0 && y > 0.0) then 'A'
    else if (x > 0.0 && y > 0.0) || (x > 0.0 && y == 0.0) then 'B'
    else if (x < 0.0 && y < 0.0) || (x < 0.0 && y == 0.0) then 'C'
    else if (x > 0.0 && y < 0.0) || (x == 0.0 && y < 0.0) then 'D'
    else 'E'
  }

  function Pos2MapTag(p: Vector2): (t: MapTag)
    ensures t.xLen == LenOf(p.x) && t.yLen == LenOf(p.y)
  {
    MapTag(FieldId(p.x, p.y), LenOf(p.x), LenOf(p.y))
  }

  /** The tag that `World::init` and `get_cover_map_by_scope` build from a column and a row. */
  function GridTag(x: int, y: int): MapTag {
    MapTag(FieldId(x as real, y as real), x, y)
  }

  predicate IsWorldTag(t: MapTag) {
    -5 <= t.xLen <= 5 && t.xLen != 0 && -5 <= t.yLen <= 5 && t.yLen != 0 && t == GridTag(t.xLen, t.yLen)
  }

  /** The tags of the hundred tiles of the world. */
  function WorldTags(): (tags: set<MapTag>)
    ensures forall t: MapTag :: t in tags <==> IsWorldTag(t)
  {
    set x: int, y: int | -5 <= x <= 5 && -5 <= y <= 5 && x != 0 && y != 0 :: GridTag(x, y)
  }

  /** A position has a tile exactly when its computed tag is one of the hundred. */
  predicate Tiled(p: Vector2) {
    IsWorldTag(Pos2MapTag(p))
  }

  lemma CeilingMonotone(a: real, b: real)
    requires a <= b
    ensures Ceiling(a) <= Ceiling(b)
  {
  }

  lemma LenMonotone(a: real, b: real)
    requires a <= b
    ensures LenOf(a) <= LenOf(b)
  {
    if a >= 0.0 {
      CeilingMonotone(a / AREA_LEN, b / AREA_LEN);
    } else if b < 0.0 {
      CeilingMonotone(Abs(b / AREA_LEN), Abs(a / AREA_LEN));
    }
  }

  /** Independent reading of the column number: strip k covers (k-1, k] x AREA_LEN to the right of zero,
      [-k, -(k-1)) x AREA_LEN to its left; zero falls into strip 1 and everything beyond 4 into strip 5. */
  predicate InStrip(c: real, k: int) {
    if k > 0 then
      (k as real - 1.0) * AREA_LEN < c || (k == 1 && c == 0.0)
    else
      k as real * AREA_LEN <= c < (k as real + 1.0) * AREA_LEN
  }

  /** The strip of a coordinate is the strip its column number names. */
  lemma LenNamesStrip(c: real, k: int)
    requires -5 <= k <= 5 && k != 0
    ensures LenOf(c) == k <==> InStrip(c, k) && (1 <= k <= 4 ==> c <= k as real * AREA_LEN)
  {
    var q := c / AREA_LEN;
    var n := Ceiling(Abs(q));
    assert n as real - 1.0 < Abs(q) <= n as real;
    assert c == q * AREA_LEN;
  }

  /** The world has no tile for the positive y axis with the origin, for the negative x axis, and for
      anything left of or below the square; it does have one for what lies beyond the right and top edges. */
  lemma TiledExactly(p: Vector2)
    ensures Tiled(p) <==>
            && -1000000.0 <= p.x && -1000000.0 <= p.y
            && !(p.x == 0.0 && p.y >= 0.0)
            && !(p.x < 0.0 && p.y == 0.0)
  {
    LenInWorld(p.x);
    LenInWorld(p.y);
  }

  /** The letter of a tag names the quadrant; each quadrant owns one half-axis, and A the origin too. */
  lemma FieldNamesQuadrant(p: Vector2)
    ensures var field := Pos2MapTag(p).fieldId;
            && (field == 'A' <==> (p.x < 0.0 && p.y > 0.0) || (p.x == 0.0 && p.y >= 0.0))
            && (field == 'B' <==> p.x > 0.0 && p.y >= 0.0)
            && (field == 'C' <==> p.x < 0.0 && p.y <= 0.0)
            && (field == 'D' <==> p.x >= 0.0 && p.y < 0.0)
  {
  }

  lemma LenInWorld(c: real)
    ensures -5 <= LenOf(c) <==> -WORLD_LIMIT <= c
    ensures LenOf(c) > 0 <==> c >= 0.0
  {
    var q := c / AREA_LEN;
    var n := Ceiling(Abs(q));
    assert n as real - 1.0 < Abs(q) <= n as real;
    assert c == q * AREA_LEN;
  }
}
