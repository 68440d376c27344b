/** Printing and parsing of tile tags, the keys of a world snapshot
    (`MapTag::to_string` and `from_string` in crates/common_server/src/map_tool.rs). */
module TagText {
  import opened Basic
  import opened MapTool

  const I32_MIN: int := -0x8000_0000

  predicate IsDigit(c: char) {
    '0' <= c <= '9'
  }

  function DigitOf(d: nat): (c: char)
    requires d < 10
    ensures IsDigit(c) && c as int - '0' as int == d
  {
    ('0' as int + d) as char
  }

  function NatText(n: nat): (s: string)
    ensures |s| > 0 && forall c | c in s :: IsDigit(c)
  {
    if n < 10 then [DigitOf(n)] else NatText(n / 10) + [DigitOf(n % 10)]
  }

  function IntText(n: int): string {
    if n < 0 then "-" + NatText(-n) else NatText(n)
  }

  function ToString(t: MapTag): string {
    [t.fieldId] + ":" + IntText(t.xLen) + ":" + IntText(t.yLen)
  }

  /** `str::split`: the pieces between the separators, at least one. */
  function Split(s: string): (parts: seq<string>)
    ensures |parts| > 0
  {
    if s == "" then [""]
    else
      var rest := Split(s[1..]);
      if s[0] == ':' then [""] + rest else [[s[0]] + rest[0]] + rest[1..]
  }

  function ParseNat(s: string): Option<nat> {
    if |s| == 0 || !IsDigit(s[|s| - 1]) then None
    else
      var d: nat := s[|s| - 1] as int - '0' as int;
      if |s| == 1 then Some(d) else
        match ParseNat(s[..|s| - 1])
        case None => None
        case Some(n) => Some(10 * n + d)
  }

  /** `str::parse::<i32>`: an optional sign, at least one digit, and no overflow. */
  function ParseI32(s: string): Option<int> {
    var signed := |s| > 0 && (s[0] == '-' || s[0] == '+');
    match ParseNat(if signed then s[1..] else s)
    case None => None
    case Some(n) =>
      var value := if signed && s[0] == '-' then -(n as int) else n as int;
      if I32_MIN <= value <= I32_MAX then Some(value) else None
  }

  /** `None` stands for a panic: fewer than three parts, an empty first part, or a number that does not parse. */
  function FromString(s: string): Option<MapTag> {
    var v := Split(s);
    if |v| < 3 || v[0] == "" then None else
      match (ParseI32(v[1]), ParseI32(v[2]))
      case (Some(x), Some(y)) => Some(MapTag(v[0][0], x, y))
      case _ => None
  }

  lemma {:induction false} ParseNatText(n: nat)
    ensures ParseNat(NatText(n)) == Some(n)
  {
    if n >= 10 {
      ParseNatText(n / 10);
      assert NatText(n)[..|NatText(n)| - 1] == NatText(n / 10);
    }
  }

  lemma ParseIntText(n: int)
    requires I32_MIN <= n <= I32_MAX
    ensures ParseI32(IntText(n)) == Some(n)
  {
    var s := IntText(n);
    if n < 0 {
      ParseNatText(-n);
      assert s[0] == '-' && s[1..] == NatText(-n);
    } else {
      ParseNatText(n);
      assert IsDigit(s[0]);
    }
  }

  lemma NoSeparator(n: int)
    ensures ':' !in IntText(n)
  {
    assert !IsDigit(':');
  }

  lemma {:induction false} SplitPlain(s: string)
    requires ':' !in s
    ensures Split(s) == [s]
  {
    if s != "" {
      SplitPlain(s[1..]);
      assert [s[0]] + s[1..] == s;
    }
  }

  lemma {:induction false} SplitFirst(a: string, b: string)
    requires ':' !in a
    ensures Split(a + ":" + b) == [a] + Split(b)
  {
    var s := a + ":" + b;
    if a == "" {
      assert s[1..] == b;
    } else {
      SplitFirst(a[1..], b);
      assert s[1..] == a[1..] + ":" + b;
      assert [a[0]] + a[1..] == a;
    }
  }

  /** A printed tag, piece by piece: the field, the column and the row, in this order, between colons. */
  lemma PrintedPieces(t: MapTag)
    requires t.fieldId != ':'
    ensures Split(ToString(t)) == [[t.fieldId], IntText(t.xLen), IntText(t.yLen)]
  {
    var x, y := IntText(t.xLen), IntText(t.yLen);
    NoSeparator(t.xLen);
    NoSeparator(t.yLen);
    SplitFirst(x, y);
    SplitPlain(y);
    assert ToString(t) == [t.fieldId] + ":" + (x + ":" + y);
    SplitFirst([t.fieldId], x + ":" + y);
  }

  lemma PrintedExample()
    ensures ToString(MapTag('A', -3, 15)) == "A:-3:15"
    ensures FromString("A:-3:15") == Some(MapTag('A', -3, 15))
  {
    assert NatText(15) == NatText(1) + [DigitOf(5)] == "15";
    TagRoundTrip(MapTag('A', -3, 15));
  }

  /** Parsing gives a printed tag back exactly when its field is not the separator. */
  lemma TagRoundTrip(t: MapTag)
    requires I32_MIN <= t.xLen <= I32_MAX && I32_MIN <= t.yLen <= I32_MAX
    ensures FromString(ToString(t)) == Some(t) <==> t.fieldId != ':'
  {
    var x, y := IntText(t.xLen), IntText(t.yLen);
    ParseIntText(t.xLen);
    ParseIntText(t.yLen);
    NoSeparator(t.xLen);
    NoSeparator(t.yLen);
    SplitFirst(x, y);
    SplitPlain(y);
    var rest := x + ":" + y;
    if t.fieldId != ':' {
      assert ToString(t) == [t.fieldId] + ":" + rest;
      SplitFirst([t.fieldId], rest);
    } else {
      assert ToString(t) == "" + ":" + (":" + rest);
      SplitFirst("", ":" + rest);
    }
  }

  /** So the printed tags of the world never collide. */
  lemma WorldTagText(t: MapTag)
    requires t in WorldTags()
    ensures FromString(ToString(t)) == Some(t)
  {
    assert IsWorldTag(t);
    TagRoundTrip(t);
  }
}
