/** Numbers in base 2 to 64 as short texts (crates/server/src/snow_id.rs). */
module Radix {
  import opened Basic
  import TagText

  const CHARS: nat := 64

  /** The alphabet of the digits, by place. */
  function CharOf(d: nat): char {
    if d < 10 then '0' + d as char
    else if d < 36 then 'a' + (d - 10) as char
    else if d < 62 then 'A' + (d - 36) as char
    else if d == 62 then '-' else '_'
  }

  /** The alphabet of the source, which writes these four pieces as one literal. */
  lemma Alphabet(d: nat)
    requires d < CHARS
    ensures var digits, lower, upper := "0123456789", "abcdefghijklmnopqrstuvwxyz", "ABCDEFGHIJKLMNOPQRSTUVWXYZ";
            (digits + lower + upper + "-_")[d] == CharOf(d)
  {
    Letters(if 10 <= d < 36 then d - 10 else if 36 <= d < 62 then d - 36 else 0);
  }

  lemma Letters(k: nat)
    requires k < 26
    ensures var lower, upper := "abcdefghijklmnopqrstuvwxyz", "ABCDEFGHIJKLMNOPQRSTUVWXYZ";
            lower[k] == 'a' + k as char && upper[k] == 'A' + k as char
  {
  }

  const U128_SIZE: nat := 0x1_0000_0000_0000_0000_0000_0000_0000_0000

  /** There are no characters for digits from 64 on; such a digit is dropped. */
  function DigitText(d: nat): string {
    if d < CHARS then [CharOf(d)] else ""
  }

  function StripZero(s: string): string {
    if s != "" && s[0] == '0' then s[1..] else s
  }

  function Base10ToN(num: nat, radix: nat): string
    requires radix >= 2
  {
    if num == 0 then "0" else StripZero(Base10ToN(num / radix, radix)) + DigitText(num % radix)
  }

  /** The place of a character in the alphabet; an unknown character counts as the digit 0. */
  function Digit(c: char): nat {
    if '0' <= c <= '9' then c as int - '0' as int
    else if 'a' <= c <= 'z' then 10 + (c as int - 'a' as int)
    else if 'A' <= c <= 'Z' then 36 + (c as int - 'A' as int)
    else if c == '-' then 62 else if c == '_' then 63 else 0
  }

  lemma DigitIsPlace(c: char)
    ensures Digit(c) < CHARS
    ensures forall d | 0 <= d < CHARS :: CharOf(d) == c ==> Digit(c) == d
    ensures CharOf(Digit(c)) != c ==> Digit(c) == 0 && forall d | 0 <= d < CHARS :: CharOf(d) != c
  {
  }

  /** The number a text stands for. */
  function Value(s: string, radix: nat): nat {
    if s == "" then 0 else Value(s[..|s| - 1], radix) * radix + Digit(s[|s| - 1])
  }

  /** u128 arithmetic wraps around in a release build. */
  method BaseNTo10(s: string, radix: nat) returns (result: nat)
    ensures result == Value(s, radix) % U128_SIZE
  {
    result := 0;
    for i := 0 to |s|
      invariant result == Value(s[..i], radix) % U128_SIZE
    {
      WrapStep(Value(s[..i], radix), radix, Digit(s[i]));
      assert s[..i + 1][..i] == s[..i];
      result := result * radix % U128_SIZE;
      result := (result + Digit(s[i])) % U128_SIZE;
    }
    assert s[..|s|] == s;
  }

  lemma WrapStep(a: nat, radix: nat, d: nat)
    ensures ((a % U128_SIZE) * radix % U128_SIZE + d) % U128_SIZE == (a * radix + d) % U128_SIZE
  {
    var m := U128_SIZE;
    var q, b := a / m, a % m;
    assert a == m * q + b;
    var q', b' := b * radix / m, b * radix % m;
    assert b * radix == m * q' + b';
    assert a * radix + d == m * (q * radix + q') + (b' + d) by {
      assert (m * q + b) * radix == m * (q * radix) + b * radix;
    }
    AddMultiple(b' + d, q * radix + q', m);
  }

  lemma AddMultiple(x: nat, k: nat, m: nat)
    requires m > 0
    ensures (m * k + x) % m == x % m
  {
    var q, r := x / m, x % m;
    assert m * k + x == m * (k + q) + r;
    RemainderOf(k + q, r, m);
  }

  lemma RemainderOf(q: nat, r: nat, m: nat)
    requires r < m
    ensures (m * q + r) % m == r && (m * q + r) / m == q
  {
    var x := m * q + r;
    var k := q - x / m;
    assert m * k == m * q - m * (x / m);
    MultipleIsFar(m, k);
  }

  lemma MultipleIsFar(m: nat, k: int)
    ensures k >= 1 ==> m * k >= m
    ensures k <= -1 ==> m * k + m <= 0
  {
  }

  // ----- what encoding and decoding do to each other -----

  /** All digits of `n` have a character. */
  predicate Writable(n: nat, radix: nat)
    requires radix >= 2
  {
    n == 0 || (n % radix < CHARS && Writable(n / radix, radix))
  }

  lemma {:induction false} ValueAfterStrip(s: string, radix: nat)
    ensures Value(StripZero(s), radix) == Value(s, radix)
    decreases |s|
  {
    if s != "" && s[0] == '0' {
      if |s| == 1 {
        assert s[..0] == "";
      } else {
        ValueAfterStrip(s[..|s| - 1], radix);
        assert s[1..][..|s| - 2] == s[..|s| - 1][1..];
      }
    }
  }

  lemma ValueAppend(s: string, d: nat, radix: nat)
    requires d < CHARS
    ensures Value(s + DigitText(d), radix) == Value(s, radix) * radix + d
  {
    assert (s + [CharOf(d)])[..|s|] == s;
    DigitIsPlace(CharOf(d));
  }

  /** What the text of `n` stands for: `n` without the digits that have no character. */
  lemma ValueOfText(n: nat, radix: nat, q: nat, r: nat)
    requires radix >= 2 && n > 0 && q == n / radix && r == n % radix
    ensures Value(Base10ToN(n, radix), radix) ==
            var higher := Value(Base10ToN(q, radix), radix);
            if r < CHARS then higher * radix + r else higher
  {
    var higher := Base10ToN(q, radix);
    ValueAfterStrip(higher, radix);
    if r < CHARS {
      ValueAppend(StripZero(higher), r, radix);
    } else {
      assert StripZero(higher) + "" == StripZero(higher);
    }
  }

  lemma DivideDown(n: nat, radix: nat)
    requires radix >= 2 && n > 0
    ensures n / radix < n && n == n / radix * radix + n % radix
  {
    assert n == radix * (n / radix) + n % radix;
    assert radix * (n / radix) >= 2 * (n / radix) by {
      MulMonotone(2, radix, n / radix);
    }
  }

  lemma MulMonotone(a: nat, b: nat, c: nat)
    requires a <= b
    ensures a * c <= b * c
  {
  }

  lemma ValueOfZero(radix: nat)
    ensures Value("0", radix) == 0
  {
    assert "0"[..0] == "";
    assert Value("", radix) * radix == 0;
  }

  lemma Recombine(v: nat, q: nat, radix: nat, r: nat)
    requires v <= q && radix > 0
    ensures v * radix + r <= q * radix + r
    ensures v * radix + r == q * radix + r <==> v == q
  {
    MulMonotone(v, q, radix);
    if v < q {
      MulMonotone(v + 1, q, radix);
    }
  }

  /** Decoding the text of a number gives it back exactly when every digit has a character; otherwise the
      result is too small. */
  lemma {:induction false} RoundTripExactly(n: nat, radix: nat)
    requires radix >= 2
    ensures Value(Base10ToN(n, radix), radix) <= n
    ensures Value(Base10ToN(n, radix), radix) == n <==> Writable(n, radix)
    decreases n
  {
    if n == 0 {
      ValueOfZero(radix);
    } else {
      DivideDown(n, radix);
      RoundTripExactly(n / radix, radix);
      ValueOfText(n, radix, n / radix, n % radix);
      Recombine(Value(Base10ToN(n / radix, radix), radix), n / radix, radix, n % radix);
    }
  }

  lemma {:induction false} SmallRadixIsWritable(n: nat, radix: nat)
    requires 2 <= radix <= CHARS
    ensures Writable(n, radix)
    decreases n
  {
    if n > 0 {
      DivideDown(n, radix);
      SmallRadixIsWritable(n / radix, radix);
    }
  }

  /** Encoding and decoding again: for every u64 and every radix from 2 to 64 the number comes back, the wrap
      of the decoder notwithstanding. */
  lemma RoundTrip(n: U64, radix: nat)
    requires 2 <= radix <= CHARS
    ensures Value(Base10ToN(n, radix), radix) % U128_SIZE == n
  {
    SmallRadixIsWritable(n, radix);
    RoundTripExactly(n, radix);
  }

  // ----- canonical texts -----

  predicate IsDigit(c: char, radix: nat) {
    exists d :: 0 <= d < radix && CharOf(d) == c
  }

  /** Digits below the radix, and no leading zero unless the text is "0". */
  predicate Canonical(s: string, radix: nat) {
    && s != "" && (|s| > 1 ==> s[0] != '0')
    && (forall i | 0 <= i < |s| :: IsDigit(s[i], radix))
  }

  function Pow(b: nat, e: nat): nat {
    if e == 0 then 1 else Pow(b, e - 1) * b
  }

  lemma DigitOfChar(c: char, radix: nat)
    requires radix <= CHARS && IsDigit(c, radix)
    ensures Digit(c) < radix && CharOf(Digit(c)) == c
    ensures Digit(c) == 0 <==> c == '0'
  {
    var d :| 0 <= d < radix && CharOf(d) == c;
    DigitIsPlace(CharOf(d));
  }

  /** The text of a number is canonical, and as long as the number needs. */
  lemma {:induction false} TextIsCanonical(n: nat, radix: nat)
    requires 2 <= radix <= CHARS
    ensures Canonical(Base10ToN(n, radix), radix)
    ensures n == 0 <==> Base10ToN(n, radix) == "0"
    ensures var k := |Base10ToN(n, radix)|; n > 0 ==> Pow(radix, k - 1) <= n < Pow(radix, k)
    decreases n
  {
    if n == 0 {
      assert CharOf(0) == '0';
    } else {
      DivideDown(n, radix);
      TextIsCanonical(n / radix, radix);
      TextOf(n, radix, Base10ToN(n / radix, radix));
      if n / radix > 0 {
        LongerPower(n, radix, |Base10ToN(n / radix, radix)|);
      }
    }
  }

  /** The text of a positive number, one digit longer than that of its quotient. */
  lemma TextOf(n: nat, radix: nat, higher: string)
    requires 2 <= radix <= CHARS && n > 0
    requires higher == Base10ToN(n / radix, radix) && Canonical(higher, radix)
    requires n / radix == 0 <==> higher == "0"
    ensures Base10ToN(n, radix) == (if n / radix == 0 then "" else higher) + [CharOf(n % radix)]
    ensures Canonical(Base10ToN(n, radix), radix) && Base10ToN(n, radix) != "0"
    ensures n / radix == 0 ==> Pow(radix, 0) <= n < Pow(radix, 1)
  {
    var c := CharOf(n % radix);
    assert IsDigit(c, radix);
    if n / radix == 0 {
      assert Pow(radix, 1) == Pow(radix, 0) * radix;
      assert Base10ToN(n, radix) == [c];
      CharZero(n % radix);
    } else {
      CanonicalHead(higher, radix);
      assert StripZero(higher) == higher;
    }
  }

  lemma CharZero(d: nat)
    requires d < CHARS
    ensures CharOf(d) == '0' <==> d == 0
  {
  }

  lemma CanonicalHead(s: string, radix: nat)
    requires Canonical(s, radix) && s != "0"
    ensures s[0] != '0'
  {
  }

  lemma LongerPower(n: nat, radix: nat, k: nat)
    requires radix >= 2 && k > 0 && Pow(radix, k - 1) <= n / radix < Pow(radix, k)
    ensures Pow(radix, k) <= n < Pow(radix, k + 1)
  {
    assert n == radix * (n / radix) + n % radix;
    MulMonotone(Pow(radix, k - 1), n / radix, radix);
    MulMonotone(n / radix + 1, Pow(radix, k), radix);
  }

  lemma TextOfDigits(higher: nat, d: nat, radix: nat)
    requires d < radix && 2 <= radix <= CHARS && higher * radix + d > 0
    ensures Base10ToN(higher * radix + d, radix) == StripZero(Base10ToN(higher, radix)) + [CharOf(d)]
  {
    RemainderOfDigits(higher, d, radix);
  }

  lemma CanonicalStep(higher: string, v: nat, d: nat, radix: nat)
    requires d < radix && 2 <= radix <= CHARS && v > 0
    requires Base10ToN(v, radix) == higher && StripZero(higher) == higher
    ensures v * radix + d > 0 && Base10ToN(v * radix + d, radix) == higher + [CharOf(d)]
  {
    PositiveProduct(v, radix);
    TextOfDigits(v, d, radix);
  }

  lemma CanonicalPrefix(s: string, radix: nat)
    requires Canonical(s, radix) && |s| > 1
    ensures Canonical(s[..|s| - 1], radix) && s[..|s| - 1] != "0" && StripZero(s[..|s| - 1]) == s[..|s| - 1]
  {
  }

  lemma ValueOf(s: string, radix: nat)
    requires s != ""
    ensures Value(s, radix) == Value(s[..|s| - 1], radix) * radix + Digit(s[|s| - 1])
  {
  }

  /** Decoding a canonical text and encoding the number again gives the same text. */
  lemma {:induction false} CanonicalRoundTrip(s: string, radix: nat)
    requires 2 <= radix <= CHARS && Canonical(s, radix)
    ensures Base10ToN(Value(s, radix), radix) == s
    ensures Value(s, radix) == 0 <==> s == "0"
    decreases |s|
  {
    var higher, last := s[..|s| - 1], s[|s| - 1];
    assert s == higher + [last];
    if |s| == 1 {
      OneDigitRoundTrip(last, radix);
    } else {
      CanonicalPrefix(s, radix);
      CanonicalRoundTrip(higher, radix);
      DigitOfChar(last, radix);
      CanonicalStep(higher, Value(higher, radix), Digit(last), radix);
      ValueOf(s, radix);
    }
  }

  lemma OneDigitRoundTrip(c: char, radix: nat)
    requires 2 <= radix <= CHARS && IsDigit(c, radix)
    ensures Value([c], radix) == Digit(c) && Base10ToN(Digit(c), radix) == [c]
    ensures Digit(c) == 0 <==> [c] == "0"
  {
    DigitOfChar(c, radix);
    assert [c][..0] == "";
    assert Value("", radix) * radix == 0;
    if Digit(c) > 0 {
      TextOfDigits(0, Digit(c), radix);
    }
  }

  lemma PositiveProduct(a: nat, b: nat)
    requires a > 0 && b > 0
    ensures a * b > 0
  {
  }

  lemma RemainderOfDigits(higher: nat, d: nat, radix: nat)
    requires d < radix
    ensures (higher * radix + d) % radix == d && (higher * radix + d) / radix == higher
  {
    RemainderOf(higher, d, radix);
    assert higher * radix == radix * higher;
  }

  /** The decimal numbers in tags and keys (`TagText.NatText`) are the texts in base 10. */
  lemma {:induction false} DecimalTextsAgree(n: nat)
    ensures TagText.NatText(n) == Base10ToN(n, 10)
    decreases n
  {
    if n > 0 {
      DecimalTextsAgree(n / 10);
      TextIsCanonical(n / 10, 10);
      TextOf(n, 10, Base10ToN(n / 10, 10));
    }
  }
}
