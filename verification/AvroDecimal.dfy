/** The Avro decimal logical type: an unscaled integer in big-endian two's
    complement, in a number of bytes computed from its bit length. */
module AvroDecimal {

  type Byte = b: int | 0 <= b < 256

  function Pow2(n: nat): (p: int)
    ensures p >= 1
  {
    if n == 0 then 1 else 2 * Pow2(n - 1)
  }

  function Pow10(n: nat): (p: int)
    ensures p >= 1
  {
    if n == 0 then 1 else 10 * Pow10(n - 1)
  }

  function Abs(x: int): nat { if x >= 0 then x else -x }

  /** The number of bits of `n`, without sign or leading zeros. */
  function BitLength(n: nat): nat { if n == 0 then 0 else 1 + BitLength(n / 2) }

  function ByteLength(unscaled: int): nat { (BitLength(Abs(unscaled)) + 8) / 8 }

  /** Python's `int()` of a decimal: toward zero. */
  function Truncate(x: real): int { if x >= 0.0 then x.Floor else -((-x).Floor) }

  /** `length` big-endian digits in base 256, without the part that overflows. */
  function Digits(n: nat, length: nat): (bs: seq<Byte>)
    ensures |bs| == length
  {
    if length == 0 then [] else Digits(n / 256, length - 1) + [n % 256]
  }

  /** The two's complement bytes of a value. */
  function ToBytes(value: int, length: nat): seq<Byte> {
    Digits(value % Pow2(8 * length), length)
  }

  function Encode(unscaled: int): seq<Byte> {
    if unscaled == 0 then [0] else ToBytes(unscaled, ByteLength(unscaled))
  }

  // ----- decimals: the product is rounded to the precision of the context -----

  /** The value `coefficient * 10^exponent`. Integers, and floats by their
      printed form, become one exactly. */
  datatype Decimal = Decimal(coefficient: int, exponent: int)

  const PRECISION: nat := 28

  function Tens(e: int): (p: real)
    ensures p > 0.0
    decreases if e >= 0 then e else -e
  {
    if e == 0 then 1.0 else if e > 0 then 10.0 * Tens(e - 1) else Tens(e + 1) / 10.0
  }

  function Value(d: Decimal): real { d.coefficient as real * Tens(d.exponent) }

  /** The number of decimal digits of `n`. */
  function Length(n: nat): nat { if n == 0 then 0 else 1 + Length(n / 10) }

  /** `n / p` to the nearest integer, a tie to the even one. */
  function NearestEven(n: nat, p: int): nat
    requires p > 0
  {
    var q, r := n / p, n % p;
    if 2 * r > p || (2 * r == p && q % 2 == 1) then q + 1 else q
  }

  /** How many digits of the coefficient do not fit the precision. */
  function Excess(d: Decimal): nat {
    var n := Length(Abs(d.coefficient));
    if n > PRECISION then n - PRECISION else 0
  }

  /** The decimal the context keeps: at most 28 digits, half even. */
  function Rounded(d: Decimal): Decimal {
    var k := Excess(d);
    var q: int := NearestEven(Abs(d.coefficient), Pow10(k));
    Decimal(if d.coefficient >= 0 then q else -q, d.exponent + k)
  }

  /** The exact product with `10^scale`. */
  function Scaled(value: Decimal, scale: nat): Decimal {
    Decimal(value.coefficient * Pow10(scale), value.exponent)
  }

  function ToDecimalBytes(value: Decimal, scale: nat): seq<Byte> {
    Encode(Truncate(Value(Rounded(Scaled(value, scale)))))
  }

  // ----- the reference: decoding as the format prescribes -----

  function Unsigned(bs: seq<Byte>): nat {
    if bs == [] then 0 else 256 * Unsigned(bs[..|bs| - 1]) + bs[|bs| - 1]
  }

  /** The top bit of the first byte is the sign. */
  function FromBytes(bs: seq<Byte>): int {
    if bs != [] && bs[0] >= 128 then Unsigned(bs) - Pow2(8 * |bs|) else Unsigned(bs)
  }

  /** `value` lies in the signed range of `length` bytes. */
  predicate Fits(value: int, length: nat) {
    length > 0 && -Pow2(8 * length - 1) <= value < Pow2(8 * length - 1)
  }

  // ----- powers and bit lengths -----

  lemma {:induction false} Pow2Monotone(a: nat, b: nat)
    requires a <= b
    ensures Pow2(a) <= Pow2(b)
  {
    if a == b {
    } else {
      Pow2Monotone(a, b - 1);
    }
  }

  lemma Pow2Byte(n: nat)
    ensures Pow2(n + 8) == 256 * Pow2(n)
  {
    assert Pow2(n + 8) == 2 * Pow2(n + 7) == 4 * Pow2(n + 6) == 8 * Pow2(n + 5) == 16 * Pow2(n + 4);
    assert Pow2(n + 4) == 2 * Pow2(n + 3) == 4 * Pow2(n + 2) == 8 * Pow2(n + 1) == 16 * Pow2(n);
  }

  /** The bit length brackets the number between powers of two. */
  lemma {:induction false} BitLengthBrackets(n: nat)
    ensures n < Pow2(BitLength(n))
    ensures n > 0 ==> Pow2(BitLength(n) - 1) <= n
  {
    if n == 0 {
    } else {
      BitLengthBrackets(n / 2);
      if n / 2 > 0 {
        assert Pow2(BitLength(n) - 1) == 2 * Pow2(BitLength(n / 2) - 1);
      }
    }
  }

  /** The computed length always holds the value in signed form. */
  lemma LengthSuffices(unscaled: int)
    ensures Fits(unscaled, ByteLength(unscaled))
  {
    BitLengthBrackets(Abs(unscaled));
    Pow2Monotone(BitLength(Abs(unscaled)), 8 * ByteLength(unscaled) - 1);
  }

  /** It is the least such length, except for the values -2^(8k-1), which one
      byte fewer would hold. */
  lemma LengthIsMinimalExceptPowers(unscaled: int, shorter: nat)
    requires unscaled != 0 && shorter < ByteLength(unscaled)
    ensures Fits(unscaled, shorter) <==> shorter > 0 && shorter == ByteLength(unscaled) - 1
                                         && unscaled == -Pow2(8 * shorter - 1)
  {
    var n, b := Abs(unscaled), BitLength(Abs(unscaled));
    BitLengthBrackets(n);
    if shorter > 0 {
      Pow2Monotone(8 * shorter - 1, b - 1);
      if 8 * shorter - 1 < b - 1 {
        Pow2Monotone(8 * shorter, b - 1);
      }
      if shorter < ByteLength(unscaled) - 1 {
        assert 8 * shorter - 1 < b - 1;
      }
    }
  }

  // ----- digits -----

  lemma {:induction false} DigitsRoundTrip(n: nat, length: nat)
    requires n < Pow2(8 * length)
    ensures Unsigned(Digits(n, length)) == n
  {
    if length == 0 {
    } else {
      Pow2Byte(8 * (length - 1));
      DigitsRoundTrip(n / 256, length - 1);
      var bs := Digits(n, length);
      assert bs[..|bs| - 1] == Digits(n / 256, length - 1);
    }
  }

  lemma {:induction false} UnsignedBounded(bs: seq<Byte>)
    ensures Unsigned(bs) < Pow2(8 * |bs|)
  {
    if bs == [] {
    } else {
      UnsignedBounded(bs[..|bs| - 1]);
      Pow2Byte(8 * (|bs| - 1));
    }
  }

  /** The first byte tells which half of the range a number is in. */
  lemma {:induction false} TopByte(bs: seq<Byte>)
    requires bs != []
    ensures bs[0] >= 128 <==> Unsigned(bs) >= Pow2(8 * |bs| - 1)
  {
    if |bs| == 1 {
      assert bs[..0] == [];
      assert Pow2(7) == 128 by { Pow2Byte(0); }
    } else {
      var init := bs[..|bs| - 1];
      TopByte(init);
      Pow2Byte(8 * |init| - 1);
    }
  }

  /** Every value that fits is decoded back. */
  lemma SignedRoundTrip(value: int, length: nat)
    requires Fits(value, length)
    ensures |ToBytes(value, length)| == length && FromBytes(ToBytes(value, length)) == value
  {
    var m := Pow2(8 * length);
    var n := value % m;
    assert m == 2 * Pow2(8 * length - 1);
    if value >= 0 {
      assert n == value by { ModSmall(value, m); }
    } else {
      assert n == value + m by { ModNegative(value, m); }
    }
    DigitsRoundTrip(n, length);
    TopByte(Digits(n, length));
  }

  lemma ModSmall(x: int, m: int)
    requires 0 <= x < m
    ensures x % m == x
  {
  }

  lemma ModNegative(x: int, m: int)
    requires m > 0 && -m <= x < 0
    ensures x % m == x + m
  {
    ModSmall(x + m, m);
    assert (x + m) % m == x % m;
  }

  // ----- the whole encoding -----

  /** Every integer survives encoding and decoding. */
  lemma UnscaledRoundTrip(unscaled: int)
    ensures FromBytes(Encode(unscaled)) == unscaled
  {
    hide Pow2, ToBytes;
    if unscaled == 0 {
      var zero: seq<Byte> := [0];
      assert zero[..0] == [] && Unsigned(zero) == 0;
    } else {
      LengthSuffices(unscaled);
      SignedRoundTrip(unscaled, ByteLength(unscaled));
    }
  }

  /** The bytes written are the least number that holds the value, one more for
      -2^(8k-1), and a single zero byte for zero. */
  lemma EncodedLengthMeans(unscaled: int, shorter: nat)
    ensures unscaled == 0 ==> Encode(unscaled) == [0]
    ensures Fits(unscaled, |Encode(unscaled)|)
    ensures unscaled != 0 && shorter < |Encode(unscaled)| ==>
              (Fits(unscaled, shorter) <==> shorter > 0 && shorter == |Encode(unscaled)| - 1
                                            && unscaled == -Pow2(8 * shorter - 1))
  {
    hide Pow2;
    LengthSuffices(unscaled);
    if unscaled != 0 && shorter < ByteLength(unscaled) {
      LengthIsMinimalExceptPowers(unscaled, shorter);
    }
  }

  predicate Whole(x: real) { x.Floor as real == x }

  /** Truncation goes toward zero and loses less than one unit. */
  lemma TruncateTowardZero(x: real)
    ensures -1.0 < x - Truncate(x) as real < 1.0
    ensures x >= 0.0 ==> 0.0 <= Truncate(x) as real <= x
    ensures x <= 0.0 ==> x <= Truncate(x) as real <= 0.0
    ensures Truncate(x) as real == x <==> Whole(x)
  {
    var f, g := x.Floor, (-x).Floor;
    assert f as real <= x < f as real + 1.0 && g as real <= -x < g as real + 1.0;
    assert -(f as real) == (-f) as real && -(g as real) == (-g) as real;
    assert f as real == x <==> g as real == -x by {
      if f as real == x {
        assert g as real <= (-f) as real < g as real + 1.0;
      }
      if g as real == -x {
        assert f as real <= (-g) as real < f as real + 1.0;
      }
    }
  }

  // ----- when the precision suffices -----

  /** `x` has at most 28 significant digits. */
  ghost predicate Short(x: real) {
    exists d: Decimal :: Abs(d.coefficient) < Pow10(PRECISION) && Value(d) == x
  }

  lemma {:induction false} Pow10Add(a: nat, b: nat)
    ensures Pow10(a + b) == Pow10(a) * Pow10(b)
  {
    if b == 0 {
    } else {
      Pow10Add(a, b - 1);
      assert Pow10(a + b) == 10 * Pow10(a + (b - 1));
    }
  }

  lemma {:induction false} Pow10Monotone(a: nat, b: nat)
    requires a <= b
    ensures Pow10(a) <= Pow10(b)
  {
    if a == b {
    } else {
      Pow10Monotone(a, b - 1);
    }
  }

  lemma Pow10Facts(k: nat)
    ensures Pow10(k + 1) == 10 * Pow10(k) && Pow10(0) == 1 && Pow10(1) == 10
  {
    assert Pow10(1) == 10 * Pow10(0);
  }

  /** The number of digits brackets the number between powers of ten. */
  lemma {:induction false} LengthBrackets(n: nat)
    ensures n < Pow10(Length(n))
    ensures n > 0 ==> Pow10(Length(n) - 1) <= n
  {
    hide Pow10;
    Pow10Facts(Length(n / 10));
    if n == 0 {
    } else {
      LengthBrackets(n / 10);
      if n / 10 > 0 {
        Pow10Facts(Length(n / 10) - 1);
      }
    }
  }

  lemma TensFacts(e: int)
    ensures Tens(e + 1) == 10.0 * Tens(e) && Tens(0) == 1.0
  {
  }

  lemma {:induction false} TensShift(e: int, k: nat)
    ensures Tens(e + k) == Pow10(k) as real * Tens(e)
  {
    hide Tens, Pow10;
    if k == 0 {
      Pow10Facts(0);
    } else {
      TensShift(e, k - 1);
      TensFacts(e + (k - 1));
      Pow10Facts(k - 1);
      assert e + (k - 1) + 1 == e + k;
      TenTimes(Pow10(k - 1), Tens(e));
    }
  }

  lemma TenTimes(p: int, t: real)
    ensures (10 * p) as real * t == 10.0 * (p as real * t)
  {
  }

  /** Trailing zeros of the coefficient and the exponent are interchangeable. */
  lemma ValueShift(c: int, e: int, k: nat)
    ensures Value(Decimal(c, e + k)) == Value(Decimal(c * Pow10(k), e))
  {
    hide Tens, Pow10;
    TensShift(e, k);
    Regroup(c, Pow10(k), Tens(e));
  }

  lemma Regroup(c: int, p: int, t: real)
    ensures c as real * (p as real * t) == (c * p) as real * t
  {
    assert (c * p) as real == c as real * p as real;
  }

  lemma ValueInjective(a: int, b: int, e: int)
    requires Value(Decimal(a, e)) == Value(Decimal(b, e))
    ensures a == b
  {
    var t := Tens(e);
    assert (a as real - b as real) * t == 0.0;
    assert a as real - b as real == 0.0;
  }

  ghost predicate Divides(p: int, n: int) { exists m: int :: n == m * p }

  lemma Quotient(n: nat, p: int)
    requires p > 0
    ensures n == n / p * p + n % p && 0 <= n % p < p
  {
  }

  /** Rounding keeps the value exactly when the digits it drops are zeros. */
  lemma RoundedExactIff(d: Decimal)
    ensures Value(Rounded(d)) == Value(d) <==> Divides(Pow10(Excess(d)), Abs(d.coefficient))
  {
    hide Pow10, Value, NearestEven, Excess, Divides;
    var k := Excess(d);
    var p, n, c := Pow10(k), Abs(d.coefficient), Rounded(d).coefficient;
    var q := NearestEven(n, p);
    NearestEvenExact(n, p);
    ValueShift(c, d.exponent, k);
    Negated(q, p);
    assert c * p == d.coefficient <==> q * p == n;
    if Value(Rounded(d)) == Value(d) {
      ValueInjective(c * p, d.coefficient, d.exponent);
    }
  }

  lemma Negated(q: int, p: int)
    ensures (-q) * p == -(q * p)
  {
  }

  lemma NearestEvenExact(n: nat, p: int)
    requires p > 0
    ensures NearestEven(n, p) * p == n <==> Divides(p, n)
    ensures -p <= 2 * (NearestEven(n, p) * p - n) <= p
  {
    var q, r := n / p, n % p;
    Quotient(n, p);
    assert (q + 1) * p == q * p + p;
    if Divides(p, n) {
      var m: int :| n == m * p;
      SameQuotient(m, q, r, p);
    }
  }

  lemma SameQuotient(m: int, q: int, r: int, p: int)
    requires m * p == q * p + r && 0 <= r < p
    ensures m == q && r == 0
  {
    assert (m - q) * p == r && (q - m) * p == -r;
    if m > q {
      AtLeastFactor(m - q, p);
      assert false;
    }
    if m < q {
      AtLeastFactor(q - m, p);
      assert false;
    }
  }

  lemma AtLeastFactor(n: int, p: int)
    requires n >= 1 && p > 0
    ensures n * p >= p
  {
    assert (n - 1) * p >= 0;
  }

  /** A value of at most 28 digits has zeros in every further digit of its
      coefficient. */
  lemma ShortIsDivisible(d: Decimal, short: Decimal)
    requires Value(short) == Value(d) && Abs(short.coefficient) < Pow10(PRECISION)
    ensures Divides(Pow10(Excess(d)), Abs(d.coefficient))
  {
    hide Pow10, Value, Excess, Divides;
    if Excess(d) == 0 {
      DividedByOne(Abs(d.coefficient));
    } else if short.exponent >= d.exponent {
      var j := short.exponent - d.exponent;
      ValueShift(short.coefficient, d.exponent, j);
      ValueInjective(short.coefficient * Pow10(j), d.coefficient, d.exponent);
      AbsProduct(short.coefficient, Pow10(j));
      LongIsLarge(d);
      MultipleIsDivisible(Abs(d.coefficient), Abs(short.coefficient), j, Excess(d));
    } else {
      var j := d.exponent - short.exponent;
      ValueShift(d.coefficient, short.exponent, j);
      ValueInjective(d.coefficient * Pow10(j), short.coefficient, short.exponent);
      AbsProduct(d.coefficient, Pow10(j));
      GrowsBy(Abs(d.coefficient), Pow10(j));
      LongIsLarge(d);
      assert false;
    }
  }

  lemma DividedByOne(n: nat)
    ensures Divides(Pow10(0), n)
  {
    assert n == n * Pow10(0);
  }

  lemma MultipleIsDivisible(n: nat, m: nat, j: nat, k: nat)
    requires n == m * Pow10(j) && m < Pow10(PRECISION) && n >= Pow10(PRECISION + k - 1) && k > 0
    ensures Divides(Pow10(k), n)
  {
    hide Pow10;
    if j < k {
      TooLong(n, m, j, k);
      assert false;
    }
    Pow10Add(j - k, k);
    Associate(m, Pow10(j - k), Pow10(k));
  }

  lemma Associate(a: int, b: int, c: int)
    ensures a * (b * c) == (a * b) * c
  {
  }

  lemma GrowsBy(n: nat, p: int)
    requires p >= 1
    ensures n * p >= n
  {
    assert n * (p - 1) >= 0;
  }

  lemma AbsProduct(c: int, p: int)
    requires p > 0
    ensures Abs(c * p) == Abs(c) * p
  {
    if c < 0 {
      assert (-c) * p == -(c * p);
      assert (-c) * p >= 0;
    } else {
      assert c * p >= 0;
    }
  }

  lemma LongIsLarge(d: Decimal)
    requires Excess(d) > 0
    ensures Abs(d.coefficient) >= Pow10(PRECISION)
    ensures Abs(d.coefficient) >= Pow10(PRECISION + Excess(d) - 1)
  {
    hide Pow10;
    LengthBrackets(Abs(d.coefficient));
    Pow10Monotone(PRECISION, PRECISION + Excess(d) - 1);
  }

  lemma TooLong(n: nat, m: nat, j: nat, k: nat)
    requires j < k && m < Pow10(PRECISION) && n == m * Pow10(j)
    ensures n < Pow10(PRECISION + k - 1)
  {
    hide Pow10;
    var p, q := Pow10(j), Pow10(PRECISION);
    assert m * p < q * p by { assert (q - m) * p > 0; }
    Pow10Add(PRECISION, j);
    Pow10Monotone(PRECISION + j, PRECISION + k - 1);
  }

  /** Rounding moves a value by at most half a unit of the last digit kept. */
  lemma RoundedIsNear(d: Decimal)
    ensures var unit := Tens(d.exponent + Excess(d));
            -unit <= 2.0 * (Value(Rounded(d)) - Value(d)) <= unit
  {
    hide Pow10, Tens, NearestEven, Excess, Value;
    var k := Excess(d);
    var p, n, c := Pow10(k), Abs(d.coefficient), Rounded(d).coefficient;
    var q := NearestEven(n, p);
    NearestEvenExact(n, p);
    ValueShift(c, d.exponent, k);
    TensShift(d.exponent, k);
    Negated(q, p);
    assert -p <= 2 * (c * p - d.coefficient) <= p;
    HalfUnit(c * p, d.coefficient, p, d.exponent);
  }

  lemma HalfUnit(a: int, b: int, p: int, e: int)
    requires -p <= 2 * (a - b) <= p
    ensures var unit := p as real * Tens(e);
            -unit <= 2.0 * (Value(Decimal(a, e)) - Value(Decimal(b, e))) <= unit
  {
    hide Tens;
    var t := Tens(e);
    var gap := 2.0 * (a as real - b as real);
    assert gap == (2 * (a - b)) as real;
    assert (p as real - gap) * t >= 0.0 && (p as real + gap) * t >= 0.0;
    assert gap * t == 2.0 * (a as real * t - b as real * t);
  }

  /** Rounding keeps exactly the values of at most 28 digits. */
  lemma RoundedKeepsShort(d: Decimal)
    ensures Value(Rounded(d)) == Value(d) <==> Short(Value(d))
  {
    hide Pow10, Value;
    RoundedExactIff(d);
    if Short(Value(d)) {
      var short: Decimal :| Abs(short.coefficient) < Pow10(PRECISION) && Value(short) == Value(d);
      ShortIsDivisible(d, short);
    }
    if Value(Rounded(d)) == Value(d) {
      RoundedIsShort(d);
    }
  }

  lemma RoundedIsShort(d: Decimal)
    ensures Short(Value(Rounded(d)))
  {
    hide Value, Pow10, Rounded;
    var r := Rounded(d);
    RoundedLength(d);
    if Abs(r.coefficient) == Pow10(PRECISION) {
      var unit := Decimal(if r.coefficient >= 0 then 1 else -1, r.exponent + PRECISION);
      ValueShift(unit.coefficient, r.exponent, PRECISION);
      assert unit.coefficient * Pow10(PRECISION) == r.coefficient;
      Pow10Facts(0);
      Pow10Monotone(1, PRECISION);
      assert Value(unit) == Value(r) && Abs(unit.coefficient) < Pow10(PRECISION);
    }
  }

  /** What is kept has at most 28 digits, or is 10^28 after a carry. */
  lemma RoundedLength(d: Decimal)
    ensures Abs(Rounded(d).coefficient) <= Pow10(PRECISION)
  {
    hide Pow10, Length;
    var n, k := Abs(d.coefficient), Excess(d);
    var p := Pow10(k);
    LengthBrackets(n);
    Pow10Monotone(Length(n), PRECISION + k);
    Pow10Add(PRECISION, k);
    QuotientBelow(n, p, Pow10(PRECISION));
  }

  lemma QuotientBelow(n: nat, p: int, q: int)
    requires p > 0 && n < q * p
    ensures NearestEven(n, p) <= q
  {
    Quotient(n, p);
    assert (n / p) * p < q * p;
    LessByFactor(n / p, q, p);
  }

  lemma LessByFactor(a: int, b: int, p: int)
    requires p > 0 && a * p < b * p
    ensures a < b
  {
    assert (b - a) * p > 0;
  }

  // ----- the whole conversion -----

  /** What a reader of the bytes sees, for every decimal and scale: the scaled
      value itself if and only if it is whole and has at most 28 significant
      digits. */
  lemma DecimalRoundTripIff(value: Decimal, scale: nat)
    ensures var x := Value(Scaled(value, scale));
            FromBytes(ToDecimalBytes(value, scale)) as real == x <==> Whole(x) && Short(x)
  {
    hide Encode, FromBytes, Truncate, Rounded, Scaled, Value, Short;
    var d := Scaled(value, scale);
    UnscaledRoundTrip(Truncate(Value(Rounded(d))));
    TruncateTowardZero(Value(Rounded(d)));
    TruncateTowardZero(Value(d));
    RoundedKeepsShort(d);
    if Truncate(Value(Rounded(d))) as real == Value(d) {
      WholeResultIsExact(d);
    }
  }

  /** A whole value that comes out of the rounding and truncation unchanged was
      not rounded. */
  lemma WholeResultIsExact(d: Decimal)
    requires Truncate(Value(Rounded(d))) as real == Value(d)
    ensures Value(Rounded(d)) == Value(d)
  {
    var r, k, n := Rounded(d), Excess(d), Truncate(Value(Rounded(d)));
    TruncateTowardZero(Value(r));
    if r.exponent >= 0 {
      WholeAbove(r);
    } else {
      // the digits dropped lie behind the point, where a whole number has zeros
      var j := -d.exponent;
      ValueShift(n, d.exponent, j);
      TensFacts(0);
      assert Value(Decimal(n, 0)) == n as real;
      ValueInjective(n * Pow10(j), d.coefficient, d.exponent);
      Pow10Add(j - k, k);
      Associate(n, Pow10(j - k), Pow10(k));
      AbsProduct(n * Pow10(j - k), Pow10(k));
      assert Divides(Pow10(k), Abs(d.coefficient));
      RoundedExactIff(d);
    }
  }

  lemma WholeAbove(d: Decimal)
    requires d.exponent >= 0
    ensures Truncate(Value(d)) == d.coefficient * Pow10(d.exponent) && Truncate(Value(d)) as real == Value(d)
  {
    ValueShift(d.coefficient, 0, d.exponent);
    TensFacts(0);
    var n := d.coefficient * Pow10(d.exponent);
    assert Value(d) == n as real;
    assert (n as real).Floor == n && (-(n as real)).Floor == -n by { assert -(n as real) == (-n) as real; }
  }

  /** A value of at most 28 significant digits is cut off toward zero, by less
      than one unit of the last place. */
  lemma DecimalRoundTrip(value: Decimal, scale: nat)
    requires Short(Value(Scaled(value, scale)))
    ensures var x := Value(Scaled(value, scale));
            var read := FromBytes(ToDecimalBytes(value, scale)) as real;
            && -1.0 < x - read < 1.0
            && (x >= 0.0 ==> 0.0 <= read <= x)
            && (x <= 0.0 ==> x <= read <= 0.0)
            && (read == x <==> Whole(x))
  {
    hide Encode, FromBytes, Truncate, Rounded, Scaled, Value, Short, Whole;
    RoundedKeepsShort(Scaled(value, scale));
    UnscaledRoundTrip(Truncate(Value(Rounded(Scaled(value, scale)))));
    TruncateTowardZero(Value(Scaled(value, scale)));
  }

  /** So is every decimal written with at most 28 digits, which all floats are,
      whatever the scale. */
  lemma ShortInputsStayShort(value: Decimal, scale: nat)
    requires Abs(value.coefficient) < Pow10(PRECISION)
    ensures Short(Value(Scaled(value, scale)))
  {
    ValueShift(value.coefficient, value.exponent, scale);
    assert Abs(Decimal(value.coefficient, value.exponent + scale).coefficient) < Pow10(PRECISION);
  }

  lemma ScaledMeans(value: Decimal, scale: nat)
    ensures Value(Scaled(value, scale)) == Value(value) * Pow10(scale) as real
  {
    hide Pow10, Tens;
    Regroup(value.coefficient, Pow10(scale), Tens(value.exponent));
    Commute(value.coefficient as real, Pow10(scale) as real, Tens(value.exponent));
  }

  lemma Commute(a: real, b: real, c: real)
    ensures a * (b * c) == (a * c) * b
  {
  }

  lemma PrecisionMeans()
    ensures Pow10(PRECISION) == 10000000000000000000000000000
  {
    Pow10Add(14, 14);
    assert Pow10(14) == 100000000000000 by {
      Pow10Add(7, 7);
      assert Pow10(7) == 10000000;
    }
  }

  /** In plain terms: a reader sees value times ten to the scale if and only if that
      is whole and an integer below 10^28 in size times a power of ten. */
  lemma DecimalMeans(value: Decimal, scale: nat)
    ensures var x := Value(value) * Pow10(scale) as real;
            FromBytes(ToDecimalBytes(value, scale)) as real == x <==>
            && x.Floor as real == x
            && exists d: Decimal :: -10000000000000000000000000000 < d.coefficient < 10000000000000000000000000000
                                    && Value(d) == x
  {
    hide Encode, FromBytes, Truncate, Rounded, Scaled, Pow10, Tens, ToDecimalBytes, Short, Value;
    DecimalRoundTripIff(value, scale);
    ScaledMeans(value, scale);
    var x, y := Value(value) * Pow10(scale) as real, Value(Scaled(value, scale));
    assert x == y;
    ShortMeans(y);
    assert Whole(y) <==> y.Floor as real == y;
    if d: Decimal :| -10000000000000000000000000000 < d.coefficient < 10000000000000000000000000000 && Value(d) == y {
      assert Value(d) == x;
    }
  }

  lemma ShortMeans(x: real)
    ensures Short(x) <==>
            exists d: Decimal :: -10000000000000000000000000000 < d.coefficient < 10000000000000000000000000000
                                 && Value(d) == x
  {
    hide Pow10, Value;
    PrecisionMeans();
    forall d: Decimal
      ensures Abs(d.coefficient) < Pow10(PRECISION) <==>
              -10000000000000000000000000000 < d.coefficient < 10000000000000000000000000000
    {
    }
  }

  lemma ValueMeans(c: int, e: int)
    ensures Value(Decimal(c, 0)) == c as real
    ensures Value(Decimal(c, e + 1)) == 10.0 * Value(Decimal(c, e))
  {
    hide Tens;
    TensFacts(e);
    Commute(c as real, 10.0, Tens(e));
  }

  /** A digit string exactly in the middle is rounded to the even neighbour. */
  lemma TiesToEven(n: nat, p: int)
    requires p > 0 && 2 * (n % p) == p
    ensures NearestEven(n, p) % 2 == 0
  {
  }

  lemma {:induction false} LengthIs(n: nat, k: nat)
    requires Pow10(k) <= n < Pow10(k + 1)
    ensures Length(n) == k + 1
  {
    if k == 0 {
      assert n / 10 == 0;
    } else {
      LengthIs(n / 10, k - 1);
    }
  }

  lemma LastDigit(p: nat)
    ensures NearestEven(10 * p + 1, 10) == p && NearestEven(10 * p + 9, 10) == p + 1
  {
    assert (10 * p + 1) / 10 == p && (10 * p + 9) / 10 == p;
  }

  /** One digit more and the reader sees another integer: 10^28 + 1 is read as
      10^28. */
  lemma LongIntegerIsRounded()
    ensures var x := Decimal(Pow10(PRECISION) + 1, 0);
            Whole(Value(Scaled(x, 0))) && FromBytes(ToDecimalBytes(x, 0)) == Pow10(PRECISION)
  {
    hide Encode, FromBytes, Truncate, Value, Pow10, Length, NearestEven;
    var p := Pow10(PRECISION - 1);
    var d := Scaled(Decimal(Pow10(PRECISION) + 1, 0), 0);
    Pow10Facts(PRECISION - 1);
    Pow10Facts(PRECISION);
    assert d == Decimal(10 * p + 1, 0);
    LengthIs(10 * p + 1, PRECISION);
    LastDigit(p);
    assert Rounded(d) == Decimal(p, 1);
    WholeAbove(d);
    WholeAbove(Decimal(p, 1));
    TruncateTowardZero(Value(d));
    UnscaledRoundTrip(Truncate(Value(Rounded(d))));
  }

  /** And a long fraction is not cut off but rounded up: 0.99…9 with 29 nines at
      scale 0 is read as 1. */
  lemma LongFractionIsRoundedUp()
    ensures var x := Decimal(Pow10(PRECISION + 1) - 1, 0 - (PRECISION + 1));
            0.0 < Value(Scaled(x, 0)) < 1.0 && FromBytes(ToDecimalBytes(x, 0)) == 1
  {
    hide Encode, FromBytes, Truncate, Pow10, Length, NearestEven, Tens;
    var p, n := Pow10(PRECISION), PRECISION + 1;
    var d := Scaled(Decimal(Pow10(n) - 1, 0 - n), 0);
    Pow10Facts(PRECISION);
    assert d == Decimal(10 * p - 1, 0 - n);
    LengthIs(10 * p - 1, PRECISION);
    LastDigit(p - 1);
    assert Rounded(d) == Decimal(p, 0 - PRECISION);
    Unit(PRECISION);
    Unit(n);
    WholeAbove(Decimal(1, 0));
    assert (10 * p - 1) as real + 1.0 == (10 * p) as real;
    BelowOne((10 * p - 1) as real, Tens(0 - n));
    UnscaledRoundTrip(Truncate(Value(Rounded(d))));
  }

  /** `10^k * 10^-k` is one. */
  lemma Unit(k: nat)
    ensures Value(Decimal(Pow10(k), 0 - k)) == Value(Decimal(1, 0)) == 1.0
  {
    ValueShift(1, 0 - k, k);
    TensFacts(0);
  }

  lemma BelowOne(m: real, t: real)
    requires m > 0.0 && t > 0.0 && (m + 1.0) * t == 1.0
    ensures 0.0 < m * t < 1.0
  {
    assert (m + 1.0) * t == m * t + t;
  }
}
