/** Decimal arithmetic on scaled integers: when it throws, and that no step leaves the integer type
    that stores it. */
module DecimalArithmetic {

  const PRECISION_LIMIT := 38

  function Pow10(n: nat): (r: int)
    ensures r >= 1
  {
    if n == 0 then 1 else 10 * Pow10(n - 1)
  }

  /** The largest number of the integer type that stores decimals of a precision. */
  function StorageMax(precision: nat): int {
    if precision <= 4 then 0x7fff
    else if precision <= 9 then 0x7fff_ffff
    else if precision <= 18 then 0x7fff_ffff_ffff_ffff
    else 0x7fff_ffff_ffff_ffff_ffff_ffff_ffff_ffff
  }

  predicate InPrecision(x: int, precision: nat) {
    -Pow10(precision) < x < Pow10(precision)
  }

  /** A step's value fits the storage of a precision. */
  predicate Stored(x: int, precision: nat) {
    -StorageMax(precision) - 1 <= x <= StorageMax(precision)
  }

  datatype Outcome = Value(x: int) | Overflow

  // ----- powers of ten -----

  lemma {:induction false} Pow10Add(a: nat, b: nat)
    ensures Pow10(a + b) == Pow10(a) * Pow10(b)
  {
    if a > 0 {
      Pow10Add(a - 1, b);
      assert Pow10(a + b) == 10 * (Pow10(a - 1) * Pow10(b)) == (10 * Pow10(a - 1)) * Pow10(b);
    }
  }

  lemma {:induction false} Pow10Grows(a: nat, b: nat)
    requires a <= b
    ensures Pow10(a) <= Pow10(b)
    decreases b - a
  {
    if a < b { Pow10Grows(a, b - 1); }
  }

  lemma {:induction false} Pow10Values()
    ensures Pow10(4) == 10000 && Pow10(9) == 1000000000 && Pow10(18) == 1000000000000000000
    ensures Pow10(38) == 100000000000000000000000000000000000000
  {
    assert Pow10(2) == 100 && Pow10(4) == 10000;
    Pow10Add(4, 4);
    Pow10Add(9, 9);
    Pow10Add(18, 18);
    Pow10Add(36, 2);
    assert Pow10(9) == 10 * Pow10(8);
  }

  /** The bound of a precision fits its storage, so everything up to the bound does. */
  lemma {:induction false} BoundStored(x: int, precision: nat)
    requires precision <= PRECISION_LIMIT && -Pow10(precision) <= x <= Pow10(precision)
    ensures Stored(x, precision)
  {
    Pow10Values();
    var top := if precision <= 4 then 4 else if precision <= 9 then 9 else if precision <= 18 then 18 else 38;
    Pow10Grows(precision, top);
  }

  // ----- addition, subtraction, multiplication -----

  function Add(left: int, right: int, precision: nat): Outcome {
    if (right > 0 && Pow10(precision) - right <= left) || (right < 0 && -Pow10(precision) - right >= left) then Overflow
    else Value(left + right)
  }

  function Subtract(left: int, right: int, precision: nat): Outcome {
    if (right > 0 && -Pow10(precision) + right >= left) || (right < 0 && Pow10(precision) + right <= left) then Overflow
    else Value(left - right)
  }

  function Multiply(left: int, right: int, precision: nat): Outcome {
    if left * right <= -Pow10(precision) || left * right >= Pow10(precision) then Overflow else Value(left * right)
  }

  /** Addition throws exactly if the sum leaves the precision, and its steps are stored. */
  lemma {:induction false} AddExact(left: int, right: int, precision: nat)
    requires precision <= PRECISION_LIMIT && InPrecision(left, precision) && InPrecision(right, precision)
    ensures Add(left, right, precision) ==
            if InPrecision(left + right, precision) then Value(left + right) else Overflow
    ensures right > 0 ==> Stored(Pow10(precision) - right, precision)
    ensures right < 0 ==> Stored(-Pow10(precision) - right, precision)
    ensures Add(left, right, precision).Value? ==> Stored(left + right, precision)
  {
    if right > 0 { BoundStored(Pow10(precision) - right, precision); }
    if right < 0 { BoundStored(-Pow10(precision) - right, precision); }
    if InPrecision(left + right, precision) { BoundStored(left + right, precision); }
  }

  lemma {:induction false} SubtractExact(left: int, right: int, precision: nat)
    requires precision <= PRECISION_LIMIT && InPrecision(left, precision) && InPrecision(right, precision)
    ensures Subtract(left, right, precision) ==
            if InPrecision(left - right, precision) then Value(left - right) else Overflow
    ensures right > 0 ==> Stored(-Pow10(precision) + right, precision)
    ensures right < 0 ==> Stored(Pow10(precision) + right, precision)
    ensures Subtract(left, right, precision).Value? ==> Stored(left - right, precision)
  {
    if right > 0 { BoundStored(-Pow10(precision) + right, precision); }
    if right < 0 { BoundStored(Pow10(precision) + right, precision); }
    if InPrecision(left - right, precision) { BoundStored(left - right, precision); }
  }

  datatype Params = Params(precision: nat, scale: nat) | TooPrecise

  /** The result type of a product; an error if it would need more than 38 digits. */
  function MultiplyParams(p1: nat, s1: nat, p2: nat, s2: nat): Params {
    if p1 + p2 + 1 > PRECISION_LIMIT then TooPrecise else Params(p1 + p2 + 1, s1 + s2)
  }

  lemma {:induction false} ProductBound(a: int, b: int, m: int, n: int)
    requires -m < a < m && -n < b < n
    ensures -(m * n) < a * b < m * n
  {
    var x, y := if a < 0 then -a else a, if b < 0 then -b else b;
    assert a * b == x * y || a * b == -(x * y);
    assert 0 <= x * y by { if x > 0 { MulNat(x, y); } }
    assert x * y < m * n by { MulBelow(x, y, m, n); }
  }

  lemma {:induction false} MulNat(x: nat, y: nat)
    ensures x * y >= 0
  {
  }

  lemma {:induction false} MulBelow(x: nat, y: nat, m: int, n: int)
    requires x < m && y < n
    ensures x * y < m * n
  {
    MulNat(x, n - y);
    MulNat(m - x - 1, n);
    assert m * n == x * y + x * (n - y) + (m - x - 1) * n + n;
  }

  /** `z` with scale `s` is the product of `x` with scale `s1` and `y` with scale `s2`. */
  ghost predicate IsProduct(z: int, s: nat, x: int, s1: nat, y: int, s2: nat) {
    z * (Pow10(s1) * Pow10(s2)) == x * y * Pow10(s)
  }

  /** A product is of a type exactly if 38 digits suffice. A product of numbers within their precisions is
      then within the result's, so the check never fires, and with the result's scale it means the
      product of what the operands mean. */
  lemma {:induction false} MultiplyNeverOverflows(left: int, right: int, p1: nat, s1: nat, p2: nat, s2: nat)
    requires InPrecision(left, p1) && InPrecision(right, p2)
    ensures MultiplyParams(p1, s1, p2, s2).TooPrecise? <==> p1 + p2 >= PRECISION_LIMIT
    ensures match MultiplyParams(p1, s1, p2, s2)
            case TooPrecise => true
            case Params(p, s) =>
              && p <= PRECISION_LIMIT && (s1 <= p1 && s2 <= p2 ==> s <= p)
              && var z := Multiply(left, right, p);
              && z.Value? && InPrecision(z.x, p) && Stored(z.x, p) && IsProduct(z.x, s, left, s1, right, s2)
  {
    if p1 + p2 < PRECISION_LIMIT {
      ProductBound(left, right, Pow10(p1), Pow10(p2));
      Pow10Add(p1, p2);
      Pow10Grows(p1 + p2, p1 + p2 + 1);
      BoundStored(left * right, p1 + p2 + 1);
      Pow10Add(s1, s2);
    }
  }

  function Max(a: int, b: int): int { if a > b then a else b }
  function Min(a: int, b: int): int { if a < b then a else b }

  /** The result type of sums and differences. */
  function AddParams(p1: int, s1: int, p2: int, s2: int): (int, int) {
    var whole := Max(p1 - s1, p2 - s2);
    var p := Min(PRECISION_LIMIT, Max(s1, s2) + whole + 1);
    var s := Min(p, Max(s1, s2));
    (p, if whole < Min(PRECISION_LIMIT, p) - s then Min(p, PRECISION_LIMIT) - whole else s)
  }

  /** The extra digit of a sum goes to its scale. The result has as many digits before the point as the
      longer operand or, where 38 digits do not suffice, only what the longer scale leaves of them. */
  lemma {:induction false} AddParamsWholeDigits(p1: nat, s1: nat, p2: nat, s2: nat)
    requires s1 <= p1 <= PRECISION_LIMIT && s2 <= p2 <= PRECISION_LIMIT
    ensures var scale, whole := Max(s1, s2), Max(p1 - s1, p2 - s2);
            var (p, s) := AddParams(p1, s1, p2, s2);
            if scale + whole + 1 <= PRECISION_LIMIT then s == scale + 1 && p - s == whole
            else p == PRECISION_LIMIT && s == scale && p - s == PRECISION_LIMIT - scale <= whole
  {
  }

  /** A decimal with more digits behind the point. */
  function Rescaled(x: int, from: nat, to: nat): int
    requires from <= to
  {
    x * Pow10(to - from)
  }

  lemma {:induction false} ScaleBound(x: int, m: int, d: int)
    requires -m < x < m && d > 0
    ensures -(m * d) < x * d < m * d
  {
    assert (m - x) * d > 0 && (m + x) * d > 0;
  }

  lemma {:induction false} RescaledFits(x: int, p: nat, from: nat, to: nat, q: nat)
    requires InPrecision(x, p) && from <= to && p + (to - from) <= q
    ensures InPrecision(Rescaled(x, from, to), q)
  {
    ScaleBound(x, Pow10(p), Pow10(to - from));
    Pow10Add(p, to - from);
    Pow10Grows(p + (to - from), q);
  }

  /** For all operand types: a sum throws exactly if it does not fit the digits the result type has
      before the point, which are those of the longer operand unless the type is cut at 38 digits. The
      operands always fit a type that is not cut. */
  lemma {:induction false} SumThrowsIff(x: int, p1: nat, s1: nat, y: int, p2: nat, s2: nat)
    requires s1 <= p1 <= PRECISION_LIMIT && s2 <= p2 <= PRECISION_LIMIT && InPrecision(x, p1) && InPrecision(y, p2)
    requires var (p, s) := AddParams(p1, s1, p2, s2);
             || Max(s1, s2) + Max(p1 - s1, p2 - s2) + 1 <= PRECISION_LIMIT
             || (InPrecision(Rescaled(x, s1, s), p) && InPrecision(Rescaled(y, s2, s), p))
    ensures var (p, s) := AddParams(p1, s1, p2, s2);
            && s1 <= s && s2 <= s <= p <= PRECISION_LIMIT
            && var a, b := Rescaled(x, s1, s), Rescaled(y, s2, s);
            && InPrecision(a, p) && InPrecision(b, p)
            && (Add(a, b, p) == Overflow <==>
                a + b >= Pow10(p - s) * Pow10(s) || a + b <= -(Pow10(p - s) * Pow10(s)))
  {
    AddParamsWholeDigits(p1, s1, p2, s2);
    var (p, s) := AddParams(p1, s1, p2, s2);
    if Max(s1, s2) + Max(p1 - s1, p2 - s2) + 1 <= PRECISION_LIMIT {
      RescaledFits(x, p1, s1, s, p);
      RescaledFits(y, p2, s2, s, p);
    }
    AddExact(Rescaled(x, s1, s), Rescaled(y, s2, s), p);
    Pow10Add(p - s, s);
  }

  lemma {:induction false} RescaledMeans(x: int, from: nat, to: nat)
    requires from <= to
    ensures Rescaled(x, from, to) * Pow10(from) == x * Pow10(to)
  {
    Pow10Add(to - from, from);
    assert x * Pow10(to - from) * Pow10(from) == x * (Pow10(to - from) * Pow10(from));
  }

  /** `z` with scale `s` is the sum of `x` with scale `s1` and `y` with scale `s2`. */
  ghost predicate IsSum(z: int, s: nat, x: int, s1: nat, y: int, s2: nat) {
    z * (Pow10(s1) * Pow10(s2)) == (x * Pow10(s2) + y * Pow10(s1)) * Pow10(s)
  }

  lemma {:induction false} SumOf(a: int, b: int, x: int, y: int, m: int, n: int, u: int)
    requires a * m == x * u && b * n == y * u
    ensures (a + b) * (m * n) == (x * n + y * m) * u
  {
    assert (a + b) * (m * n) == (a * m) * n + (b * n) * m;
    assert (x * n + y * m) * u == (x * u) * n + (y * u) * m;
  }

  lemma {:induction false} SumIs(a: int, b: int, s: nat, x: int, s1: nat, y: int, s2: nat)
    requires a * Pow10(s1) == x * Pow10(s) && b * Pow10(s2) == y * Pow10(s)
    ensures IsSum(a + b, s, x, s1, y, s2) && IsSum(a - b, s, x, s1, -y, s2)
  {
    SumOf(a, b, x, y, Pow10(s1), Pow10(s2), Pow10(s));
    assert (-b) * Pow10(s2) == (-y) * Pow10(s);
    SumOf(a, -b, x, -y, Pow10(s1), Pow10(s2), Pow10(s));
  }

  /** Operands cast to the result type mean what they meant, and a sum or difference that does not throw
      means their sum or difference. */
  lemma {:induction false} SumMeans(x: int, p1: nat, s1: nat, y: int, p2: nat, s2: nat)
    requires s1 <= p1 <= PRECISION_LIMIT && s2 <= p2 <= PRECISION_LIMIT
    ensures var (p, s) := AddParams(p1, s1, p2, s2);
            && s1 <= s && s2 <= s <= p <= PRECISION_LIMIT
            && var a, b := Rescaled(x, s1, s), Rescaled(y, s2, s);
            && a * Pow10(s1) == x * Pow10(s) && b * Pow10(s2) == y * Pow10(s)
            && (Add(a, b, p).Value? ==> IsSum(Add(a, b, p).x, s, x, s1, y, s2))
            && (Subtract(a, b, p).Value? ==> IsSum(Subtract(a, b, p).x, s, x, s1, -y, s2))
  {
    AddParamsWholeDigits(p1, s1, p2, s2);
    var (p, s) := AddParams(p1, s1, p2, s2);
    RescaledMeans(x, s1, s);
    RescaledMeans(y, s2, s);
    SumIs(Rescaled(x, s1, s), Rescaled(y, s2, s), s, x, s1, y, s2);
  }

  lemma {:induction false} SmallSumOverflows()
    ensures AddParams(2, 0, 2, 0) == (3, 1) && Add(990, 990, 3) == Overflow
  {
    assert Pow10(1) == 10 && Pow10(3) == 10 * Pow10(2);
  }

  // ----- rounding -----

  /** Division and remainder that truncate toward zero. */
  function TruncDiv(a: int, b: int): int
    requires b > 0
  {
    if a >= 0 then a / b else -(-a / b)
  }

  function TruncMod(a: int, b: int): int
    requires b > 0
  {
    a - b * TruncDiv(a, b)
  }

  /** What is divided by the scale at the end. */
  function FloorNumerator(input: int, unit: int): int
    requires unit > 0
  {
    if input < 0 then input - (if TruncMod(input, unit) == 0 then 0 else unit + TruncMod(input, unit))
    else input - TruncMod(input, unit)
  }

  function CeilNumerator(input: int, unit: int): int
    requires unit > 0
  {
    if input < 0 then input - TruncMod(input, unit)
    else input + if TruncMod(input, unit) == 0 then 0 else unit - TruncMod(input, unit)
  }

  function Floor(input: int, scale: nat): int {
    TruncDiv(FloorNumerator(input, Pow10(scale)), Pow10(scale))
  }

  function Ceil(input: int, scale: nat): int {
    TruncDiv(CeilNumerator(input, Pow10(scale)), Pow10(scale))
  }

  /** A multiple of the unit that is below the unit is zero. */
  lemma {:induction false} OnlyZero(unit: int, k: int, r: int)
    requires unit > 0 && unit * k == r && 0 <= r < unit
    ensures k == 0
  {
    assert unit * k == unit + unit * (k - 1) && unit * k == unit * (k + 1) - unit;
    MulSign(unit, k - 1);
    MulSign(unit, k + 1);
  }

  lemma {:induction false} MulSign(unit: int, k: int)
    requires unit > 0
    ensures k >= 0 ==> unit * k >= 0
    ensures k <= 0 ==> unit * k <= 0
  {
    if k >= 0 { MulNat(unit, k); } else { MulNat(unit, -k); assert unit * k == -(unit * (-k)); }
  }

  lemma {:induction false} DivExact(q: nat, unit: int)
    requires unit > 0
    ensures (unit * q) / unit == q && unit * q >= 0
  {
    MulNat(unit, q);
    var n := unit * q;
    var d, r := n / unit, n % unit;
    assert n == unit * d + r;
    assert unit * (q - d) == unit * q - unit * d;
    OnlyZero(unit, q - d, r);
  }

  lemma {:induction false} TruncExact(q: int, unit: int)
    requires unit > 0
    ensures TruncDiv(unit * q, unit) == q
  {
    if q >= 0 {
      DivExact(q, unit);
    } else {
      DivExact(-q, unit);
      assert unit * (-q) == -(unit * q);
    }
  }

  lemma {:induction false} Remainder(input: int, unit: int)
    requires unit > 0
    ensures input >= 0 ==> 0 <= TruncMod(input, unit) < unit
    ensures input < 0 ==> -unit < TruncMod(input, unit) <= 0
  {
    if input < 0 {
      assert -input == unit * (-input / unit) + (-input) % unit;
    } else {
      assert input == unit * (input / unit) + input % unit;
    }
  }

  /** The numerator is the multiple of the unit next below the input. */
  lemma {:induction false} FloorMultiple(input: int, unit: int) returns (q: int)
    requires unit > 0
    ensures FloorNumerator(input, unit) == unit * q && unit * q <= input < unit * q + unit
  {
    Remainder(input, unit);
    var d := TruncDiv(input, unit);
    q := if input < 0 && TruncMod(input, unit) != 0 then d - 1 else d;
    assert unit * (d - 1) == unit * d - unit;
  }

  lemma {:induction false} CeilMultiple(input: int, unit: int) returns (q: int)
    requires unit > 0
    ensures CeilNumerator(input, unit) == unit * q && unit * q - unit < input <= unit * q
  {
    Remainder(input, unit);
    var d := TruncDiv(input, unit);
    q := if input >= 0 && TruncMod(input, unit) != 0 then d + 1 else d;
    assert unit * (d + 1) == unit * d + unit;
  }

  /** Floor is the greatest whole number not above the decimal; its steps are stored. */
  lemma {:induction false} FloorExact(input: int, precision: nat, scale: nat)
    requires scale <= precision <= PRECISION_LIMIT && InPrecision(input, precision)
    ensures Pow10(scale) * Floor(input, scale) <= input < Pow10(scale) * Floor(input, scale) + Pow10(scale)
    ensures Stored(FloorNumerator(input, Pow10(scale)), precision)
    ensures InPrecision(Floor(input, scale), precision)
  {
    var unit := Pow10(scale);
    var q := FloorMultiple(input, unit);
    TruncExact(q, unit);
    MultipleInside(q, input, scale, precision);
    BoundStored(unit * q, precision);
    if scale == 0 { assert unit * q == q; } else { QuotientInside(q, scale, precision); }
  }

  /** Ceil is the least whole number not below the decimal; its steps are stored. */
  lemma {:induction false} CeilExact(input: int, precision: nat, scale: nat)
    requires scale <= precision <= PRECISION_LIMIT && InPrecision(input, precision)
    ensures Pow10(scale) * Ceil(input, scale) - Pow10(scale) < input <= Pow10(scale) * Ceil(input, scale)
    ensures Stored(CeilNumerator(input, Pow10(scale)), precision)
    ensures InPrecision(Ceil(input, scale), precision)
  {
    var unit := Pow10(scale);
    var q := CeilMultiple(input, unit);
    TruncExact(q, unit);
    MultipleAbove(q, input, scale, precision);
    BoundStored(unit * q, precision);
    if scale == 0 { assert unit * q == q; } else { QuotientInside(q, scale, precision); }
  }

  lemma {:induction false} QuotientInside(q: int, scale: nat, precision: nat)
    requires 0 < scale <= precision && -Pow10(precision) <= Pow10(scale) * q <= Pow10(precision)
    ensures InPrecision(q, precision)
  {
    var unit := Pow10(scale);
    assert unit >= 10;
    var m := if q < 0 then -q else q;
    assert unit * q == unit * m || unit * q == -(unit * m);
    MulNat(unit - 10, m);
    assert unit * m == (unit - 10) * m + 10 * m;
    assert 10 * m <= Pow10(precision);
  }

  lemma {:induction false} MultipleInside(q: int, input: int, scale: nat, precision: nat)
    requires scale <= precision && InPrecision(input, precision) &&
             Pow10(scale) * q <= input < Pow10(scale) * q + Pow10(scale)
    ensures -Pow10(precision) <= Pow10(scale) * q <= Pow10(precision)
  {
    Pow10Add(scale, precision - scale);
    NoMultipleBetween(Pow10(scale), q, -Pow10(precision - scale));
  }

  lemma {:induction false} MultipleAbove(q: int, input: int, scale: nat, precision: nat)
    requires scale <= precision && InPrecision(input, precision) &&
             Pow10(scale) * q - Pow10(scale) < input <= Pow10(scale) * q
    ensures -Pow10(precision) <= Pow10(scale) * q <= Pow10(precision)
  {
    Pow10Add(scale, precision - scale);
    NoMultipleBetween(Pow10(scale), -q, -Pow10(precision - scale));
    assert Pow10(scale) * (-q) == -(Pow10(scale) * q);
  }

  lemma {:induction false} NoMultipleBetween(unit: int, q: int, r: int)
    requires unit > 0 && unit * q + unit > unit * r
    ensures unit * q >= unit * r
  {
    assert unit * r == unit * q + unit + unit * (r - q - 1);
    assert unit * q == unit * r + unit * (q - r);
    MulSign(unit, r - q - 1);
    MulSign(unit, q - r);
  }
}
