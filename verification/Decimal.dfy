/**
 The decimal arithmetic of the sales, checkout and receipt packages: numbers are
 coefficient/exponent pairs as the database driver decodes them, rescaled and
 rounded with big-integer division that truncates toward zero.
 */
module Decimal {
  import opened Results

  /** A decoded database number: `coef * 10^exp`, or null, NaN or infinite. A
      valid number may also carry no coefficient at all, which reads as zero. */
  datatype Numeric = Numeric(valid: bool, coef: Option<int>, exp: int, nan: bool, infinite: bool)

  datatype NumericError = NullNumeric | NotANumber | InfiniteNumber

  function Pow10(n: nat): (p: int)
    ensures p >= 1
  {
    if n == 0 then 1 else 10 * Pow10(n - 1)
  }

  /** Quotient and remainder truncated toward zero, as big.Int.QuoRem computes them. */
  function Quo(a: int, b: int): int
    requires b > 0
  {
    if a >= 0 then a / b else -((-a) / b)
  }

  function Rem(a: int, b: int): int
    requires b > 0
  {
    a - Quo(a, b) * b
  }

  /** Division followed by the round-up test the code applies to the remainder. */
  function RoundDiv(c: int, d: int): int
    requires d > 0
  {
    var q, r := Quo(c, d), Rem(c, d);
    if r != 0 && 2 * r >= d then q + 1 else q
  }

  /** The coefficient of `coef * 10^exp` brought to `scale` decimals. */
  function Rescale(coef: int, exp: int, scale: nat): int {
    if exp + scale == 0 then coef
    else if exp + scale > 0 then coef * Pow10(exp + scale)
    else RoundDiv(coef, Pow10(-(exp + scale)))
  }

  function FromScaled(value: int, scale: nat): Numeric {
    Numeric(true, Some(value), 0 - scale, false, false)
  }

  function ScaledInt(n: Numeric, scale: nat): Result<int, NumericError> {
    if !n.valid then Err(NullNumeric)
    else if n.coef.None? then Ok(0)
    else if n.nan then Err(NotANumber)
    else if n.infinite then Err(InfiniteNumber)
    else Ok(Rescale(n.coef.value, n.exp, scale))
  }

  function ZeroMoney(): Numeric {
    FromScaled(0, 2)
  }

  // ----- the three multiplications -----

  /** Sales and receipt: multiply exactly, then round once. */
  function MultiplyThenRound(price: Numeric, quantity: Numeric): Result<Numeric, NumericError> {
    if !price.valid || !quantity.valid then Err(NullNumeric)
    else if price.coef.None? || quantity.coef.None? then Ok(ZeroMoney())
    else Ok(FromScaled(Rescale(price.coef.value * quantity.coef.value, price.exp + quantity.exp, 2), 2))
  }

  /** Checkout: bring both factors to their scale first, then multiply and round. */
  function RescaleThenMultiply(price: Numeric, quantity: Numeric): Result<Numeric, NumericError> {
    match ScaledInt(price, 2)
    case Err(e) => Err(e)
    case Ok(left) =>
      match ScaledInt(quantity, 3)
      case Err(e) => Err(e)
      case Ok(right) => Ok(FromScaled(Rescale(left * right, -5, 2), 2))
  }

  function AddMoney(a: Numeric, b: Numeric): Result<Numeric, NumericError> {
    match ScaledInt(a, 2)
    case Err(e) => Err(e)
    case Ok(left) =>
      match ScaledInt(b, 2)
      case Err(e) => Err(e)
      case Ok(right) => Ok(FromScaled(left + right, 2))
  }

  function SubtractMoney(a: Numeric, b: Numeric): Result<Numeric, NumericError> {
    match ScaledInt(a, 2)
    case Err(e) => Err(e)
    case Ok(left) =>
      match ScaledInt(b, 2)
      case Err(e) => Err(e)
      case Ok(right) => Ok(FromScaled(left - right, 2))
  }

  function CompareMoney(a: Numeric, b: Numeric): Result<int, NumericError> {
    match ScaledInt(a, 2)
    case Err(e) => Err(e)
    case Ok(left) =>
      match ScaledInt(b, 2)
      case Err(e) => Err(e)
      case Ok(right) => Ok(if left < right then -1 else if left > right then 1 else 0)
  }

  function AddQuantity(a: Numeric, b: Numeric): Result<Numeric, NumericError> {
    match ScaledInt(a, 3)
    case Err(e) => Err(e)
    case Ok(left) =>
      match ScaledInt(b, 3)
      case Err(e) => Err(e)
      case Ok(right) => Ok(FromScaled(left + right, 3))
  }

  // ----- decimal values, independent of their representation -----

  /** A power of ten large enough to make both numbers whole. */
  function Lift(e1: int, e2: int): (k: nat)
    ensures e1 + k >= 0 && e2 + k >= 0
  {
    var m := if e1 < e2 then e1 else e2;
    if m < 0 then -m else 0
  }

  /** `c1 * 10^e1 == c2 * 10^e2`. */
  predicate SameDecimal(c1: int, e1: int, c2: int, e2: int) {
    var k := Lift(e1, e2);
    c1 * Pow10(e1 + k) == c2 * Pow10(e2 + k)
  }

  /** `c1 * 10^e1 <= c2 * 10^e2`. */
  predicate AtMostDecimal(c1: int, e1: int, c2: int, e2: int) {
    var k := Lift(e1, e2);
    c1 * Pow10(e1 + k) <= c2 * Pow10(e2 + k)
  }

  /** `n` is some representation of `value / 10^scale`. */
  predicate Represents(n: Numeric, value: int, scale: nat) {
    n.valid && !n.nan && !n.infinite && n.coef.Some? && SameDecimal(n.coef.value, n.exp, value, 0 - scale)
  }

  /** What a sale line of `cents` times `thousandths` comes to, in cents. */
  function LineSubtotal(cents: int, thousandths: int): int {
    RoundDiv(cents * thousandths, 1000)
  }

  // ----- division facts -----

  lemma MulMono(a: int, b: int, c: int)
    requires a <= b && c >= 0
    ensures a * c <= b * c
  {
  }

  lemma MulMonoStrict(a: int, b: int, c: int)
    requires a < b && c > 0
    ensures a * c < b * c
  {
  }

  lemma MulAssoc(a: int, b: int, c: int)
    ensures a * (b * c) == (a * b) * c
  {
  }

  lemma MulExchange(a: int, b: int, c: int, d: int)
    ensures (a * b) * (c * d) == (a * c) * (b * d)
  {
    MulAssoc(a * b, c, d);
    MulAssoc(a * c, b, d);
    assert a * b * c == a * c * b;
  }

  /** Multiplying by a positive factor keeps and reflects the order. */
  lemma MulOrder(a: int, b: int, m: int)
    requires m > 0
    ensures a * m <= b * m <==> a <= b
    ensures a * m == b * m <==> a == b
  {
    if a < b { MulMonoStrict(a, b, m); } else if b < a { MulMonoStrict(b, a, m); }
  }

  lemma DivUnique(a: int, b: int, q: int)
    requires b > 0 && q * b <= a < (q + 1) * b
    ensures a / b == q
  {
    var p := a / b;
    assert a == p * b + a % b;
    if p < q {
      MulMono(p + 1, q, b);
    } else if p > q {
      MulMono(q + 1, p, b);
    }
  }

  lemma DivScale(a: int, b: int, m: int)
    requires b > 0 && m > 0 && a >= 0
    ensures b * m > 0 && (a * m) / (b * m) == a / b
  {
    var q, r := a / b, a % b;
    MulMonoStrict(0, m, b);
    assert b * m > 0;
    assert a * m == q * (b * m) + r * m by {
      assert a == q * b + r;
      assert (q * b + r) * m == q * b * m + r * m;
      assert q * b * m == q * (b * m);
    }
    MulMono(0, r, m);
    MulMonoStrict(r, b, m);
    assert (q + 1) * (b * m) == q * (b * m) + b * m;
    DivUnique(a * m, b * m, q);
  }

  /** Non-negative amounts are rounded half up. */
  lemma RoundDivHalfUp(c: int, d: int)
    requires c >= 0 && d > 0
    ensures RoundDiv(c, d) == (2 * c + d) / (2 * d)
    ensures 2 * c - d < RoundDiv(c, d) * (2 * d) <= 2 * c + d
  {
    var q, r := c / d, c % d;
    assert c == q * d + r;
    var x := RoundDiv(c, d);
    assert x == if 2 * r >= d then q + 1 else q;
    assert x * (2 * d) == 2 * (x * d);
    assert (q + 1) * d == q * d + d;
    assert (x + 1) * (2 * d) == x * (2 * d) + 2 * d;
    DivUnique(2 * c + d, 2 * d, x);
  }

  /** Negative amounts lose their remainder: they are cut toward zero. */
  lemma RoundDivCutsNegatives(c: int, d: int)
    requires c <= 0 && d > 0
    ensures RoundDiv(c, d) == -((-c) / d)
  {
    var q := (-c) / d;
    assert -c == q * d + (-c) % d;
    assert Quo(c, d) == -q;
    assert (-q) * d == -(q * d);
  }

  lemma CutError(c: int, d: int)
    requires c <= 0 && d > 0
    ensures RoundDiv(c, d) * d - c == (-c) % d
  {
    RoundDivCutsNegatives(c, d);
    var q := (-c) / d;
    assert -c == q * d + (-c) % d;
    assert (-q) * d == -(q * d);
  }

  lemma RoundDivExact(x: int, d: int)
    requires d > 0
    ensures RoundDiv(x * d, d) == x
  {
    if x >= 0 {
      MulMono(0, x, d);
      assert (x + 1) * d == x * d + d;
      DivUnique(x * d, d, x);
    } else {
      MulMono(x, 0, d);
      assert (-x) * d == -(x * d);
      assert (-x + 1) * d == (-x) * d + d;
      DivUnique((-x) * d, d, -x);
      RoundDivCutsNegatives(x * d, d);
    }
  }

  /** Multiplying both sides by the same factor does not change the rounding. */
  lemma RoundDivScale(c: int, d: int, m: int)
    requires d > 0 && m > 0
    ensures d * m > 0 && RoundDiv(c * m, d * m) == RoundDiv(c, d)
  {
    MulMonoStrict(0, m, d);
    if c >= 0 {
      assert c * m >= 0 by { MulMono(0, c, m); }
      assert RoundDiv(c, d) == (2 * c + d) / (2 * d) by { RoundDivHalfUp(c, d); }
      assert RoundDiv(c * m, d * m) == (2 * (c * m) + d * m) / (2 * (d * m)) by { RoundDivHalfUp(c * m, d * m); }
      assert 2 * (c * m) + d * m == (2 * c + d) * m;
      assert 2 * (d * m) == (2 * d) * m;
      DivScale(2 * c + d, 2 * d, m);
    } else {
      assert c * m <= 0 by { MulMono(c, 0, m); }
      assert RoundDiv(c, d) == -((-c) / d) by { RoundDivCutsNegatives(c, d); }
      assert RoundDiv(c * m, d * m) == -((-(c * m)) / (d * m)) by { RoundDivCutsNegatives(c * m, d * m); }
      assert -(c * m) == (-c) * m;
      DivScale(-c, d, m);
    }
  }

  lemma DivMono(a: int, b: int, d: int)
    requires d > 0 && a <= b
    ensures a / d <= b / d
  {
    var qa, qb := a / d, b / d;
    assert a == qa * d + a % d && b == qb * d + b % d;
    assert (qb + 1) * d == qb * d + d;
    if qa > qb {
      MulMono(qb + 1, qa, d);
    }
  }

  lemma RoundDivMono(c1: int, c2: int, d: int)
    requires d > 0 && c1 <= c2
    ensures RoundDiv(c1, d) <= RoundDiv(c2, d)
  {
    if c1 >= 0 {
      RoundDivHalfUp(c1, d);
      RoundDivHalfUp(c2, d);
      DivMono(2 * c1 + d, 2 * c2 + d, 2 * d);
    } else if c2 <= 0 {
      RoundDivCutsNegatives(c1, d);
      RoundDivCutsNegatives(c2, d);
      DivMono(-c2, -c1, d);
    } else {
      RoundDivCutsNegatives(c1, d);
      DivMono(0, -c1, d);
      RoundDivHalfUp(c2, d);
      DivMono(0, 2 * c2 + d, 2 * d);
    }
  }

  lemma {:induction false} Pow10Add(a: nat, b: nat)
    ensures Pow10(a + b) == Pow10(a) * Pow10(b)
  {
    if a > 0 {
      Pow10Add(a - 1, b);
      assert Pow10(a + b) == 10 * Pow10(a - 1 + b);
    }
  }

  // ----- rescaling depends only on the value -----

  /** Rescaling written as one rounded division at any common power of ten. */
  lemma RescaleAt(c: int, e: int, s: nat, k: nat)
    requires k >= s && e + k >= 0
    ensures Rescale(c, e, s) == RoundDiv(c * Pow10(e + k), Pow10(k - s))
  {
    if e + s >= 0 {
      Pow10Add(e + s, k - s);
      assert c * Pow10(e + k) == (c * Pow10(e + s)) * Pow10(k - s);
      RoundDivExact(c * Pow10(e + s), Pow10(k - s));
    } else {
      Pow10Add(-(e + s), e + k);
      RoundDivScale(c, Pow10(-(e + s)), Pow10(e + k));
    }
  }

  lemma ScaledOrder(c1: int, e1: int, c2: int, e2: int, k: nat)
    requires k >= Lift(e1, e2)
    ensures AtMostDecimal(c1, e1, c2, e2) <==> c1 * Pow10(e1 + k) <= c2 * Pow10(e2 + k)
    ensures SameDecimal(c1, e1, c2, e2) <==> c1 * Pow10(e1 + k) == c2 * Pow10(e2 + k)
  {
    var j := Lift(e1, e2);
    var x, y, m := c1 * Pow10(e1 + j), c2 * Pow10(e2 + j), Pow10(k - j);
    Pow10Add(e1 + j, k - j);
    Pow10Add(e2 + j, k - j);
    MulAssoc(c1, Pow10(e1 + j), m);
    MulAssoc(c2, Pow10(e2 + j), m);
    MulOrder(x, y, m);
  }

  /** Rounding is monotone in the decimal's value, whatever the representations. */
  lemma RescaleMonotone(c1: int, e1: int, c2: int, e2: int, s: nat)
    requires AtMostDecimal(c1, e1, c2, e2)
    ensures Rescale(c1, e1, s) <= Rescale(c2, e2, s)
  {
    var k := Lift(e1, e2) + s;
    ScaledOrder(c1, e1, c2, e2, k);
    RescaleAt(c1, e1, s, k);
    RescaleAt(c2, e2, s, k);
    RoundDivMono(c1 * Pow10(e1 + k), c2 * Pow10(e2 + k), Pow10(k - s));
  }

  /** Two representations of one decimal rescale to the same integer. */
  lemma RescaleByValue(c1: int, e1: int, c2: int, e2: int, s: nat)
    requires SameDecimal(c1, e1, c2, e2)
    ensures Rescale(c1, e1, s) == Rescale(c2, e2, s)
  {
    RescaleMonotone(c1, e1, c2, e2, s);
    assert AtMostDecimal(c2, e2, c1, e1);
    RescaleMonotone(c2, e2, c1, e1, s);
  }

  /** Reading a column at its own scale is exact for every representation of it. */
  lemma ReadsExactly(n: Numeric, value: int, scale: nat)
    requires Represents(n, value, scale)
    ensures ScaledInt(n, scale) == Ok(value)
  {
    RescaleByValue(n.coef.value, n.exp, value, 0 - scale, scale);
  }

  /** The rounded result is within half a unit of the exact decimal
      exactly when the number is non-negative or loses at most half a unit. */
  lemma WithinHalfUnitIff(c: int, e: int, s: nat, k: nat)
    requires k >= s && e + k >= 0
    ensures (var unit, exact, rounded := Pow10(k - s), c * Pow10(e + k), Rescale(c, e, s);
             -unit <= 2 * (rounded * unit - exact) <= unit
             <==> c >= 0 || 2 * ((-exact) % unit) <= unit)
  {
    var unit, exact := Pow10(k - s), c * Pow10(e + k);
    RescaleAt(c, e, s, k);
    MulOrder(0, c, Pow10(e + k));
    if c >= 0 {
      var x := RoundDiv(exact, unit);
      RoundDivHalfUp(exact, unit);
      MulAssoc(x, 2, unit);
      MulAssoc(2, x, unit);
    } else {
      CutError(exact, unit);
    }
  }

  /** The rounding is half up exactly for non-negative numbers and for those
      whose part cut off is at most a half. */
  lemma RoundsHalfUpIff(c: int, d: int)
    requires d > 0
    ensures RoundDiv(c, d) == (2 * c + d) / (2 * d) <==> c >= 0 || 2 * ((-c) % d) <= d
  {
    if c >= 0 {
      RoundDivHalfUp(c, d);
    } else {
      RoundDivCutsNegatives(c, d);
      var q, r := (-c) / d, (-c) % d;
      assert -c == q * d + r;
      assert (-q) * (2 * d) == -2 * (q * d);
      assert (-q - 1) * (2 * d) == (-q) * (2 * d) - 2 * d;
      assert (-q + 1) * (2 * d) == (-q) * (2 * d) + 2 * d;
      if 2 * r <= d {
        DivUnique(2 * c + d, 2 * d, -q);
      } else {
        DivUnique(2 * c + d, 2 * d, -q - 1);
      }
    }
  }

  /** The same for a decimal and its column's scale, at any common power of ten. */
  lemma RescaleHalfUpIff(c: int, e: int, s: nat, k: nat)
    requires k >= s && e + k >= 0
    ensures (var unit, exact := Pow10(k - s), c * Pow10(e + k);
             Rescale(c, e, s) == (2 * exact + unit) / (2 * unit)
             <==> c >= 0 || 2 * ((-exact) % unit) <= unit)
  {
    var unit, exact := Pow10(k - s), c * Pow10(e + k);
    RescaleAt(c, e, s, k);
    MulOrder(0, c, Pow10(e + k));
    RoundsHalfUpIff(exact, unit);
  }

  lemma RemainderDecides(c: int, d: int)
    requires c >= 0 && d > 0
    ensures RoundDiv(c, d) == if 2 * (c % d) >= d then c / d + 1 else c / d
  {
    assert c == (c / d) * d + c % d;
  }

  /** Changing the sign before or after rounding is the same exactly for amounts
      whose remainder is below a half. */
  lemma RoundingIsOddIff(c: int, d: int)
    requires c >= 0 && d > 0
    ensures RoundDiv(-c, d) == -RoundDiv(c, d) <==> 2 * (c % d) < d
  {
    var q, r := c / d, c % d;
    assert c == q * d + r;
    assert RoundDiv(-c, d) == -q by { RoundDivCutsNegatives(-c, d); }
    assert RoundDiv(c, d) == if 2 * r >= d then q + 1 else q by { RemainderDecides(c, d); }
  }

  // ----- the multiplications agree -----

  lemma ProductOfRepresentations(p: Numeric, a: int, q: Numeric, b: int)
    requires Represents(p, a, 2) && Represents(q, b, 3)
    ensures SameDecimal(p.coef.value * q.coef.value, p.exp + q.exp, a * b, -5)
  {
    var k1, k2 := Lift(p.exp, -2), Lift(q.exp, -3);
    var k := k1 + k2;
    var x, y := p.coef.value, q.coef.value;
    Pow10Add(p.exp + k1, q.exp + k2);
    Pow10Add(k1 - 2, k2 - 3);
    var u, v, w, z := Pow10(p.exp + k1), Pow10(q.exp + k2), Pow10(k1 - 2), Pow10(k2 - 3);
    MulExchange(x, y, u, v);
    MulExchange(a, b, w, z);
    ScaledOrder(x * y, p.exp + q.exp, a * b, -5, k);
  }

  /** For prices of at most two and quantities of at most three decimals, in any
      representation, multiply-then-round and rescale-then-multiply agree. */
  lemma MultiplicationsAgree(p: Numeric, a: int, q: Numeric, b: int)
    requires Represents(p, a, 2) && Represents(q, b, 3)
    ensures MultiplyThenRound(p, q) == Ok(FromScaled(LineSubtotal(a, b), 2))
    ensures RescaleThenMultiply(p, q) == Ok(FromScaled(LineSubtotal(a, b), 2))
  {
    ReadsExactly(p, a, 2);
    ReadsExactly(q, b, 3);
    assert Pow10(3) == 1000 by { assert Pow10(1) == 10; assert Pow10(2) == 100; }
    assert Rescale(a * b, -5, 2) == LineSubtotal(a, b);
    ProductOfRepresentations(p, a, q, b);
    RescaleByValue(p.coef.value * q.coef.value, p.exp + q.exp, a * b, -5, 2);
  }

  /** A price of `cents` and no third decimal, written in tenths of cents. */
  lemma WholeCents(cents: int)
    ensures Represents(FromScaled(cents * 10, 3), cents, 2)
  {
    assert Pow10(1) == 10;
    assert Lift(-3, -2) == 3;
  }

  /** Ten units at a price of `a` tenths of cents cost exactly `a` cents in sales, and
      ten times the rounded price at checkout. */
  lemma TenUnits(a: int)
    ensures MultiplyThenRound(FromScaled(a, 3), FromScaled(10000, 3)) == Ok(FromScaled(a, 2))
    ensures RescaleThenMultiply(FromScaled(a, 3), FromScaled(10000, 3)) == Ok(FromScaled(RoundDiv(a, 10) * 10, 2))
  {
    assert Pow10(1) == 10 && Pow10(2) == 100 && Pow10(3) == 1000 && Pow10(4) == 10000;
    assert Rescale(a * 10000, -6, 2) == a by { RoundDivExact(a, 10000); }
    var x := RoundDiv(a, 10);
    assert Rescale(x * 10000, -5, 2) == x * 10 by {
      assert x * 10000 == (x * 10) * 1000;
      RoundDivExact(x * 10, 1000);
    }
  }

  /** The two multiplications agree for every quantity exactly when the price has no
      third decimal. The price columns hold none. */
  lemma MultiplicationsAgreeIff(a: int)
    ensures (forall b: int :: MultiplyThenRound(FromScaled(a, 3), FromScaled(b, 3))
                           == RescaleThenMultiply(FromScaled(a, 3), FromScaled(b, 3)))
       <==> a % 10 == 0
  {
    if a % 10 == 0 {
      forall b: int
        ensures MultiplyThenRound(FromScaled(a, 3), FromScaled(b, 3))
             == RescaleThenMultiply(FromScaled(a, 3), FromScaled(b, 3))
      {
        assert a == (a / 10) * 10;
        WholeCents(a / 10);
        MultiplicationsAgree(FromScaled(a, 3), a / 10, FromScaled(b, 3), b);
      }
    } else {
      TenUnits(a);
      assert RoundDiv(a, 10) * 10 != a;
    }
  }

  // ----- the row check of the sale_items table -----

  /** SQL ROUND: half away from zero. */
  function RoundAwayDiv(c: int, d: int): int
    requires d > 0
  {
    if c >= 0 then (2 * c + d) / (2 * d) else -((2 * -c + d) / (2 * d))
  }

  /** The check `total = ROUND(unit_price * quantity - discount, 2)`. */
  predicate RowTotalConsistent(cents: int, thousandths: int, discount: int, total: int) {
    total == RoundAwayDiv(cents * thousandths - discount * 1000, 1000)
  }

  /** The table's rounding of the difference agrees with the service's difference of
      the rounded amount, except for a full discount on an amount that ends in
      exactly half a cent. */
  lemma RowCheckAcceptsIff(cents: int, thousandths: int, discount: int)
    requires cents >= 0 && thousandths >= 0
    requires 0 <= discount <= LineSubtotal(cents, thousandths)
    ensures RowTotalConsistent(cents, thousandths, discount, LineSubtotal(cents, thousandths) - discount)
       <==> !(discount == LineSubtotal(cents, thousandths) && (cents * thousandths) % 1000 == 500)
  {
    var g := cents * thousandths;
    MulMono(0, cents, thousandths);
    var q, r := g / 1000, g % 1000;
    assert g == q * 1000 + r;
    assert LineSubtotal(cents, thousandths) == if r >= 500 then q + 1 else q;
  }
}
