/**
 The catalog's printer never rounds: it writes the number out in full, drops
 trailing zeros and refuses what still has too many places. It is compared here
 with the rescale-and-cut printer of the other packages.
 */
module CatalogText {
  import opened Results
  import opened Decimal
  import opened DecimalText

  datatype CatalogError = NullValue | NaNValue | InfiniteValue | MorePlacesThanScale

  function Coefficient(n: Numeric): int {
    if n.coef.Some? then n.coef.value else 0
  }

  function PlainString(n: Numeric): string {
    var c := Coefficient(n);
    var sign, digits := if c < 0 then "-" else "", Digits(Abs(c));
    if n.exp >= 0 then sign + digits + Zeros(n.exp)
    else
      var k := -n.exp;
      if |digits| > k then sign + digits[..|digits| - k] + "." + digits[|digits| - k..]
      else sign + "0." + Zeros(k - |digits|) + digits
  }

  function FixedScaleString(n: Numeric, scale: nat): Result<string, CatalogError> {
    if !n.valid then Err(NullValue)
    else if n.nan then Err(NaNValue)
    else if n.infinite then Err(InfiniteValue)
    else FitFraction(Cut(PlainString(n), '.'), scale)
  }

  function FitFraction(parts: CutResult, scale: nat): Result<string, CatalogError> {
    if !parts.found then Ok(parts.before + "." + Zeros(scale))
    else
      var fraction := TrimRightZeros(parts.after);
      if |fraction| > scale then Err(MorePlacesThanScale)
      else Ok(parts.before + "." + PadRight(fraction, scale))
  }

  method PrintFixedScale(n: Numeric, scale: nat) returns (r: Result<string, CatalogError>)
    ensures r == FixedScaleString(n, scale)
  {
    if !n.valid { return Err(NullValue); }
    if n.nan { return Err(NaNValue); }
    if n.infinite { return Err(InfiniteValue); }
    var parts := Cut(PlainString(n), '.');
    if !parts.found { return Ok(parts.before + "." + Zeros(scale)); }
    var fraction := TrimRightZeros(parts.after);
    if |fraction| > scale { return Err(MorePlacesThanScale); }
    fraction := PadWithZeros(fraction, scale);
    return Ok(parts.before + "." + fraction);
  }

  /** The decimal `c * 10^exp` has at most `scale` places. */
  predicate FitsScale(c: int, exp: int, scale: nat) {
    exp + scale >= 0 || Abs(c) % Pow10(-(exp + scale)) == 0
  }

  // ----- digits of shifted numbers -----

  lemma ShiftOne(x: nat, k: nat)
    ensures DropDigits(10 * x, k + 1) == DropDigits(x, k)
    ensures LastDigits(10 * x, k + 1) == LastDigits(x, k) + "0"
  {
    assert (10 * x) / 10 == x && (10 * x) % 10 == 0;
    assert DigitChar(0) == '0';
  }

  lemma {:induction false} ShiftDigits(n: nat, k: nat, m: nat)
    ensures n * Pow10(m) >= 0
    ensures DropDigits(n * Pow10(m), k + m) == DropDigits(n, k)
    ensures LastDigits(n * Pow10(m), k + m) == LastDigits(n, k) + Zeros(m)
  {
    MulMono(0, n, Pow10(m));
    if m == 0 {
      assert n * Pow10(m) == n;
      assert Zeros(0) == "";
    } else {
      ShiftDigits(n, k, m - 1);
      TimesPow10(n, m);
      ShiftOne(n * Pow10(m - 1), k + m - 1);
      ZerosAfter(LastDigits(n, k), m - 1);
    }
  }

  lemma DigitsTimesTen(x: nat)
    requires x > 0
    ensures Digits(10 * x) == Digits(x) + "0"
  {
    assert DigitChar(0) == '0';
    assert (10 * x) / 10 == x && (10 * x) % 10 == 0;
  }

  lemma TimesPow10(n: nat, m: nat)
    requires m > 0
    ensures n * Pow10(m) == 10 * (n * Pow10(m - 1))
  {
    MulAssoc(n, 10, Pow10(m - 1));
    MulAssoc(10, n, Pow10(m - 1));
  }

  lemma {:induction false} DigitsOfShifted(n: nat, m: nat)
    requires n > 0
    ensures n * Pow10(m) > 0 && Digits(n * Pow10(m)) == Digits(n) + Zeros(m)
  {
    MulMonoStrict(0, n, Pow10(m));
    if m == 0 {
      assert n * Pow10(m) == n;
      assert Zeros(m) == "";
    } else {
      DigitsOfShifted(n, m - 1);
      TimesPow10(n, m);
      DigitsTimesTen(n * Pow10(m - 1));
      ZerosAfter(Digits(n), m - 1);
    }
  }

  lemma {:induction false} DropAndLast(n: nat, m: nat)
    ensures n == DropDigits(n, m) * Pow10(m) + ReadDigits(LastDigits(n, m))
    ensures ReadDigits(LastDigits(n, m)) < Pow10(m)
    decreases m
  {
    if m > 0 {
      var h := n / 10;
      var init := LastDigits(h, m - 1);
      DropAndLast(h, m - 1);
      assert ReadDigits(LastDigits(n, m)) == 10 * ReadDigits(init) + n % 10 by { ReadAppend(init, n % 10); }
      TensTimes(DropDigits(h, m - 1), Pow10(m - 1));
      assert n == 10 * h + n % 10;
    }
  }

  lemma TensTimes(q: int, p: int)
    ensures q * (10 * p) == 10 * (q * p)
  {
  }

  lemma {:induction false} ReadsZero(s: string)
    requires Digital(s)
    ensures ReadDigits(s) == 0 <==> s == Zeros(|s|)
  {
    if s != "" {
      var init := s[..|s| - 1];
      ReadsZero(init);
      assert Zeros(|s|) == Zeros(|init|) + "0";
      assert s == init + [s[|s| - 1]];
      assert s == Zeros(|s|) ==> init == Zeros(|s|)[..|init|] == Zeros(|init|);
    }
  }

  lemma LastDigitsZero(n: nat, m: nat)
    ensures LastDigits(n, m) == Zeros(m) <==> n % Pow10(m) == 0
    ensures n % Pow10(m) == 0 ==> n == DropDigits(n, m) * Pow10(m)
  {
    var q, p, r := DropDigits(n, m), Pow10(m), ReadDigits(LastDigits(n, m));
    assert r == 0 <==> LastDigits(n, m) == Zeros(m) by { ReadsZero(LastDigits(n, m)); }
    assert n == q * p + r && 0 <= r < p by { DropAndLast(n, m); }
    RemainderIs(n, p, q, r);
  }

  lemma RemainderIs(n: nat, p: int, q: int, r: int)
    requires p > 0 && n == q * p + r && 0 <= r < p
    ensures n % p == r
  {
    assert (q + 1) * p == q * p + p;
    DivUnique(n, p, q);
  }

  lemma {:induction false} LastDigitsSplit(n: nat, k: nat, m: nat)
    ensures LastDigits(n, k + m) == LastDigits(DropDigits(n, m), k) + LastDigits(n, m)
    decreases m
  {
    if m > 0 {
      LastDigitsSplit(n / 10, k, m - 1);
    }
  }

  /** Dropping trailing zeros and padding back is the identity up to zeros. */
  lemma TrimThenPad(f: string, z: nat, scale: nat)
    requires |f| == scale || (z == 0 && |f| <= scale)
    ensures |TrimRightZeros(f + Zeros(z))| <= scale
    ensures PadRight(TrimRightZeros(f + Zeros(z)), scale) == f + Zeros(scale - |f|)
  {
    var g := f + Zeros(z);
    var t := TrimRightZeros(g);
    TrimRightZerosShape(g);
    var rest := Zeros(|g| - |t|);
    assert t != "" ==> t[|t| - 1] == g[|t| - 1];
    TrimmedPads(f, t, rest, z, scale);
  }

  lemma TrimmedPads(f: string, t: string, rest: string, z: nat, scale: nat)
    requires f + Zeros(z) == t + rest && rest == Zeros(|rest|)
    requires |t| <= |f| <= scale
    ensures PadRight(t, scale) == f + Zeros(scale - |f|)
  {
    var g := f + Zeros(z);
    forall i | 0 <= i < scale
      ensures PadRight(t, scale)[i] == (f + Zeros(scale - |f|))[i]
    {
      if i < |t| {
        assert g[i] == f[i] == t[i];
      } else if i < |f| {
        assert g[i] == f[i] == rest[i - |t|];
      }
    }
  }

  lemma TrimFitsIff(head: string, tail: string)
    ensures |TrimRightZeros(head + tail)| <= |head| <==> tail == Zeros(|tail|)
  {
    var whole := head + tail;
    var t := TrimRightZeros(whole);
    TrimRightZerosShape(whole);
    if tail == Zeros(|tail|) {
      TrimThenPad(head, |tail|, |head|);
    } else if |t| <= |head| {
      var rest := Zeros(|whole| - |t|);
      forall i | 0 <= i < |tail| ensures tail[i] == '0' {
        assert whole[|head| + i] == tail[i];
        assert (t + rest)[|head| + i] == rest[|head| + i - |t|];
      }
      assert false;
    }
  }

  // ----- the two printers -----

  lemma PlainIsScaled(n: Numeric)
    requires n.exp < 0
    ensures PlainString(n) == ScaledIntToString(Coefficient(n), -n.exp)
  {
    var c := Coefficient(n);
    var sign, digits, k := if c < 0 then "-" else "", Digits(Abs(c)), -n.exp;
    if |digits| <= k {
      var padded := Zeros(k - |digits| + 1) + digits;
      assert padded[..1] == "0" && padded[1..] == Zeros(k - |digits|) + digits;
    }
  }

  lemma CutPlain(n: Numeric)
    ensures var c := Coefficient(n);
      var sign := if c < 0 then "-" else "";
      Cut(PlainString(n), '.') ==
        if n.exp >= 0 then CutResult(sign + Digits(Abs(c)) + Zeros(n.exp), "", false)
        else CutResult(sign + Digits(DropDigits(Abs(c), -n.exp)), LastDigits(Abs(c), -n.exp), true)
  {
    var c := Coefficient(n);
    var sign := if c < 0 then "-" else "";
    if n.exp >= 0 {
      DigitalHasNoPoint(Digits(Abs(c)) + Zeros(n.exp));
      assert '.' !in PlainString(n);
    } else {
      PlainIsScaled(n);
      PrinterShape(c, -n.exp);
      var whole := Digits(DropDigits(Abs(c), -n.exp));
      DigitalHasNoPoint(whole);
      CutAt(sign + whole, '.', LastDigits(Abs(c), -n.exp));
    }
  }

  /** The catalog accepts a finite number exactly when it has at most `scale` places. */
  lemma CatalogAcceptsIff(n: Numeric, scale: nat)
    requires n.valid && !n.nan && !n.infinite
    ensures FixedScaleString(n, scale).Ok? <==> FitsScale(Coefficient(n), n.exp, scale)
  {
    var a, parts := Abs(Coefficient(n)), Cut(PlainString(n), '.');
    assert parts.found == (n.exp < 0) && (n.exp < 0 ==> parts.after == LastDigits(a, -n.exp)) by { CutPlain(n); }
    if n.exp < 0 {
      var fraction := parts.after;
      if n.exp + scale < 0 {
        assert |TrimRightZeros(fraction)| <= scale <==> a % Pow10(-n.exp - scale) == 0 by {
          FractionFitsIff(a, scale, -n.exp - scale);
        }
      } else {
        assert |TrimRightZeros(fraction)| <= scale by { TrimRightZerosShape(fraction); }
      }
    }
  }

  lemma FractionFitsIff(a: nat, scale: nat, m: nat)
    ensures |TrimRightZeros(LastDigits(a, scale + m))| <= scale <==> a % Pow10(m) == 0
  {
    var head, tail, whole := LastDigits(DropDigits(a, m), scale), LastDigits(a, m), LastDigits(a, scale + m);
    assert whole == head + tail by { LastDigitsSplit(a, scale, m); }
    assert tail == Zeros(m) <==> a % Pow10(m) == 0 by { LastDigitsZero(a, m); }
    assert |TrimRightZeros(whole)| <= scale <==> tail == Zeros(m) by { TrimFitsIff(head, tail); }
  }

  lemma RescaledAbs(n: Numeric, scale: nat)
    requires FitsScale(Coefficient(n), n.exp, scale)
    ensures var c := Coefficient(n);
      var v := Rescale(c, n.exp, scale);
      && (v < 0 <==> c < 0)
      && (n.exp + scale >= 0 ==> Abs(v) == Abs(c) * Pow10(n.exp + scale))
      && (n.exp + scale < 0 ==> Abs(c) == Abs(v) * Pow10(-(n.exp + scale)))
  {
    var c := Coefficient(n);
    if n.exp + scale >= 0 {
      SignOfProduct(c, Pow10(n.exp + scale));
    } else {
      var m := -(n.exp + scale);
      var q := DropDigits(Abs(c), m);
      assert Abs(c) == q * Pow10(m) by { LastDigitsZero(Abs(c), m); }
      ExactRescale(c, q, Pow10(m));
    }
  }

  lemma SignOfProduct(c: int, p: int)
    requires p > 0
    ensures (c * p < 0 <==> c < 0) && Abs(c * p) == Abs(c) * p
  {
    MulOrder(0, c, p);
    MulOrder(c, 0, p);
    assert (-c) * p == -(c * p);
  }

  lemma ExactRescale(c: int, q: nat, p: int)
    requires p > 0 && Abs(c) == q * p
    ensures (RoundDiv(c, p) < 0 <==> c < 0) && Abs(RoundDiv(c, p)) == q
  {
    var w: int := if c < 0 then 0 - q else q;
    assert (0 - q) * p == -(q * p);
    RoundDivExact(w, p);
    SignOfProduct(w, p);
  }

  /** What the catalog prints for an accepted number without whole-number zeros. */
  lemma CatalogShape(n: Numeric, scale: nat)
    requires n.valid && !n.nan && !n.infinite && FitsScale(Coefficient(n), n.exp, scale)
    ensures FixedScaleString(n, scale).Ok?
    ensures var c, v := Coefficient(n), Abs(Rescale(Coefficient(n), n.exp, scale));
      FixedScaleString(n, scale).value == (if c < 0 then "-" else "")
        + (if n.exp >= 0 then Digits(Abs(c)) + Zeros(n.exp) else Digits(DropDigits(v, scale)))
        + "." + LastDigits(v, scale)
  {
    CatalogAcceptsIff(n, scale);
    CutPlain(n);
    var parts := Cut(PlainString(n), '.');
    var v := Abs(Rescale(Coefficient(n), n.exp, scale));
    if n.exp >= 0 {
      assert LastDigits(v, scale) == Zeros(scale) by { WholeTail(n, scale); }
      assert FitFraction(parts, scale) == Ok(parts.before + "." + Zeros(scale));
    } else {
      FractionTail(n, scale);
      assert FitFraction(parts, scale) == Ok(parts.before + "." + PadRight(TrimRightZeros(parts.after), scale));
    }
  }

  lemma WholeTail(n: Numeric, scale: nat)
    requires n.exp >= 0
    ensures LastDigits(Abs(Rescale(Coefficient(n), n.exp, scale)), scale) == Zeros(scale)
  {
    var a := Abs(Coefficient(n));
    RescaledAbs(n, scale);
    Pow10Add(n.exp, scale);
    MulAssoc(a, Pow10(n.exp), Pow10(scale));
    MulMono(0, a, Pow10(n.exp));
    ShiftDigits(a * Pow10(n.exp), 0, scale);
  }

  lemma FractionTail(n: Numeric, scale: nat)
    requires n.exp < 0 && FitsScale(Coefficient(n), n.exp, scale)
    ensures var a, v, k := Abs(Coefficient(n)), Abs(Rescale(Coefficient(n), n.exp, scale)), -n.exp;
      && PadRight(TrimRightZeros(LastDigits(a, k)), scale) == LastDigits(v, scale)
      && DropDigits(a, k) == DropDigits(v, scale)
  {
    var a, v, k := Abs(Coefficient(n)), Abs(Rescale(Coefficient(n), n.exp, scale)), -n.exp;
    RescaledAbs(n, scale);
    if k <= scale {
      PaddedTail(a, k, scale - k);
    } else {
      TrimmedTail(v, scale, k - scale);
    }
  }

  lemma PaddedTail(a: nat, k: nat, m: nat)
    ensures a * Pow10(m) >= 0
    ensures PadRight(TrimRightZeros(LastDigits(a, k)), k + m) == LastDigits(a * Pow10(m), k + m)
    ensures DropDigits(a, k) == DropDigits(a * Pow10(m), k + m)
  {
    ShiftDigits(a, k, m);
    var f := LastDigits(a, k);
    TrimThenPad(f, 0, k + m);
    assert f + Zeros(0) == f;
  }

  lemma TrimmedTail(v: nat, scale: nat, m: nat)
    ensures v * Pow10(m) >= 0
    ensures PadRight(TrimRightZeros(LastDigits(v * Pow10(m), scale + m)), scale) == LastDigits(v, scale)
    ensures DropDigits(v * Pow10(m), scale + m) == DropDigits(v, scale)
  {
    ShiftDigits(v, scale, m);
    var f := LastDigits(v, scale);
    TrimThenPad(f, m, scale);
    assert f + Zeros(0) == f;
  }

  /** Whenever the exact printer accepts a number, its text is the other printer's,
      for every scale and both signs, exactly unless a zero coefficient carries a
      positive exponent. */
  lemma PrintersAgreeIff(n: Numeric, scale: nat)
    requires n.valid && !n.nan && !n.infinite && scale > 0
    requires FixedScaleString(n, scale).Ok?
    ensures NumericToString(n, scale).Ok?
    ensures FixedScaleString(n, scale).value == NumericToString(n, scale).value
       <==> Coefficient(n) != 0 || n.exp <= 0
  {
    CatalogAcceptsIff(n, scale);
    CatalogShape(n, scale);
    RescaledAbs(n, scale);
    var c := Coefficient(n);
    var v := Rescale(c, n.exp, scale);
    assert ScaledInt(n, scale) == Ok(v) by {
      if n.coef.None? { RescaleOfZero(n.exp, scale); }
    }
    PrinterShape(v, scale);
    if n.exp >= 0 {
      WholeDigits(Abs(c), n.exp, scale);
      assert Abs(v) == Abs(c) * Pow10(n.exp + scale);
      var left, right := Digits(Abs(c)) + Zeros(n.exp), Digits(DropDigits(Abs(v), scale));
      var sign, tail := if c < 0 then "-" else "", LastDigits(Abs(v), scale);
      assert FixedScaleString(n, scale).value == sign + left + "." + tail;
      assert NumericToString(n, scale).value == sign + right + "." + tail;
      if |left| != |right| {
        assert |sign + left + "." + tail| != |sign + right + "." + tail|;
      }
    }
  }

  lemma RescaleOfZero(exp: int, scale: nat)
    ensures Rescale(0, exp, scale) == 0
  {
    if exp + scale < 0 { RoundDivExact(0, Pow10(-(exp + scale))); }
  }

  lemma WholeDigits(a: nat, e: nat, scale: nat)
    ensures a * Pow10(e + scale) >= 0
    ensures var right := Digits(DropDigits(a * Pow10(e + scale), scale));
      if a > 0 then Digits(a) + Zeros(e) == right
      else |Digits(a) + Zeros(e)| == |right| + e && (e == 0 ==> Digits(a) + Zeros(e) == right)
  {
    MulMono(0, a, Pow10(e + scale));
    MulMono(0, a, Pow10(e));
    Pow10Add(e, scale);
    MulAssoc(a, Pow10(e), Pow10(scale));
    ShiftDigits(a * Pow10(e), 0, scale);
    if a > 0 {
      DigitsOfShifted(a, e);
    } else {
      assert a * Pow10(e) == 0;
    }
  }
}
