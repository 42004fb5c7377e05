/**
 Decimal text: the printers of sales, checkout, receipt (rescale and cut) and of
 the catalog (exact), and the normalising parsers of money and quantities.
 */
module DecimalText {
  import opened Results
  import opened Decimal

  // ----- digits of a natural number -----

  predicate IsDigit(c: char) {
    '0' <= c <= '9'
  }

  predicate Digital(s: string) {
    forall i :: 0 <= i < |s| ==> IsDigit(s[i])
  }

  predicate AllDigits(s: string) {
    s != "" && Digital(s)
  }

  function DigitChar(d: nat): (c: char)
    requires d < 10
    ensures IsDigit(c)
  {
    '0' + d as char
  }

  function DigitValue(c: char): (d: nat)
    requires IsDigit(c)
    ensures d < 10 && DigitChar(d) == c
  {
    (c - '0') as nat
  }

  /** big.Int.String for naturals: no leading zeros, "0" for zero. */
  function Digits(n: nat): (s: string)
    ensures AllDigits(s)
  {
    if n < 10 then [DigitChar(n)] else Digits(n / 10) + [DigitChar(n % 10)]
  }

  function ReadDigits(s: string): nat
    requires Digital(s)
  {
    if s == "" then 0 else 10 * ReadDigits(s[..|s| - 1]) + DigitValue(s[|s| - 1])
  }

  function Zeros(n: nat): (s: string)
    ensures |s| == n && Digital(s)
  {
    seq(n, i => '0')
  }

  /** The last `k` digits of `n`, zero padded. */
  function LastDigits(n: nat, k: nat): (s: string)
    ensures |s| == k && Digital(s)
  {
    if k == 0 then "" else LastDigits(n / 10, k - 1) + [DigitChar(n % 10)]
  }

  /** `n` without its last `k` digits. */
  function DropDigits(n: nat, k: nat): nat {
    if k == 0 then n else DropDigits(n / 10, k - 1)
  }

  /** Leading zeros removed, the last digit kept. */
  function StripZeros(s: string): string {
    if |s| > 1 && s[0] == '0' then StripZeros(s[1..]) else s
  }

  function TrimRightZeros(s: string): string {
    if s != "" && s[|s| - 1] == '0' then TrimRightZeros(s[..|s| - 1]) else s
  }

  function PadRight(s: string, n: nat): string {
    if |s| < n then s + Zeros(n - |s|) else s
  }

  function Abs(v: int): nat {
    if v < 0 then -v else v
  }

  // ----- the rescale-and-cut printer -----

  function ScaledIntToString(value: int, scale: nat): string {
    var sign := if value < 0 then "-" else "";
    var plain := Digits(Abs(value));
    if scale == 0 then sign + plain
    else
      var digits := if |plain| <= scale then Zeros(scale - |plain| + 1) + plain else plain;
      var cut := |digits| - scale;
      sign + digits[..cut] + "." + digits[cut..]
  }

  function NumericToString(n: Numeric, scale: nat): Result<string, NumericError> {
    match ScaledInt(n, scale)
    case Err(e) => Err(e)
    case Ok(v) => Ok(ScaledIntToString(v, scale))
  }

  lemma {:induction false} PaddedDigits(n: nat, k: nat)
    ensures |Digits(n)| <= k ==> Zeros(k - |Digits(n)| + 1) + Digits(n) == Digits(DropDigits(n, k)) + LastDigits(n, k)
    ensures |Digits(n)| > k ==> Digits(n) == Digits(DropDigits(n, k)) + LastDigits(n, k)
  {
    if k > 0 {
      PaddedDigits(n / 10, k - 1);
      var last := [DigitChar(n % 10)];
      assert Digits(DropDigits(n, k)) + LastDigits(n, k)
          == (Digits(DropDigits(n / 10, k - 1)) + LastDigits(n / 10, k - 1)) + last;
      if n < 10 {
        assert Digits(0) == "0" == Zeros(1);
        assert Zeros(k) == Zeros(k - 1) + Zeros(1);
        assert k - 1 > 0 ==> Zeros(k - 1 - 1 + 1) + Digits(0) == Zeros(k);
        assert Zeros(k) + last == Digits(DropDigits(n, k)) + LastDigits(n, k);
      } else if |Digits(n)| <= k {
        var m := |Digits(n / 10)|;
        assert Zeros(k - 1 - m + 1) + Digits(n / 10) + last == Zeros(k - |Digits(n)| + 1) + Digits(n);
      }
    }
  }

  /** The printer shows the sign, the whole part and exactly `scale` fraction digits. */
  lemma PrinterShape(value: int, scale: nat)
    requires scale > 0
    ensures ScaledIntToString(value, scale)
         == (if value < 0 then "-" else "")
            + Digits(DropDigits(Abs(value), scale)) + "." + LastDigits(Abs(value), scale)
  {
    var n := Abs(value);
    PaddedDigits(n, scale);
    var whole, fraction := Digits(DropDigits(n, scale)), LastDigits(n, scale);
    var digits := if |Digits(n)| <= scale then Zeros(scale - |Digits(n)| + 1) + Digits(n) else Digits(n);
    assert digits == whole + fraction;
    assert digits[..|digits| - scale] == whole && digits[|digits| - scale..] == fraction;
  }

  // ----- reading back -----

  lemma {:induction false} DigitsReadBack(n: nat)
    ensures ReadDigits(Digits(n)) == n
  {
    if n < 10 {
      assert [DigitChar(n)][..0] == "";
    } else {
      DigitsReadBack(n / 10);
      assert Digits(n)[..|Digits(n)| - 1] == Digits(n / 10);
    }
  }

  lemma {:induction false} StripZerosOfAppend(s: string, c: char)
    requires s != ""
    ensures StripZeros(s + [c]) == if StripZeros(s) == "0" then [c] else StripZeros(s) + [c]
  {
    if |s| > 1 && s[0] == '0' {
      StripZerosOfAppend(s[1..], c);
      assert (s + [c])[1..] == s[1..] + [c];
    } else if s[0] == '0' {
      assert (s + [c])[1..] == [c];
    }
  }

  lemma {:induction false} StripZerosDigital(s: string)
    requires AllDigits(s)
    ensures AllDigits(StripZeros(s)) && (StripZeros(s) == "0" <==> ReadDigits(s) == 0)
    ensures Digits(ReadDigits(s)) == StripZeros(s)
    decreases |s|
  {
    var init, last := s[..|s| - 1], s[|s| - 1];
    assert s == init + [last];
    if init == "" {
      assert ReadDigits(init) == 0;
    } else {
      StripZerosDigital(init);
      StripZerosOfAppend(init, last);
    }
  }

  lemma {:induction false} ReadSplit(whole: string, fraction: string)
    requires Digital(whole) && Digital(fraction)
    ensures DropDigits(ReadDigits(whole + fraction), |fraction|) == ReadDigits(whole)
    ensures LastDigits(ReadDigits(whole + fraction), |fraction|) == fraction
  {
    if fraction == "" {
      assert whole + fraction == whole;
    } else {
      var init := fraction[..|fraction| - 1];
      ReadSplit(whole, init);
      assert (whole + fraction)[..|whole + fraction| - 1] == whole + init;
      assert fraction == init + [fraction[|fraction| - 1]];
    }
  }

  /** Printing digits that were read shows them again, without extra leading zeros. */
  lemma PrintOfRead(whole: string, fraction: string)
    requires AllDigits(whole) && AllDigits(fraction)
    ensures ScaledIntToString(ReadDigits(whole + fraction), |fraction|) == StripZeros(whole) + "." + fraction
  {
    PrinterShape(ReadDigits(whole + fraction), |fraction|);
    ReadSplit(whole, fraction);
    StripZerosDigital(whole);
  }

  lemma ReadAppend(s: string, d: nat)
    requires Digital(s) && d < 10
    ensures ReadDigits(s + [DigitChar(d)]) == 10 * ReadDigits(s) + d
  {
    assert (s + [DigitChar(d)])[..|s|] == s;
  }

  lemma {:induction false} ReadDropLast(n: nat, k: nat)
    ensures ReadDigits(Digits(DropDigits(n, k)) + LastDigits(n, k)) == n
  {
    if k == 0 {
      assert Digits(n) + "" == Digits(n);
      DigitsReadBack(n);
    } else {
      ReadDropLast(n / 10, k - 1);
      var init := Digits(DropDigits(n / 10, k - 1)) + LastDigits(n / 10, k - 1);
      assert Digits(DropDigits(n, k)) + LastDigits(n, k) == init + [DigitChar(n % 10)];
      ReadAppend(init, n % 10);
    }
  }

  // ----- trimming and cutting text -----

  /** unicode.IsSpace. */
  predicate IsSpace(c: char) {
    || '\t' <= c <= '\r' || c == ' ' || c == '\U{85}' || c == '\U{A0}' || c == '\U{1680}'
    || '\U{2000}' <= c <= '\U{200A}' || c == '\U{2028}' || c == '\U{2029}' || c == '\U{202F}'
    || c == '\U{205F}' || c == '\U{3000}'
  }

  function TrimLeft(s: string): string {
    if s != "" && IsSpace(s[0]) then TrimLeft(s[1..]) else s
  }

  function TrimRight(s: string): string {
    if s != "" && IsSpace(s[|s| - 1]) then TrimRight(s[..|s| - 1]) else s
  }

  function TrimSpace(s: string): string {
    TrimRight(TrimLeft(s))
  }

  datatype CutResult = CutResult(before: string, after: string, found: bool)

  /** strings.Cut at the first separator. */
  function Cut(s: string, sep: char): (c: CutResult)
    ensures !c.found ==> c.before == s && c.after == "" && sep !in s
    ensures c.found ==> s == c.before + [sep] + c.after && sep !in c.before
  {
    if s == "" then CutResult("", "", false)
    else if s[0] == sep then CutResult("", s[1..], true)
    else
      var rest := Cut(s[1..], sep);
      CutResult([s[0]] + rest.before, rest.after, rest.found)
  }

  lemma {:induction false} CutAt(before: string, sep: char, after: string)
    requires sep !in before
    ensures Cut(before + [sep] + after, sep) == CutResult(before, after, true)
  {
    var s := before + [sep] + after;
    if before != "" {
      assert s[1..] == before[1..] + [sep] + after;
      CutAt(before[1..], sep, after);
    } else {
      assert s[1..] == after;
    }
  }

  // ----- scanning loops -----

  method ScanAllDigits(value: string) returns (r: bool)
    ensures r == AllDigits(value)
  {
    if value == "" { return false; }
    var i := 0;
    while i < |value|
      invariant 0 <= i <= |value|
      invariant Digital(value[..i])
    {
      if value[i] < '0' || value[i] > '9' { return false; }
      assert value[..i + 1] == value[..i] + [value[i]];
      i := i + 1;
    }
    assert value[..i] == value;
    return true;
  }

  predicate HasPositiveDigit(s: string) {
    exists i :: 0 <= i < |s| && '1' <= s[i] <= '9'
  }

  method ScanPositiveDigit(value: string) returns (r: bool)
    ensures r == HasPositiveDigit(value)
  {
    var i := 0;
    while i < |value|
      invariant 0 <= i <= |value|
      invariant forall j :: 0 <= j < i ==> !('1' <= value[j] <= '9')
    {
      if value[i] >= '1' && value[i] <= '9' { return true; }
      i := i + 1;
    }
    return false;
  }

  /** The padding loops: `for len(s) < n { s += "0" }`. */
  method PadWithZeros(text: string, n: nat) returns (s: string)
    ensures s == PadRight(text, n)
  {
    s := text;
    while |s| < n
      invariant |text| <= |s| && s == text + Zeros(|s| - |text|)
      invariant |text| >= n ==> s == text
      invariant |s| <= n || s == text
    {
      assert Zeros(|s| - |text|) + "0" == Zeros(|s| + 1 - |text|);
      s := s + "0";
    }
  }

  // ----- the parsers -----

  datatype TextError = Required | Signed | Malformed | TooManyPlaces | NotPositive

  function NormalizeMoney(value: string): Result<string, TextError> {
    var trimmed := TrimSpace(value);
    if trimmed == "" then Err(Required)
    else if trimmed[0] == '-' || trimmed[0] == '+' then Err(Signed)
    else
      var parts := Cut(trimmed, '.');
      if parts.found then
        if parts.before == "" || parts.after == "" then Err(Malformed)
        else if !AllDigits(parts.before) || !AllDigits(parts.after) || |parts.after| > 2 then Err(TooManyPlaces)
        else Ok(parts.before + "." + if |parts.after| == 1 then parts.after + "0" else parts.after)
      else if !AllDigits(trimmed) then Err(Malformed)
      else Ok(trimmed + ".00")
  }

  function NormalizeQuantity(value: string): Result<string, TextError> {
    var trimmed := TrimSpace(value);
    if trimmed == "" then Err(Required)
    else if trimmed[0] == '-' || trimmed[0] == '+' then Err(Signed)
    else
      var parts := Cut(trimmed, '.');
      if parts.found then
        if parts.before == "" || parts.after == "" then Err(Malformed)
        else if !AllDigits(parts.before) || !AllDigits(parts.after) then Err(TooManyPlaces)
        else
          var short := ShortenFraction(parts.after);
          if |short| > 3 then Err(TooManyPlaces)
          else Ok(parts.before + "." + PadRight(short, 3))
      else if !AllDigits(trimmed) then Err(Malformed)
      else Ok(trimmed + ".000")
  }

  /** A fraction of more than three digits loses its trailing zeros, keeping one digit. */
  function ShortenFraction(fraction: string): string {
    if |fraction| > 3 then
      var trimmed := TrimRightZeros(fraction);
      if trimmed == "" then "0" else trimmed
    else fraction
  }

  method NormalizeQuantityString(value: string) returns (r: Result<string, TextError>)
    ensures r == NormalizeQuantity(value)
  {
    var trimmed := TrimSpace(value);
    if trimmed == "" { return Err(Required); }
    if trimmed[0] == '-' || trimmed[0] == '+' { return Err(Signed); }
    var parts := Cut(trimmed, '.');
    if parts.found {
      var fraction := parts.after;
      if parts.before == "" || fraction == "" { return Err(Malformed); }
      var wholeOk := ScanAllDigits(parts.before);
      var fractionOk := ScanAllDigits(fraction);
      if !wholeOk || !fractionOk { return Err(TooManyPlaces); }
      if |fraction| > 3 {
        var trimmedFraction := TrimRightZeros(fraction);
        if trimmedFraction == "" { trimmedFraction := "0"; }
        if |trimmedFraction| > 3 { return Err(TooManyPlaces); }
        fraction := trimmedFraction;
      }
      fraction := PadWithZeros(fraction, 3);
      return Ok(parts.before + "." + fraction);
    }
    var ok := ScanAllDigits(trimmed);
    if !ok { return Err(Malformed); }
    return Ok(trimmed + ".000");
  }

  /** The driver reads `digits.digits` exactly: all digits as the coefficient,
      one decimal place for each digit after the point. */
  function ScanDecimal(canonical: string): Option<Numeric> {
    var parts := Cut(canonical, '.');
    if parts.found && Digital(parts.before + parts.after) then
      Some(FromScaled(ReadDigits(parts.before + parts.after), |parts.after|))
    else None
  }

  function ParseMoney(value: string): Result<Numeric, TextError> {
    match NormalizeMoney(value)
    case Err(e) => Err(e)
    case Ok(canonical) =>
      match ScanDecimal(canonical)
      case None => Err(Malformed)
      case Some(n) => Ok(n)
  }

  function ParseQuantity(value: string): Result<Numeric, TextError> {
    match NormalizeQuantity(value)
    case Err(e) => Err(e)
    case Ok(canonical) =>
      if !HasPositiveDigit(canonical) then Err(NotPositive)
      else
        match ScanDecimal(canonical)
        case None => Err(Malformed)
        case Some(n) => Ok(n)
  }

  method ParseQuantityText(value: string) returns (r: Result<Numeric, TextError>)
    ensures r == ParseQuantity(value)
  {
    var normalized := NormalizeQuantityString(value);
    if normalized.Err? { return Err(normalized.error); }
    var positive := ScanPositiveDigit(normalized.value);
    if !positive { return Err(NotPositive); }
    var n := ScanDecimal(normalized.value);
    if n.None? { return Err(Malformed); }
    return Ok(n.value);
  }

  // ----- what is accepted, and as which amount -----

  /** The trimmed text is `whole` or `whole.fraction`, both digits only. */
  predicate IsPlainDecimal(trimmed: string, whole: string, fraction: string) {
    && AllDigits(whole) && Digital(fraction)
    && trimmed == if fraction == "" then whole else whole + "." + fraction
  }

  lemma DigitalHasNoPoint(s: string)
    requires Digital(s)
    ensures '.' !in s && '-' !in s && '+' !in s
  {
  }

  lemma PlainDecimalCut(trimmed: string, whole: string, fraction: string)
    requires IsPlainDecimal(trimmed, whole, fraction)
    ensures trimmed != "" && trimmed[0] != '-' && trimmed[0] != '+'
    ensures Cut(trimmed, '.')
         == if fraction == "" then CutResult(whole, "", false) else CutResult(whole, fraction, true)
  {
    DigitalHasNoPoint(whole);
    assert trimmed[0] == whole[0];
    if fraction != "" { CutAt(whole, '.', fraction); }
  }

  lemma ScanOfCanonical(whole: string, fraction: string)
    requires AllDigits(whole) && Digital(fraction)
    ensures ScanDecimal(whole + "." + fraction) == Some(FromScaled(ReadDigits(whole + fraction), |fraction|))
  {
    DigitalHasNoPoint(whole);
    CutAt(whole, '.', fraction);
  }

  lemma MoneyNormalForm(value: string, whole: string, fraction: string)
    requires IsPlainDecimal(TrimSpace(value), whole, fraction) && |fraction| <= 2
    ensures NormalizeMoney(value) == Ok(whole + "." + PadRight(fraction, 2))
  {
    PlainDecimalCut(TrimSpace(value), whole, fraction);
    assert PadRight(fraction, 2)
        == if fraction == "" then "00" else if |fraction| == 1 then fraction + "0" else fraction;
    assert whole + ".00" == whole + "." + "00";
  }

  /** Money is accepted exactly when its trimmed text is a plain decimal of at most
      two places, and is then read as its value in cents. */
  lemma MoneyAcceptedIff(value: string)
    ensures ParseMoney(value).Ok? <==>
      exists whole, fraction :: IsPlainDecimal(TrimSpace(value), whole, fraction) && |fraction| <= 2
    ensures forall whole, fraction :: IsPlainDecimal(TrimSpace(value), whole, fraction) && |fraction| <= 2 ==>
      ParseMoney(value) == Ok(FromScaled(ReadDigits(whole + PadRight(fraction, 2)), 2))
  {
    var t := TrimSpace(value);
    forall whole, fraction | IsPlainDecimal(t, whole, fraction) && |fraction| <= 2
      ensures ParseMoney(value) == Ok(FromScaled(ReadDigits(whole + PadRight(fraction, 2)), 2))
    {
      MoneyNormalForm(value, whole, fraction);
      ScanOfCanonical(whole, PadRight(fraction, 2));
    }
    if ParseMoney(value).Ok? {
      var parts := Cut(t, '.');
      assert IsPlainDecimal(t, parts.before, parts.after) && |parts.after| <= 2;
    }
  }

  lemma {:induction false} TrimRightZerosShape(s: string)
    ensures var t := TrimRightZeros(s);
      |t| <= |s| && s == t + Zeros(|s| - |t|) && (t != "" ==> t[|t| - 1] != '0')
    decreases |s|
  {
    var t := TrimRightZeros(s);
    if s != "" && s[|s| - 1] == '0' {
      var init := s[..|s| - 1];
      TrimRightZerosShape(init);
      ZerosAfter(t, |init| - |t|);
      assert s == init + "0";
    } else {
      assert Zeros(0) == "";
    }
  }

  lemma ZerosAfter(s: string, m: nat)
    ensures s + Zeros(m) + "0" == s + Zeros(m + 1)
  {
  }

  /** The normalised fraction keeps the first three digits, and a longer fraction
      passes exactly when the digits beyond them are zeros. */
  lemma ShortenedFraction(fraction: string)
    requires fraction != ""
    ensures |ShortenFraction(fraction)| <= 3 <==> forall i :: 3 <= i < |fraction| ==> fraction[i] == '0'
    ensures |ShortenFraction(fraction)| <= 3 ==> PadRight(ShortenFraction(fraction), 3) == PadRight(fraction, 3)[..3]
  {
    if |fraction| > 3 {
      TrimRightZerosShape(fraction);
      var t := TrimRightZeros(fraction);
      var tail := Zeros(|fraction| - |t|);
      if |t| <= 3 {
        forall i | |t| <= i < |fraction| ensures fraction[i] == '0' {
          assert (t + tail)[i] == tail[i - |t|];
        }
        var short := ShortenFraction(fraction);
        assert forall i :: 0 <= i < 3 ==> PadRight(short, 3)[i] == fraction[i];
        assert PadRight(short, 3) == fraction[..3];
      } else {
        assert fraction[|t| - 1] == t[|t| - 1];
      }
    }
  }

  lemma {:induction false} PositiveDigitIff(s: string)
    requires Digital(s)
    ensures HasPositiveDigit(s) <==> ReadDigits(s) > 0
    decreases |s|
  {
    if s != "" {
      var init, last := s[..|s| - 1], s[|s| - 1];
      PositiveDigitIff(init);
      if HasPositiveDigit(init) {
        var i :| 0 <= i < |init| && '1' <= init[i] <= '9';
        assert s[i] == init[i];
      }
      if '1' <= last <= '9' { assert s[|s| - 1] == last; }
      if HasPositiveDigit(s) {
        var i :| 0 <= i < |s| && '1' <= s[i] <= '9';
        assert i < |init| ==> init[i] == s[i];
      }
    }
  }

  lemma QuantityNormalForm(value: string, whole: string, fraction: string)
    requires IsPlainDecimal(TrimSpace(value), whole, fraction)
    ensures NormalizeQuantity(value) ==
      if exists i :: 3 <= i < |fraction| && fraction[i] != '0' then Err(TooManyPlaces)
      else Ok(whole + "." + PadRight(fraction, 3)[..3])
  {
    PlainDecimalCut(TrimSpace(value), whole, fraction);
    if fraction == "" {
      assert PadRight("", 3)[..3] == "000";
      assert whole + ".000" == whole + "." + "000";
    } else {
      ShortenedFraction(fraction);
    }
  }

  lemma PointIsNotPositive(whole: string, fraction: string)
    ensures HasPositiveDigit(whole + "." + fraction) <==> HasPositiveDigit(whole + fraction)
  {
    var dotted, plain := whole + "." + fraction, whole + fraction;
    if HasPositiveDigit(dotted) {
      var i :| 0 <= i < |dotted| && '1' <= dotted[i] <= '9';
      assert plain[if i < |whole| then i else i - 1] == dotted[i];
    }
    if HasPositiveDigit(plain) {
      var i :| 0 <= i < |plain| && '1' <= plain[i] <= '9';
      assert dotted[if i < |whole| then i else i + 1] == plain[i];
    }
  }

  /** A plain decimal is accepted as a quantity exactly when its digits beyond the
      third place are zeros and its value in thousandths is positive. */
  lemma QuantityAcceptedIff(value: string, whole: string, fraction: string)
    requires IsPlainDecimal(TrimSpace(value), whole, fraction)
    ensures var thousandths := ReadDigits(whole + PadRight(fraction, 3)[..3]);
      ParseQuantity(value) ==
        if exists i :: 3 <= i < |fraction| && fraction[i] != '0' then Err(TooManyPlaces)
        else if thousandths == 0 then Err(NotPositive)
        else Ok(FromScaled(thousandths, 3))
  {
    QuantityNormalForm(value, whole, fraction);
    var kept := PadRight(fraction, 3)[..3];
    assert Digital(kept) && |kept| == 3;
    ScanOfCanonical(whole, kept);
    PositiveDigitIff(whole + kept);
    PointIsNotPositive(whole, kept);
  }

  /** Anything that is not a plain decimal is refused as a quantity. */
  lemma QuantityNeedsPlainDecimal(value: string)
    requires ParseQuantity(value).Ok?
    ensures exists whole, fraction :: IsPlainDecimal(TrimSpace(value), whole, fraction)
  {
    var parts := Cut(TrimSpace(value), '.');
    assert IsPlainDecimal(TrimSpace(value), parts.before, parts.after);
  }

  // ----- round trips -----

  lemma {:induction false} TrimSpaceOfTight(s: string)
    requires s == "" || (!IsSpace(s[0]) && !IsSpace(s[|s| - 1]))
    ensures TrimSpace(s) == s
  {
  }

  /** Printing an accepted amount shows the same decimal, with exactly two fraction
      digits and no extra leading zeros. */
  lemma MoneyPrintsAsWritten(value: string, whole: string, fraction: string)
    requires IsPlainDecimal(TrimSpace(value), whole, fraction) && |fraction| <= 2
    ensures ParseMoney(value).Ok?
    ensures NumericToString(ParseMoney(value).value, 2) == Ok(StripZeros(whole) + "." + PadRight(fraction, 2))
  {
    MoneyAcceptedIff(value);
    PrintOfRead(whole, PadRight(fraction, 2));
  }

  lemma QuantityPrintsAsWritten(value: string, whole: string, fraction: string)
    requires IsPlainDecimal(TrimSpace(value), whole, fraction) && ParseQuantity(value).Ok?
    ensures NumericToString(ParseQuantity(value).value, 3) == Ok(StripZeros(whole) + "." + PadRight(fraction, 3)[..3])
  {
    QuantityAcceptedIff(value, whole, fraction);
    PrintOfRead(whole, PadRight(fraction, 3)[..3]);
  }

  lemma PrintedIsPlainDecimal(v: nat, scale: nat)
    requires scale > 0
    ensures IsPlainDecimal(TrimSpace(ScaledIntToString(v, scale)), Digits(DropDigits(v, scale)), LastDigits(v, scale))
    ensures ReadDigits(Digits(DropDigits(v, scale)) + LastDigits(v, scale)) == v
  {
    ReadDropLast(v, scale);
    var s, whole, fraction := ScaledIntToString(v, scale), Digits(DropDigits(v, scale)), LastDigits(v, scale);
    assert s == whole + "." + fraction by {
      PrinterShape(v, scale);
      assert "" + whole == whole;
    }
    assert TrimSpace(whole + "." + fraction) == whole + "." + fraction by { DigitalIsTight(whole, fraction); }
  }

  lemma DigitalIsTight(whole: string, fraction: string)
    requires AllDigits(whole) && AllDigits(fraction)
    ensures TrimSpace(whole + "." + fraction) == whole + "." + fraction
  {
    var s := whole + "." + fraction;
    assert s[0] == whole[0] && s[|s| - 1] == fraction[|fraction| - 1];
    TrimSpaceOfTight(s);
  }

  /** Parsing a printed non-negative amount returns the same cents. */
  lemma MoneyRoundTrip(v: nat)
    ensures ParseMoney(ScaledIntToString(v, 2)) == Ok(FromScaled(v, 2))
  {
    PrintedIsPlainDecimal(v, 2);
    MoneyAcceptedIff(ScaledIntToString(v, 2));
  }

  /** Parsing a printed positive quantity returns the same thousandths. */
  lemma QuantityRoundTrip(v: nat)
    requires v > 0
    ensures ParseQuantity(ScaledIntToString(v, 3)) == Ok(FromScaled(v, 3))
  {
    PrintedIsPlainDecimal(v, 3);
    var fraction := LastDigits(v, 3);
    assert PadRight(fraction, 3)[..3] == fraction;
    QuantityAcceptedIff(ScaledIntToString(v, 3), Digits(DropDigits(v, 3)), fraction);
  }
}
