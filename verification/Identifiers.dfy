/**
 Identifiers and their text: 128-bit UUIDs with the canonical text of section 4 of
 RFC 9562, the checkout's integer printer, and the idempotency keys of payments.
 */
module Identifiers {
  import opened Results
  import opened DecimalText
  import Decimal

  const UUID_LIMIT: nat := 0x1_0000_0000_0000_0000_0000_0000_0000_0000

  /** The sixteen bytes of a UUID read as one big-endian number. */
  type Uuid = n: nat | n < UUID_LIMIT

  // ----- hexadecimal -----

  function HexChar(d: nat): char
    requires d < 16
  {
    if d < 10 then '0' + d as char else 'a' + (d - 10) as char
  }

  /** encoding/hex accepts both cases. */
  function HexValue(c: char): Option<nat> {
    if '0' <= c <= '9' then Some((c - '0') as nat)
    else if 'a' <= c <= 'f' then Some(10 + (c - 'a') as nat)
    else if 'A' <= c <= 'F' then Some(10 + (c - 'A') as nat)
    else None
  }

  function Hex(n: nat, width: nat): (s: string)
    ensures |s| == width
    ensures forall i :: 0 <= i < width ==> '0' <= s[i] <= '9' || 'a' <= s[i] <= 'f'
  {
    if width == 0 then "" else Hex(n / 16, width - 1) + [HexChar(n % 16)]
  }

  function ReadHex(s: string): Option<nat> {
    if s == "" then Some(0)
    else
      match (ReadHex(s[..|s| - 1]), HexValue(s[|s| - 1]))
      case (Some(high), Some(d)) => Some(16 * high + d)
      case _ => None
  }

  function Pow16(n: nat): (p: int)
    ensures p >= 1
  {
    if n == 0 then 1 else 16 * Pow16(n - 1)
  }

  lemma {:induction false} Pow16Add(a: nat, b: nat)
    ensures Pow16(a + b) == Pow16(a) * Pow16(b)
  {
    if a > 0 {
      Pow16Add(a - 1, b);
      Decimal.MulAssoc(16, Pow16(a - 1), Pow16(b));
    }
  }

  lemma UuidLimitIsPow16()
    ensures Pow16(32) == UUID_LIMIT
  {
    assert Pow16(1) == 16;
    assert Pow16(2) == 0x100;
    Pow16Add(2, 2);
    Pow16Add(4, 4);
    Pow16Add(8, 8);
    Pow16Add(16, 16);
  }

  lemma {:induction false} HexReadsBack(n: nat, width: nat)
    requires n < Pow16(width)
    ensures ReadHex(Hex(n, width)) == Some(n)
  {
    if width > 0 {
      HexReadsBack(n / 16, width - 1);
      assert Hex(n, width)[..width - 1] == Hex(n / 16, width - 1);
      assert HexValue(HexChar(n % 16)) == Some(n % 16);
    }
  }

  lemma {:induction false} ReadHexBound(s: string)
    requires ReadHex(s).Some?
    ensures ReadHex(s).value < Pow16(|s|)
  {
    if s != "" {
      ReadHexBound(s[..|s| - 1]);
    }
  }

  lemma HexAppend(high: nat, d: nat, width: nat)
    requires d < 16
    ensures Hex(16 * high + d, width + 1) == Hex(high, width) + [HexChar(d)]
  {
    assert (16 * high + d) % 16 == d && (16 * high + d) / 16 == high;
  }

  lemma HexCharOfValue(c: char)
    requires HexValue(c).Some? && !('A' <= c <= 'F')
    ensures HexValue(c).value < 16 && HexChar(HexValue(c).value) == c
  {
  }

  /** Reading lower-case hexadecimal and printing it again gives the same text. */
  lemma {:induction false} HexPrintsBack(s: string)
    requires ReadHex(s).Some?
    requires forall i :: 0 <= i < |s| ==> !('A' <= s[i] <= 'F')
    ensures Hex(ReadHex(s).value, |s|) == s
  {
    if s != "" {
      var init, last := s[..|s| - 1], s[|s| - 1];
      HexPrintsBack(init);
      HexCharOfValue(last);
      HexAppend(ReadHex(init).value, HexValue(last).value, |init|);
      assert s == init + [last];
    }
  }

  // ----- UUID text -----

  /** 8-4-4-4-12 hexadecimal digits. */
  function Dashed(h: string): (s: string)
    requires |h| == 32
    ensures |s| == 36
  {
    h[0..8] + "-" + h[8..12] + "-" + h[12..16] + "-" + h[16..20] + "-" + h[20..32]
  }

  function UuidText(u: Uuid): (s: string)
    ensures |s| == 36
  {
    Dashed(Hex(u, 32))
  }

  function Undashed(s: string): (h: string)
    requires |s| == 36
    ensures |h| == 32
  {
    s[0..8] + s[9..13] + s[14..18] + s[19..23] + s[24..36]
  }

  /** The driver's reader: 36 characters, whatever stands where the dashes go, or 32. */
  function ScanUuid(s: string): Option<Uuid> {
    if |s| != 36 && |s| != 32 then None
    else
      var h := if |s| == 36 then Undashed(s) else s;
      match ReadHex(h)
      case None => None
      case Some(n) =>
        ReadHexBound(h);
        UuidLimitIsPow16();
        Some(n)
  }

  lemma UndashedText(u: Uuid)
    ensures Undashed(UuidText(u)) == Hex(u, 32)
  {
    var h := Hex(u, 32);
    var s := Dashed(h);
    assert s[0..8] == h[0..8] && s[9..13] == h[8..12] && s[14..18] == h[12..16];
    assert s[19..23] == h[16..20] && s[24..36] == h[20..32];
  }

  lemma ScanOfText(u: Uuid)
    ensures ScanUuid(UuidText(u)) == Some(u) && ScanUuid(Hex(u, 32)) == Some(u)
  {
    UndashedText(u);
    UuidLimitIsPow16();
    HexReadsBack(u, 32);
  }

  lemma UuidTextInjective(u: Uuid, v: Uuid)
    requires UuidText(u) == UuidText(v)
    ensures u == v
  {
    ScanOfText(u);
    ScanOfText(v);
  }

  // ----- order of texts -----

  /** `a` sorts before `b` as Go compares strings, told by the first difference. */
  predicate DiffersAt(a: string, b: string, k: nat) {
    k < |a| && k < |b| && a[..k] == b[..k] && a[k] < b[k]
  }

  predicate SortsBefore(a: string, b: string) {
    (|a| < |b| && a == b[..|a|]) || exists k :: 0 <= k < |a| && DiffersAt(a, b, k)
  }

  lemma {:induction false} HexOrder(n: nat, m: nat, width: nat) returns (k: nat)
    requires n < m < Pow16(width)
    ensures DiffersAt(Hex(n, width), Hex(m, width), k)
  {
    var a, b := Hex(n, width), Hex(m, width);
    if n / 16 < m / 16 {
      k := HexOrder(n / 16, m / 16, width - 1);
      assert a[..k] == Hex(n / 16, width - 1)[..k];
      assert b[..k] == Hex(m / 16, width - 1)[..k];
    } else {
      k := width - 1;
      assert n / 16 == m / 16 && n % 16 < m % 16;
      assert a[..k] == b[..k];
    }
  }

  /** Position of a hexadecimal digit in the dashed text. */
  function DashedIndex(k: nat): nat {
    if k < 8 then k else if k < 12 then k + 1 else if k < 16 then k + 2 else if k < 20 then k + 3 else k + 4
  }

  lemma DashedAt(h: string, k: nat)
    requires |h| == 32 && k < 32
    ensures Dashed(h)[DashedIndex(k)] == h[k]
  {
  }

  lemma DashedPrefix(g: string, h: string, k: nat)
    requires |g| == |h| == 32 && k < 32 && g[..k] == h[..k]
    ensures Dashed(g)[..DashedIndex(k)] == Dashed(h)[..DashedIndex(k)]
  {
    forall i | 0 <= i < DashedIndex(k)
      ensures Dashed(g)[i] == Dashed(h)[i]
    {
      if i != 8 && i != 13 && i != 18 && i != 23 {
        var j := if i < 8 then i else if i < 13 then i - 1 else if i < 18 then i - 2
                 else if i < 23 then i - 3 else i - 4;
        DashedAt(g, j);
        DashedAt(h, j);
        assert g[j] == g[..k][j] && h[j] == h[..k][j];
      }
    }
  }

  /** Sorting UUID texts sorts the UUIDs: the order in which stock rows are locked. */
  lemma TextOrderIsNumericOrder(u: Uuid, v: Uuid)
    requires u < v
    ensures SortsBefore(UuidText(u), UuidText(v))
  {
    UuidLimitIsPow16();
    var k := HexOrder(u, v, 32);
    DashedAt(Hex(u, 32), k);
    DashedAt(Hex(v, 32), k);
    DashedPrefix(Hex(u, 32), Hex(v, 32), k);
    assert DiffersAt(UuidText(u), UuidText(v), DashedIndex(k));
  }

  // ----- the checkout's integer printer -----

  const MIN_INT64: int := -0x8000_0000_0000_0000
  const MAX_INT64: int := 0x7fff_ffff_ffff_ffff

  /** 64-bit negation: the least integer is its own negative. */
  function Negate64(v: int): int {
    if v == MIN_INT64 then v else -v
  }

  function IntText(v: int): string {
    if v == MIN_INT64 then "-"
    else if v < 0 then "-" + Digits(-v)
    else Digits(v)
  }

  function Reversed(s: string): (r: string)
    ensures |r| == |s|
  {
    if s == "" then "" else [s[|s| - 1]] + Reversed(s[..|s| - 1])
  }

  lemma {:induction false} ReversedAt(s: string, i: nat)
    requires i < |s|
    ensures Reversed(s)[i] == s[|s| - 1 - i]
  {
    if i > 0 {
      ReversedAt(s[..|s| - 1], i - 1);
    }
  }

  lemma {:induction false} DigitsLength(n: nat, k: nat)
    requires k > 0 && n < Decimal.Pow10(k)
    ensures |Digits(n)| <= k
  {
    if n >= 10 {
      assert k > 1 by { assert Decimal.Pow10(1) == 10; }
      DigitsLength(n / 10, k - 1);
    }
  }

  lemma Int64HasNineteenDigits(n: nat)
    requires n <= MAX_INT64
    ensures |Digits(n)| <= 19
  {
    assert Decimal.Pow10(1) == 10;
    assert Decimal.Pow10(2) == 100;
    Decimal.Pow10Add(2, 2);
    Decimal.Pow10Add(4, 4);
    Decimal.Pow10Add(8, 8);
    Decimal.Pow10Add(16, 2);
    assert Decimal.Pow10(19) == 10 * Decimal.Pow10(18);
    DigitsLength(n, 19);
  }

  method ReverseInPlace(buf: array<char>, n: nat)
    requires n <= buf.Length
    modifies buf
    ensures buf[..n] == Reversed(old(buf[..n]))
  {
    var i, j := 0, n - 1;
    while i < j
      invariant 0 <= i && j == n - 1 - i && i <= j + 1
      invariant forall k :: 0 <= k < i ==> buf[k] == old(buf[n - 1 - k]) && buf[n - 1 - k] == old(buf[k])
      invariant forall k :: i <= k <= j ==> buf[k] == old(buf[k])
    {
      buf[i], buf[j] := buf[j], buf[i];
      i, j := i + 1, j - 1;
    }
    ghost var was := old(buf[..n]);
    forall k | 0 <= k < n
      ensures buf[..n][k] == Reversed(was)[k]
    {
      ReversedAt(was, k);
    }
  }

  lemma ReversedAppend(s: string, c: char)
    ensures Reversed(s + [c]) == [c] + Reversed(s)
  {
    assert (s + [c])[..|s|] == s;
  }

  /** The digit loop: least significant digit first. */
  method FillDigits(buf: array<char>, value: int) returns (n: nat)
    requires buf.Length == 20 && 0 < value <= MAX_INT64
    modifies buf
    ensures n <= 19 && Reversed(buf[..n]) == Digits(value)
  {
    Int64HasNineteenDigits(value);
    var v := value;
    n := 0;
    while v > 0
      invariant 0 <= n <= 19 && v >= 0
      invariant Digits(value) == (if v > 0 then Digits(v) else "") + Reversed(buf[..n])
    {
      ghost var before, rest := buf[..n], if v / 10 > 0 then Digits(v / 10) else "";
      var c := '0' + (v % 10) as char;
      assert Digits(v) == rest + [c];
      buf[n] := c;
      assert buf[..n + 1] == before + [c];
      ReversedAppend(before, c);
      assert Digits(value) == rest + ([c] + Reversed(before));
      n := n + 1;
      v := v / 10;
    }
  }

  method IntToString(value: int) returns (s: string)
    requires MIN_INT64 <= value <= MAX_INT64
    ensures s == IntText(value)
  {
    if value == 0 { return "0"; }
    var negative := value < 0;
    var v := if negative then Negate64(value) else value;
    var buf := new char[20];
    var n := 0;
    if v > 0 {
      n := FillDigits(buf, v);
    }
    ghost var digits := buf[..n];
    assert Reversed(digits) == if value == MIN_INT64 then "" else Digits(v);
    if negative {
      buf[n] := '-';
      assert buf[..n + 1] == digits + ['-'];
      ReversedAppend(digits, '-');
      n := n + 1;
    }
    ReverseInPlace(buf, n);
    return buf[..n];
  }

  /** The printer writes the decimal digits of every integer but the least one. */
  lemma IntTextIsDecimalIff(v: int)
    requires MIN_INT64 <= v <= MAX_INT64
    ensures IntText(v) == (if v < 0 then "-" else "") + Digits(Abs(v)) <==> v != MIN_INT64
  {
    assert v == MIN_INT64 ==> |"-" + Digits(Abs(v))| > |IntText(v)|;
    assert "" + Digits(Abs(v)) == Digits(Abs(v));
  }

  // ----- payment idempotency keys -----

  function PaymentKey(sale: Uuid, index: nat): string {
    "checkout:" + UuidText(sale) + ":payment:" + IntText(index)
  }

  /** Distinct sales or distinct positions give distinct keys. */
  lemma PaymentKeyInjective(s: Uuid, i: nat, t: Uuid, j: nat)
    requires PaymentKey(s, i) == PaymentKey(t, j)
    ensures s == t && i == j
  {
    var k, l := PaymentKey(s, i), PaymentKey(t, j);
    assert k[9..45] == UuidText(s) && l[9..45] == UuidText(t);
    UuidTextInjective(s, t);
    assert k[54..] == Digits(i) && l[54..] == Digits(j);
    DigitsReadBack(i);
    DigitsReadBack(j);
  }
}
