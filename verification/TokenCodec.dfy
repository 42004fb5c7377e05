/**
 The opaque token texts: `prefix selector "." secret`, with the selector's canonical
 UUID text and the secret in unpadded base64url (section 5 of RFC 4648). Action and
 invitation tokens insist on canonical text (section 3.5 of RFC 4648); refresh tokens do not.
 */
module TokenCodec {
  import opened Results
  import opened DecimalText
  import opened Identifiers

  type Byte = b: int | 0 <= b < 256

  const SECRET_BYTES: nat := 32
  const MAX_TOKEN_LENGTH: nat := 512

  // ----- unpadded base64url -----

  function EncodeChar(d: nat): char
    requires d < 64
  {
    if d < 26 then 'A' + d as char
    else if d < 52 then 'a' + (d - 26) as char
    else if d < 62 then '0' + (d - 52) as char
    else if d == 62 then '-' else '_'
  }

  function DecodeChar(c: char): (r: Option<nat>)
    ensures r.Some? ==> r.value < 64 && EncodeChar(r.value) == c
  {
    if 'A' <= c <= 'Z' then Some((c - 'A') as nat)
    else if 'a' <= c <= 'z' then Some(26 + (c - 'a') as nat)
    else if '0' <= c <= '9' then Some(52 + (c - '0') as nat)
    else if c == '-' then Some(62)
    else if c == '_' then Some(63)
    else None
  }

  /** Splitting and joining the six-bit pieces of a group. */
  lemma SplitByte(a: Byte, b: Byte)
    ensures (var q := a % 4 * 16 + b / 16; q < 64 && a / 4 < 64 && a / 4 * 4 + q / 16 == a && q % 16 == b / 16)
  {
  }

  lemma SplitNibble(b: Byte, c: Byte)
    ensures (var r := b % 16 * 4 + c / 64; r < 64 && b / 16 * 16 + r / 4 == b && r % 4 * 64 + c % 64 == c)
  {
  }

  /** The text of some six-bit values, and what its decoder makes of it. */
  function Chars(d: seq<nat>): (s: string)
    requires forall i :: 0 <= i < |d| ==> d[i] < 64
    ensures |s| == |d|
  {
    seq(|d|, i requires 0 <= i < |d| => EncodeChar(d[i]))
  }

  /** The group cut into six-bit values, the last one filled up with zero bits. */
  function SixBits(b: seq<Byte>): (d: seq<nat>)
    requires 1 <= |b| <= 3
    ensures |d| == |b| + 1 && forall i :: 0 <= i < |d| ==> d[i] < 64
  {
    SplitByte(b[0], if |b| == 1 then 0 else b[1]);
    if |b| == 1 then [b[0] / 4, b[0] % 4 * 16]
    else
      SplitNibble(b[1], if |b| == 2 then 0 else b[2]);
      if |b| == 2 then [b[0] / 4, b[0] % 4 * 16 + b[1] / 16, b[1] % 16 * 4]
      else [b[0] / 4, b[0] % 4 * 16 + b[1] / 16, b[1] % 16 * 4 + b[2] / 64, b[2] % 64]
  }

  /** Three bytes become four characters; a last group of one or two becomes two or three. */
  function EncodeGroup(b: seq<Byte>): (s: string)
    requires 1 <= |b| <= 3
    ensures |s| == |b| + 1
  {
    Chars(SixBits(b))
  }

  function Encode(b: seq<Byte>): string {
    if b == [] then ""
    else if |b| <= 3 then EncodeGroup(b)
    else EncodeGroup(b[..3]) + Encode(b[3..])
  }

  /** The decoder skips line breaks before it groups the characters. */
  function DropLineBreaks(s: string): string {
    if s == "" then ""
    else if s[0] == '\r' || s[0] == '\n' then DropLineBreaks(s[1..])
    else [s[0]] + DropLineBreaks(s[1..])
  }

  /** Joining six-bit values into bytes; unused low bits are ignored. */
  function Join(d: seq<nat>): (b: seq<Byte>)
    requires 2 <= |d| <= 4 && forall i :: 0 <= i < |d| ==> d[i] < 64
  {
    if |d| == 2 then [d[0] * 4 + d[1] / 16]
    else if |d| == 3 then [d[0] * 4 + d[1] / 16, d[1] % 16 * 16 + d[2] / 4]
    else [d[0] * 4 + d[1] / 16, d[1] % 16 * 16 + d[2] / 4, d[2] % 4 * 64 + d[3]]
  }

  predicate Base64Url(s: string) {
    forall i :: 0 <= i < |s| ==> DecodeChar(s[i]).Some?
  }

  function Values(s: string): (d: seq<nat>)
    requires Base64Url(s)
    ensures |d| == |s| && forall i :: 0 <= i < |d| ==> d[i] < 64
  {
    seq(|s|, i requires 0 <= i < |s| => DecodeChar(s[i]).value)
  }

  /** One group of two to four characters. */
  function DecodeGroup(s: string): Option<seq<Byte>>
    requires 2 <= |s| <= 4
  {
    if Base64Url(s) then Some(Join(Values(s))) else None
  }

  function DecodeGroups(s: string): Option<seq<Byte>> {
    if s == "" then Some([])
    else if |s| == 1 then None
    else if |s| <= 4 then DecodeGroup(s)
    else
      match (DecodeGroup(s[..4]), DecodeGroups(s[4..]))
      case (Some(group), Some(rest)) => Some(group + rest)
      case _ => None
  }

  function Decode(s: string): Option<seq<Byte>> {
    DecodeGroups(DropLineBreaks(s))
  }

  lemma DecodeOfEncodeChar(d: nat)
    requires d < 64
    ensures DecodeChar(EncodeChar(d)) == Some(d)
  {
  }

  lemma ValuesOfChars(d: seq<nat>)
    requires forall i :: 0 <= i < |d| ==> d[i] < 64
    ensures Base64Url(Chars(d)) && Values(Chars(d)) == d
  {
    forall i | 0 <= i < |d| ensures DecodeChar(Chars(d)[i]) == Some(d[i]) {
      DecodeOfEncodeChar(d[i]);
    }
  }

  lemma JoinSixBits(b: seq<Byte>)
    requires 1 <= |b| <= 3
    ensures Join(SixBits(b)) == b
  {
    SplitByte(b[0], if |b| == 1 then 0 else b[1]);
    if |b| > 1 {
      SplitNibble(b[1], if |b| == 2 then 0 else b[2]);
    }
  }

  lemma GroupRoundTrip(b: seq<Byte>)
    requires 1 <= |b| <= 3
    ensures DecodeGroup(EncodeGroup(b)) == Some(b) && Base64Url(EncodeGroup(b))
  {
    ValuesOfChars(SixBits(b));
    JoinSixBits(b);
  }

  lemma {:induction false} DecodeOfEncode(b: seq<Byte>)
    ensures DecodeGroups(Encode(b)) == Some(b) && Base64Url(Encode(b))
  {
    if b == [] {
    } else if |b| <= 3 {
      GroupRoundTrip(b);
    } else {
      var head, tail := EncodeGroup(b[..3]), Encode(b[3..]);
      DecodeOfEncode(b[3..]);
      GroupRoundTrip(b[..3]);
      EncodedLength(b[3..]);
      assert (head + tail)[..4] == head && (head + tail)[4..] == tail;
      assert b == b[..3] + b[3..];
    }
  }

  predicate NoLineBreaks(s: string) {
    forall i :: 0 <= i < |s| ==> s[i] != '\r' && s[i] != '\n'
  }

  lemma {:induction false} NoLineBreaksToDrop(s: string)
    requires NoLineBreaks(s)
    ensures DropLineBreaks(s) == s
  {
    if s != "" {
      NoLineBreaksToDrop(s[1..]);
    }
  }

  lemma Base64UrlHasNoLineBreaks(s: string)
    requires Base64Url(s)
    ensures NoLineBreaks(s)
  {
    forall i | 0 <= i < |s| ensures s[i] != '\r' && s[i] != '\n' {
      assert DecodeChar(s[i]).Some?;
    }
  }

  lemma SecretRoundTrip(b: seq<Byte>)
    ensures Decode(Encode(b)) == Some(b) && Base64Url(Encode(b)) && NoLineBreaks(Encode(b))
  {
    DecodeOfEncode(b);
    Base64UrlHasNoLineBreaks(Encode(b));
    NoLineBreaksToDrop(Encode(b));
  }

  lemma {:induction false} EncodedLength(b: seq<Byte>)
    ensures |Encode(b)| == (4 * |b| + 2) / 3
  {
    if |b| > 3 {
      EncodedLength(b[3..]);
    }
  }

  // ----- purposes and prefixes -----

  datatype Purpose = EmailVerification | PasswordReset | OtherPurpose

  function PurposePrefix(p: Purpose): Option<string> {
    match p
    case EmailVerification => Some("evt_")
    case PasswordReset => Some("prt_")
    case OtherPurpose => None
  }

  const INVITATION_PREFIX := "inv_"
  const REFRESH_PREFIX := "rt_"

  datatype TokenError = MissingToken | InvalidToken | BadSelector | BadSecret | UnsupportedPurpose

  datatype ParsedToken = ParsedToken(selector: Uuid, secret: seq<Byte>)

  function CountChar(s: string, c: char): nat {
    if s == "" then 0 else (if s[0] == c then 1 else 0) + CountChar(s[1..], c)
  }

  predicate HasSpace(s: string) {
    exists i :: 0 <= i < |s| && IsSpace(s[i])
  }

  predicate HasPrefix(s: string, prefix: string) {
    |s| >= |prefix| && s[..|prefix|] == prefix
  }

  function TokenText(prefix: string, selector: Uuid, secret: seq<Byte>): string {
    prefix + UuidText(selector) + "." + Encode(secret)
  }

  /** `selector` is None when the UUID is not valid; the secret is the random draw. */
  function GenerateAction(p: Purpose, selector: Option<Uuid>, secret: seq<Byte>): Result<string, TokenError>
    requires |secret| == SECRET_BYTES
  {
    match PurposePrefix(p)
    case None => Err(UnsupportedPurpose)
    case Some(prefix) =>
      if selector.None? then Err(BadSelector)
      else
        var raw := TokenText(prefix, selector.value, secret);
        if |raw| > MAX_TOKEN_LENGTH then Err(InvalidToken) else Ok(raw)
  }

  /** The selector must be the canonical text of the UUID it scans to. */
  function ParseSelector(text: string): Result<Uuid, TokenError> {
    if |text| != 36 then Err(BadSelector)
    else
      match ScanUuid(text)
      case None => Err(BadSelector)
      case Some(selector) => if UuidText(selector) != text then Err(BadSelector) else Ok(selector)
  }

  /** The secret must be the canonical encoding of 32 bytes. */
  function ParseSecret(text: string): Result<seq<Byte>, TokenError> {
    if text == "" || '=' in text then Err(BadSecret)
    else
      match Decode(text)
      case None => Err(BadSecret)
      case Some(secret) => if Encode(secret) != text || |secret| != SECRET_BYTES then Err(BadSecret) else Ok(secret)
  }

  /** The part after the prefix, shared by action and invitation tokens. */
  function ParsePayload(payload: string): Result<ParsedToken, TokenError> {
    if CountChar(payload, '.') != 1 then Err(InvalidToken)
    else
      var parts := Cut(payload, '.');
      match ParseSelector(parts.before)
      case Err(e) => Err(e)
      case Ok(selector) =>
        match ParseSecret(parts.after)
        case Err(e) => Err(e)
        case Ok(secret) => Ok(ParsedToken(selector, secret))
  }

  function ParseAction(raw: string, p: Purpose): Result<ParsedToken, TokenError> {
    if raw == "" then Err(MissingToken)
    else if |raw| > MAX_TOKEN_LENGTH || HasSpace(raw) then Err(InvalidToken)
    else
      match PurposePrefix(p)
      case None => Err(InvalidToken)
      case Some(prefix) =>
        if !HasPrefix(raw, prefix) then Err(InvalidToken) else ParsePayload(raw[|prefix|..])
  }

  /** Invitation selectors must also differ from the all-zero UUID. */
  function FormatInvitation(selector: Option<Uuid>, secret: seq<Byte>): Result<string, TokenError> {
    if selector.None? || selector.value == 0 then Err(BadSelector)
    else if |secret| != SECRET_BYTES then Err(BadSecret)
    else Ok(TokenText(INVITATION_PREFIX, selector.value, secret))
  }

  function ParseInvitation(raw: string): Result<ParsedToken, TokenError> {
    if raw == "" || |raw| > MAX_TOKEN_LENGTH || HasSpace(raw) || !HasPrefix(raw, INVITATION_PREFIX)
    then Err(InvalidToken)
    else
      match ParsePayload(raw[|INVITATION_PREFIX|..])
      case Err(e) => Err(InvalidToken)
      case Ok(t) => if t.selector == 0 then Err(InvalidToken) else Ok(t)
  }

  function ParseRefresh(raw: string): Result<ParsedToken, TokenError> {
    if raw == "" then Err(MissingToken)
    else if |raw| > MAX_TOKEN_LENGTH || !HasPrefix(raw, REFRESH_PREFIX) then Err(InvalidToken)
    else
      var parts := Cut(raw[|REFRESH_PREFIX|..], '.');
      if !parts.found || parts.before == "" then Err(InvalidToken)
      else
        match (ScanUuid(parts.before), ReadSecret(parts.after))
        case (Some(selector), Some(secret)) => Ok(ParsedToken(selector, secret))
        case _ => Err(InvalidToken)
  }

  /** A refresh token's secret: 32 bytes, without the comparison with its encoding. */
  function ReadSecret(text: string): Option<seq<Byte>> {
    if text == "" || '=' in text then None
    else
      match Decode(text)
      case None => None
      case Some(secret) => if |secret| != SECRET_BYTES then None else Some(secret)
  }

  // ----- round trips and canonical forms -----

  lemma {:induction false} CountAppend(a: string, b: string, c: char)
    ensures CountChar(a + b, c) == CountChar(a, c) + CountChar(b, c)
  {
    if a == "" {
      assert a + b == b;
    } else {
      assert (a + b)[1..] == a[1..] + b;
      CountAppend(a[1..], b, c);
    }
  }

  lemma {:induction false} CountNone(s: string, c: char)
    requires c !in s
    ensures CountChar(s, c) == 0
  {
    if s != "" { CountNone(s[1..], c); }
  }

  predicate Plain(s: string) {
    forall i :: 0 <= i < |s| ==> s[i] != '.' && s[i] != '=' && !IsSpace(s[i])
  }

  lemma PlainParts(u: Uuid, secret: seq<Byte>)
    ensures Plain(UuidText(u)) && Plain(Encode(secret))
  {
    var e := Encode(secret);
    DecodeOfEncode(secret);
    forall i | 0 <= i < |e| ensures e[i] != '.' && e[i] != '=' && !IsSpace(e[i]) {
      assert DecodeChar(e[i]).Some?;
    }
    PlainDashed(Hex(u, 32));
  }

  lemma PlainDashed(h: string)
    requires |h| == 32
    requires forall i :: 0 <= i < 32 ==> '0' <= h[i] <= '9' || 'a' <= h[i] <= 'f'
    ensures Plain(Dashed(h))
  {
    forall c | c in Dashed(h) ensures c == '-' || '0' <= c <= '9' || 'a' <= c <= 'f' {
    }
  }

  lemma PartsRoundTrip(u: Uuid, secret: seq<Byte>)
    requires |secret| == SECRET_BYTES
    ensures ParseSelector(UuidText(u)) == Ok(u) && ParseSecret(Encode(secret)) == Ok(secret)
  {
    ScanOfText(u);
    SecretRoundTrip(secret);
    EncodedLength(secret);
    PlainParts(u, secret);
  }

  lemma OnePoint(before: string, after: string)
    requires '.' !in before && '.' !in after
    ensures CountChar(before + "." + after, '.') == 1
    ensures Cut(before + "." + after, '.') == CutResult(before, after, true)
  {
    CountNone(before, '.');
    CountNone(after, '.');
    CountAppend(before + ".", after, '.');
    CountAppend(before, ".", '.');
    CutAt(before, '.', after);
  }

  lemma PayloadRoundTrip(u: Uuid, secret: seq<Byte>)
    requires |secret| == SECRET_BYTES
    ensures ParsePayload(UuidText(u) + "." + Encode(secret)) == Ok(ParsedToken(u, secret))
  {
    var sel, enc := UuidText(u), Encode(secret);
    assert ParseSelector(sel) == Ok(u) && ParseSecret(enc) == Ok(secret) by { PartsRoundTrip(u, secret); }
    assert '.' !in sel && '.' !in enc by { PlainParts(u, secret); }
    OnePoint(sel, enc);
  }

  lemma PayloadIsCanonical(payload: string)
    requires ParsePayload(payload).Ok?
    ensures var t := ParsePayload(payload).value;
      |t.secret| == SECRET_BYTES && payload == UuidText(t.selector) + "." + Encode(t.secret)
  {
    var parts := Cut(payload, '.');
    if !parts.found {
      CountNone(payload, '.');
    }
  }

  lemma TextIsShortAndPlain(prefix: string, u: Uuid, secret: seq<Byte>)
    requires |prefix| <= 4 && Plain(prefix) && |secret| == SECRET_BYTES
    ensures |TokenText(prefix, u, secret)| <= MAX_TOKEN_LENGTH && !HasSpace(TokenText(prefix, u, secret))
    ensures HasPrefix(TokenText(prefix, u, secret), prefix)
    ensures TokenText(prefix, u, secret)[|prefix|..] == UuidText(u) + "." + Encode(secret)
  {
    PlainParts(u, secret);
    EncodedLength(secret);
    var raw := TokenText(prefix, u, secret);
    assert raw == prefix + (UuidText(u) + "." + Encode(secret));
    forall i | 0 <= i < |raw| ensures !IsSpace(raw[i]) {
      assert raw[i] in prefix || raw[i] in UuidText(u) || raw[i] == '.' || raw[i] in Encode(secret);
    }
  }

  lemma TextIsAccepted(prefix: string, u: Uuid, secret: seq<Byte>)
    requires prefix != "" && |prefix| <= 4 && Plain(prefix) && |secret| == SECRET_BYTES
    ensures var raw := TokenText(prefix, u, secret);
      && raw != "" && |raw| <= MAX_TOKEN_LENGTH && !HasSpace(raw) && HasPrefix(raw, prefix)
      && ParsePayload(raw[|prefix|..]) == Ok(ParsedToken(u, secret))
  {
    TextIsShortAndPlain(prefix, u, secret);
    PayloadRoundTrip(u, secret);
  }

  /** Parsing a generated action token returns its selector and secret. */
  lemma ActionRoundTrip(p: Purpose, u: Uuid, secret: seq<Byte>)
    requires !p.OtherPurpose? && |secret| == SECRET_BYTES
    ensures GenerateAction(p, Some(u), secret).Ok?
    ensures ParseAction(GenerateAction(p, Some(u), secret).value, p) == Ok(ParsedToken(u, secret))
  {
    TextIsAccepted(PurposePrefix(p).value, u, secret);
  }

  /** Every accepted action token is exactly the printing of what it parses to. */
  lemma ActionIsCanonical(raw: string, p: Purpose)
    requires ParseAction(raw, p).Ok?
    ensures var t := ParseAction(raw, p).value;
      |t.secret| == SECRET_BYTES && GenerateAction(p, Some(t.selector), t.secret) == Ok(raw)
  {
    var prefix := PurposePrefix(p).value;
    CanonicalText(raw, prefix);
  }

  lemma CanonicalText(raw: string, prefix: string)
    requires HasPrefix(raw, prefix) && ParsePayload(raw[|prefix|..]).Ok?
    ensures var t := ParsePayload(raw[|prefix|..]).value;
      |t.secret| == SECRET_BYTES && raw == TokenText(prefix, t.selector, t.secret)
  {
    var payload := raw[|prefix|..];
    PayloadIsCanonical(payload);
    var t := ParsePayload(payload).value;
    assert raw == prefix + payload;
    assert prefix + (UuidText(t.selector) + "." + Encode(t.secret))
        == prefix + UuidText(t.selector) + "." + Encode(t.secret);
  }

  /** Tokens and (selector, secret) pairs of one purpose are one-to-one. */
  lemma ActionOneToOne(raw: string, other: string, p: Purpose)
    requires ParseAction(raw, p).Ok? && ParseAction(raw, p) == ParseAction(other, p)
    ensures raw == other
  {
    ActionIsCanonical(raw, p);
    ActionIsCanonical(other, p);
  }

  /** A text accepted for one purpose is refused for the other, as an invitation and as a refresh token. */
  lemma PurposesAreDisjoint(raw: string, p: Purpose)
    requires ParseAction(raw, p).Ok?
    ensures forall q: Purpose :: q != p ==> ParseAction(raw, q).Err?
    ensures ParseInvitation(raw).Err? && ParseRefresh(raw).Err?
  {
    var prefix := PurposePrefix(p).value;
    PrefixChars(raw, prefix);
    forall q: Purpose | q != p && q != OtherPurpose ensures ParseAction(raw, q).Err? {
      OtherPrefix(raw, PurposePrefix(q).value);
    }
    OtherPrefix(raw, INVITATION_PREFIX);
    OtherPrefix(raw, REFRESH_PREFIX);
  }

  lemma PrefixChars(raw: string, prefix: string)
    requires HasPrefix(raw, prefix)
    ensures forall i :: 0 <= i < |prefix| ==> raw[i] == prefix[i]
  {
    assert forall i :: 0 <= i < |prefix| ==> raw[i] == raw[..|prefix|][i];
  }

  /** A text cannot start with a prefix it differs from in its first two characters. */
  lemma OtherPrefix(raw: string, prefix: string)
    requires |raw| >= 2 && |prefix| >= 2 && (raw[0] != prefix[0] || raw[1] != prefix[1])
    ensures !HasPrefix(raw, prefix)
  {
    if HasPrefix(raw, prefix) { PrefixChars(raw, prefix); }
  }

  lemma InvitationRoundTrip(u: Uuid, secret: seq<Byte>)
    requires u != 0 && |secret| == SECRET_BYTES
    ensures FormatInvitation(Some(u), secret).Ok?
    ensures ParseInvitation(FormatInvitation(Some(u), secret).value) == Ok(ParsedToken(u, secret))
  {
    TextIsShortAndPlain(INVITATION_PREFIX, u, secret);
    PayloadRoundTrip(u, secret);
  }

  lemma InvitationIsNoAction(raw: string)
    requires HasPrefix(raw, INVITATION_PREFIX)
    ensures forall p: Purpose :: ParseAction(raw, p).Err?
  {
    PrefixChars(raw, INVITATION_PREFIX);
    forall p: Purpose | p != OtherPurpose ensures ParseAction(raw, p).Err? {
      OtherPrefix(raw, PurposePrefix(p).value);
    }
  }

  lemma InvitationIsCanonical(raw: string)
    requires ParseInvitation(raw).Ok?
    ensures var t := ParseInvitation(raw).value; FormatInvitation(Some(t.selector), t.secret) == Ok(raw)
    ensures forall p: Purpose :: ParseAction(raw, p).Err?
  {
    var t := ParseInvitation(raw).value;
    assert FormatInvitation(Some(t.selector), t.secret) == Ok(raw) by {
      CanonicalText(raw, INVITATION_PREFIX);
    }
    InvitationIsNoAction(raw);
  }

  /** Refresh tokens round-trip too, but the undashed selector is accepted as well,
      so two different texts always stand for one refresh token. */
  lemma RefreshRoundTripIsNotOneToOne(u: Uuid, secret: seq<Byte>)
    requires |secret| == SECRET_BYTES
    ensures var canonical := TokenText(REFRESH_PREFIX, u, secret);
      var other := REFRESH_PREFIX + Hex(u, 32) + "." + Encode(secret);
      canonical != other && ParseRefresh(canonical) == Ok(ParsedToken(u, secret)) == ParseRefresh(other)
  {
    assert '.' !in UuidText(u) by { PlainParts(u, secret); }
    assert ScanUuid(UuidText(u)) == Some(u) && ScanUuid(Hex(u, 32)) == Some(u) by { ScanOfText(u); }
    RefreshOf(UuidText(u), u, secret);
    RefreshOf(Hex(u, 32), u, secret);
    assert |TokenText(REFRESH_PREFIX, u, secret)| != |REFRESH_PREFIX + Hex(u, 32) + "." + Encode(secret)|;
  }

  lemma RefreshOf(selector: string, u: Uuid, secret: seq<Byte>)
    requires |secret| == SECRET_BYTES && 0 < |selector| <= 36 && '.' !in selector && ScanUuid(selector) == Some(u)
    ensures ParseRefresh(REFRESH_PREFIX + selector + "." + Encode(secret)) == Ok(ParsedToken(u, secret))
  {
    var enc := Encode(secret);
    assert |enc| == 43 by { EncodedLength(secret); }
    assert ReadSecret(enc) == Some(secret) by {
      PlainParts(u, secret);
      SecretRoundTrip(secret);
    }
    RefreshText(selector, enc);
    assert Cut(selector + "." + enc, '.') == CutResult(selector, enc, true) by { CutAt(selector, '.', enc); }
  }

  lemma RefreshText(selector: string, enc: string)
    ensures HasPrefix(REFRESH_PREFIX + selector + "." + enc, REFRESH_PREFIX)
    ensures (REFRESH_PREFIX + selector + "." + enc)[|REFRESH_PREFIX|..] == selector + "." + enc
  {
  }

  /** A text of the refresh form is accepted exactly if it has at most 512 characters, a
      selector the driver reads, and after the first point the encoding of 32 bytes without
      padding, line breaks aside; it then stands for these. */
  lemma RefreshAcceptedIff(selector: string, enc: string)
    requires '.' !in selector
    ensures var r := ParseRefresh("rt_" + selector + "." + enc);
      && (r.Ok? <==> && 3 + |selector| + 1 + |enc| <= 512 && ScanUuid(selector).Some? && '=' !in enc
                     && Decode(enc).Some? && |Decode(enc).value| == 32)
      && (r.Ok? ==> r.value == ParsedToken(ScanUuid(selector).value, Decode(enc).value))
  {
    RefreshText(selector, enc);
    assert Cut(selector + "." + enc, '.') == CutResult(selector, enc, true) by { CutAt(selector, '.', enc); }
    assert |REFRESH_PREFIX + selector + "." + enc| == 3 + |selector| + 1 + |enc|;
    if enc == "" { assert Decode(enc) == Some([]); }
  }

  /** No other text is accepted. */
  lemma RefreshNeedsForm(raw: string)
    requires ParseRefresh(raw).Ok?
    ensures var parts := Cut(raw[|REFRESH_PREFIX|..], '.');
      raw == "rt_" + parts.before + "." + parts.after && '.' !in parts.before
  {
    assert raw == REFRESH_PREFIX + raw[|REFRESH_PREFIX|..];
  }

  // ----- which accepted refresh tokens are canonical -----

  /** Dashes where the canonical text has them and no upper-case digit. */
  predicate CanonicalSelector(s: string) {
    && |s| == 36 && s[8] == s[13] == s[18] == s[23] == '-'
    && forall i :: 0 <= i < |s| ==> !('A' <= s[i] <= 'F')
  }

  /** The bits of the last character that no byte uses are zero. */
  predicate SpareBitsZero(s: string) {
    var n := |s| % 4;
    n < 2 || (DecodeChar(s[|s| - 1]).Some? && DecodeChar(s[|s| - 1]).value % (if n == 2 then 16 else 4) == 0)
  }

  lemma DashedOfUndashed(s: string)
    requires |s| == 36
    ensures s == Dashed(Undashed(s)) <==> s[8] == s[13] == s[18] == s[23] == '-'
  {
    var h, t := Undashed(s), Dashed(Undashed(s));
    assert h[0..8] == s[0..8] && h[8..12] == s[9..13] && h[12..16] == s[14..18];
    assert h[16..20] == s[19..23] && h[20..32] == s[24..36];
    assert t == s[0..8] + "-" + s[9..13] + "-" + s[14..18] + "-" + s[19..23] + "-" + s[24..36];
    assert s == s[0..8] + [s[8]] + s[9..13] + [s[13]] + s[14..18] + [s[18]] + s[19..23] + [s[23]] + s[24..36];
    assert t[8] == t[13] == t[18] == t[23] == '-';
  }

  lemma UuidTextIsCanonical(u: Uuid)
    ensures CanonicalSelector(UuidText(u))
  {
    var h := Hex(u, 32);
    var s := Dashed(h);
    forall i | 0 <= i < |s| ensures !('A' <= s[i] <= 'F') {
      assert s[i] == '-' || s[i] in h;
    }
  }

  /** An accepted selector is the canonical text of what it is read as exactly if it
      looks canonical. */
  lemma SelectorIsCanonicalIff(s: string)
    requires ScanUuid(s).Some?
    ensures s == UuidText(ScanUuid(s).value) <==> CanonicalSelector(s)
  {
    UuidTextIsCanonical(ScanUuid(s).value);
    if CanonicalSelector(s) {
      var h := Undashed(s);
      assert forall i :: 0 <= i < |h| ==> h[i] in s;
      HexPrintsBack(h);
      DashedOfUndashed(s);
    }
  }

  lemma CharsOfValues(s: string)
    requires Base64Url(s)
    ensures Chars(Values(s)) == s
  {
  }

  predicate SpareValueZero(d: seq<nat>)
    requires 2 <= |d| <= 4
  {
    |d| == 4 || d[|d| - 1] % (if |d| == 2 then 16 else 4) == 0
  }

  lemma SpareBitsOfGroup(s: string)
    requires 2 <= |s| <= 4 && Base64Url(s)
    ensures SpareBitsZero(s) <==> SpareValueZero(Values(s))
  {
    var i := |s| - 1;
    assert DecodeChar(s[i]).Some? && Values(s)[i] == DecodeChar(s[i]).value;
  }

  /** Cutting joined values up again restores them exactly if nothing was dropped. */
  lemma SixBitsOfJoin(d: seq<nat>)
    requires 2 <= |d| <= 4 && forall i :: 0 <= i < |d| ==> d[i] < 64
    ensures SixBits(Join(d)) == d <==> SpareValueZero(d)
  {
    JoinedPair(d[0], d[1]);
    if |d| > 2 {
      JoinedNibbles(d[1], d[2]);
    }
    if |d| > 3 {
      JoinedTail(d[2], d[3]);
    }
    var e := SixBits(Join(d));
    assert |e| == |d| && e[..|d| - 1] == d[..|d| - 1];
    assert e == e[..|d| - 1] + [e[|d| - 1]] && d == d[..|d| - 1] + [d[|d| - 1]];
  }

  lemma JoinedPair(x: nat, y: nat)
    requires x < 64 && y < 64
    ensures (x * 4 + y / 16) / 4 == x && (x * 4 + y / 16) % 4 * 16 == y / 16 * 16
    ensures y / 16 * 16 == y <==> y % 16 == 0
  {
  }

  lemma JoinedNibbles(y: nat, z: nat)
    requires y < 64 && z < 64
    ensures (y % 16 * 16 + z / 4) / 16 == y % 16 && y / 16 * 16 + y % 16 == y
    ensures (y % 16 * 16 + z / 4) % 16 * 4 == z / 4 * 4 && (z / 4 * 4 == z <==> z % 4 == 0)
  {
  }

  lemma JoinedTail(z: nat, w: nat)
    requires z < 64 && w < 64
    ensures (z % 4 * 64 + w) / 64 == z % 4 && (z % 4 * 64 + w) % 64 == w && z / 4 * 4 + z % 4 == z
  {
  }

  lemma CharsInjective(d: seq<nat>, e: seq<nat>)
    requires forall i :: 0 <= i < |d| ==> d[i] < 64
    requires forall i :: 0 <= i < |e| ==> e[i] < 64
    ensures Chars(d) == Chars(e) <==> d == e
  {
    ValuesOfChars(d);
    ValuesOfChars(e);
  }

  lemma GroupIsCanonicalIff(s: string)
    requires 2 <= |s| <= 4 && DecodeGroup(s).Some?
    ensures |DecodeGroup(s).value| == |s| - 1
    ensures EncodeGroup(DecodeGroup(s).value) == s <==> SpareBitsZero(s)
  {
    var d := Values(s);
    assert Chars(d) == s by { CharsOfValues(s); }
    assert Chars(SixBits(Join(d))) == Chars(d) <==> SpareValueZero(d) by {
      CharsInjective(SixBits(Join(d)), d);
      SixBitsOfJoin(d);
    }
    assert SpareValueZero(d) <==> SpareBitsZero(s) by { SpareBitsOfGroup(s); }
  }

  lemma EncodeAppend(b: seq<Byte>, rest: seq<Byte>)
    requires |b| == 3
    ensures Encode(b + rest) == EncodeGroup(b) + Encode(rest)
  {
    if rest == [] {
      assert b + rest == b;
    } else {
      assert (b + rest)[..3] == b && (b + rest)[3..] == rest;
    }
  }

  lemma SameParts(a: string, b: string, c: string, d: string)
    requires |a| == |c|
    ensures a + b == c + d <==> a == c && b == d
  {
    if a + b == c + d {
      assert a == (a + b)[..|a|] && b == (a + b)[|a|..];
    }
  }

  lemma DecodedStep(s: string)
    requires |s| > 4 && DecodeGroups(s).Some?
    ensures DecodeGroup(s[..4]).Some? && DecodeGroups(s[4..]).Some?
    ensures DecodeGroups(s).value == DecodeGroup(s[..4]).value + DecodeGroups(s[4..]).value
  {
  }

  predicate Recoded(s: string, b: seq<Byte>) {
    |b| == 3 * |s| / 4 && (Encode(b) == s <==> SpareBitsZero(s))
  }

  lemma SpareBitsOfTail(s: string)
    requires |s| > 4
    ensures SpareBitsZero(s) == SpareBitsZero(s[4..])
  {
    assert s[|s| - 1] == s[4..][|s[4..]| - 1] && |s| % 4 == |s[4..]| % 4;
  }

  lemma RecodedStep(s: string, b: seq<Byte>, rest: seq<Byte>)
    requires |s| > 4 && |b| == 3 && EncodeGroup(b) == s[..4] && Recoded(s[4..], rest)
    ensures Recoded(s, b + rest)
  {
    var head, tail := s[..4], s[4..];
    assert Encode(b + rest) == s <==> Encode(rest) == tail by {
      assert s == head + tail;
      EncodeAppend(b, rest);
      SameParts(head, Encode(rest), head, tail);
    }
    SpareBitsOfTail(s);
  }

  /** Encoding what was decoded gives the text back exactly if its spare bits are zero. */
  lemma {:induction false} EncodeOfDecodeIff(s: string)
    requires DecodeGroups(s).Some?
    ensures Recoded(s, DecodeGroups(s).value)
  {
    if |s| <= 4 {
      if s != "" { GroupIsCanonicalIff(s); }
    } else {
      DecodedStep(s);
      EncodeOfDecodeIff(s[4..]);
      GroupIsCanonicalIff(s[..4]);
      RecodedStep(s, DecodeGroup(s[..4]).value, DecodeGroups(s[4..]).value);
    }
  }

  /** An accepted refresh secret is the encoding of what it is read as exactly if it has
      no line break and its spare bits are zero. */
  lemma SecretIsCanonicalIff(s: string)
    requires ReadSecret(s).Some?
    ensures s == Encode(ReadSecret(s).value) <==> NoLineBreaks(s) && SpareBitsZero(s)
    ensures NoLineBreaks(s) ==> |s| == 43
  {
    if NoLineBreaks(s) {
      NoLineBreaksToDrop(s);
      EncodeOfDecodeIff(s);
    } else if s == Encode(ReadSecret(s).value) {
      SecretRoundTrip(ReadSecret(s).value);
    }
  }

  /** Of the texts accepted as a refresh token exactly one is what the generator prints:
      the one with dashes at their places, no upper-case digit, no line break in the
      secret, and a last character that ends in two zero bits. */
  lemma RefreshIsCanonicalIff(raw: string)
    requires ParseRefresh(raw).Ok?
    ensures var t, parts := ParseRefresh(raw).value, Cut(raw[|REFRESH_PREFIX|..], '.');
      raw == TokenText(REFRESH_PREFIX, t.selector, t.secret)
      <==> CanonicalSelector(parts.before) && NoLineBreaks(parts.after) && SpareBitsZero(parts.after)
  {
    var t, parts := ParseRefresh(raw).value, Cut(raw[|REFRESH_PREFIX|..], '.');
    SelectorIsCanonicalIff(parts.before);
    SecretIsCanonicalIff(parts.after);
    var sel, enc := UuidText(t.selector), Encode(t.secret);
    assert '.' !in sel by { PlainParts(t.selector, t.secret); }
    RefreshText(sel, enc);
    CutAt(sel, '.', enc);
    assert raw == REFRESH_PREFIX + raw[|REFRESH_PREFIX|..];
    if parts.before == sel && parts.after == enc {
      assert raw == REFRESH_PREFIX + (sel + "." + enc) == REFRESH_PREFIX + sel + "." + enc;
    }
  }
}
