// The WeChat channel's media key codec: a sender that prints a key as base64 of
// its hex form, and a tolerant parser that accepts hex and several base64 forms.
module AesKeyCodec {
  import opened Wrappers

  type Byte = b: int | 0 <= b < 256

  // --- character classes ---

  predicate IsAsciiSpace(c: char) {
    c == ' ' || '\t' <= c <= '\r'
  }

  // The characters str.strip() removes.
  predicate IsSpace(c: char) {
    || IsAsciiSpace(c) || '\U{1C}' <= c <= '\U{1F}' || c == '\U{85}' || c == '\U{A0}' || c == '\U{1680}'
    || '\U{2000}' <= c <= '\U{200A}' || c == '\U{2028}' || c == '\U{2029}' || c == '\U{202F}'
    || c == '\U{205F}' || c == '\U{3000}'
  }

  predicate IsAscii(s: string) {
    forall i :: 0 <= i < |s| ==> s[i] < '\U{80}'
  }

  function StripLeft(s: string, drop: char -> bool): string {
    if s != "" && drop(s[0]) then StripLeft(s[1..], drop) else s
  }

  function StripRight(s: string, drop: char -> bool): string {
    if s != "" && drop(s[|s|-1]) then StripRight(s[..|s|-1], drop) else s
  }

  function StripBoth(s: string, drop: char -> bool): string {
    StripRight(StripLeft(s, drop), drop)
  }

  function Strip(s: string): string {
    StripBoth(s, IsSpace)
  }

  // --- hexadecimal: RFC 4648, section 8 ---

  function HexValue(c: char): Option<int> {
    if '0' <= c <= '9' then Some(c as int - '0' as int)
    else if 'a' <= c <= 'f' then Some(c as int - 'a' as int + 10)
    else if 'A' <= c <= 'F' then Some(c as int - 'A' as int + 10)
    else None
  }

  // bytes.fromhex: two digits a byte, ASCII white space between bytes ignored.
  function FromHex(s: string): Option<seq<Byte>> {
    if s == "" then Some([])
    else if IsAsciiSpace(s[0]) then FromHex(s[1..])
    else if |s| >= 2 && HexValue(s[0]).Some? && HexValue(s[1]).Some? then
      var rest := FromHex(s[2..]);
      if rest.None? then None else Some([HexByte(s[0], s[1])] + rest.value)
    else None
  }

  function HexByte(c: char, d: char): Byte
    requires HexValue(c).Some? && HexValue(d).Some?
  {
    HexValue(c).value * 16 + HexValue(d).value
  }

  function HexDigit(v: int): (c: char)
    requires 0 <= v < 16
    ensures HexValue(c) == Some(v)
  {
    if v < 10 then (v + '0' as int) as char else (v - 10 + 'a' as int) as char
  }

  // bytes.hex()
  function ToHex(b: seq<Byte>): string {
    if b == [] then "" else [HexDigit(b[0] / 16), HexDigit(b[0] % 16)] + ToHex(b[1..])
  }

  // --- base64: RFC 4648, sections 4 and 5 ---

  function Sextet(c: char): (v: Option<int>)
    ensures v.Some? ==> 0 <= v.value < 64
  {
    if 'A' <= c <= 'Z' then Some(c as int - 'A' as int)
    else if 'a' <= c <= 'z' then Some(c as int - 'a' as int + 26)
    else if '0' <= c <= '9' then Some(c as int - '0' as int + 52)
    else if c == '+' then Some(62)
    else if c == '/' then Some(63)
    else None
  }

  function SextetChar(v: int): (c: char)
    requires 0 <= v < 64
    ensures Sextet(c) == Some(v) && c != '='
  {
    if v < 26 then (v + 'A' as int) as char
    else if v < 52 then (v - 26 + 'a' as int) as char
    else if v < 62 then (v - 52 + '0' as int) as char
    else if v == 62 then '+' else '/'
  }

  // Three bytes as one 24-bit group, cut into four 6-bit groups.
  function Group(a: Byte, b: Byte, c: Byte): int {
    a * 0x10000 + b * 0x100 + c
  }

  function GroupChars(n: int): (s: string)
    requires 0 <= n < 0x1000000
    ensures |s| == 4
  {
    [SextetChar(n / 0x40000), SextetChar(n / 0x1000 % 64), SextetChar(n / 64 % 64), SextetChar(n % 64)]
  }

  // base64.b64encode
  function Encode(b: seq<Byte>): string {
    if |b| == 0 then ""
    else if |b| == 1 then GroupChars(Group(b[0], 0, 0))[..2] + "=="
    else if |b| == 2 then GroupChars(Group(b[0], b[1], 0))[..3] + "="
    else GroupChars(Group(b[0], b[1], b[2])) + Encode(b[3..])
  }

  function Translate(s: string, f: char -> char): (t: string)
    ensures |t| == |s| && forall i :: 0 <= i < |s| ==> t[i] == f(s[i])
  {
    seq(|s|, i requires 0 <= i < |s| => f(s[i]))
  }

  function ToUrl(c: char): char {
    if c == '+' then '-' else if c == '/' then '_' else c
  }

  function FromUrl(c: char): char {
    if c == '-' then '+' else if c == '_' then '/' else c
  }

  // base64.urlsafe_b64encode
  function UrlEncode(b: seq<Byte>): string {
    Translate(Encode(b), ToUrl)
  }

  // --- the decoder, character by character (binascii.a2b_base64) ---

  predicate LeftOver(quad: int, left: int) {
    0 <= left && ((quad == 0 && left == 0) || (quad == 1 && left < 64) || (quad == 2 && left < 16) || (quad == 3 && left < 4))
  }

  function Prepend(b: Byte, rest: Option<seq<Byte>>): Option<seq<Byte>> {
    if rest.None? then None else Some([b] + rest.value)
  }

  // quad counts the sextets of the current group, left holds the bits not yet
  // written. Outside strict mode, foreign characters are skipped; a complete
  // padding ends the input.
  function Scan(s: string, quad: int, left: int, pads: nat, padded: bool, strict: bool): Option<seq<Byte>>
    requires LeftOver(quad, left)
    decreases |s|
  {
    if s == "" then (if quad == 0 then Some([]) else None)
    else if s[0] == '=' then
      if quad >= 2 && quad + pads + 1 >= 4 then (if strict && |s| > 1 then None else Some([]))
      else Scan(s[1..], quad, left, if quad >= 2 then pads + 1 else pads, true, strict)
    else if Sextet(s[0]).None? then
      if strict then None else Scan(s[1..], quad, left, pads, padded, strict)
    else if strict && padded then None
    else
      var v := Sextet(s[0]).value;
      if quad == 0 then Scan(s[1..], 1, v, 0, padded, strict)
      else if quad == 1 then Prepend(left * 4 + v / 16, Scan(s[1..], 2, v % 16, 0, padded, strict))
      else if quad == 2 then Prepend(left * 16 + v / 4, Scan(s[1..], 3, v % 4, 0, padded, strict))
      else Prepend(left * 64 + v, Scan(s[1..], 0, 0, 0, padded, strict))
  }

  function A2B(s: string, strict: bool): Option<seq<Byte>> {
    if !IsAscii(s) || (strict && s != "" && s[0] == '=') then None else Scan(s, 0, 0, 0, false, strict)
  }

  // base64.b64decode(s, validate=True) and base64.urlsafe_b64decode(s)
  function StrictDecode(s: string): Option<seq<Byte>> {
    A2B(s, true)
  }

  function UrlDecode(s: string): Option<seq<Byte>> {
    A2B(Translate(s, FromUrl), false)
  }

  // --- UTF-8 decoding: RFC 3629, section 4 ---

  predicate IsTail(b: Byte) {
    0x80 <= b < 0xC0
  }

  // The code point at the front and its length in bytes.
  function FrontCodePoint(b: seq<Byte>): (r: Option<(char, nat)>)
    requires b != []
    ensures r.Some? ==> 1 <= r.value.1 <= |b|
    ensures b[0] < 0x80 ==> r == Some((b[0] as char, 1))
  {
    var x: int := b[0];
    if x < 0x80 then Some((x as char, 1))
    else if 0xC2 <= x < 0xE0 && |b| >= 2 && IsTail(b[1]) then
      var y: int := b[1];
      Some((((x - 0xC0) * 0x40 + (y - 0x80)) as char, 2))
    else if 0xE0 <= x < 0xF0 && |b| >= 3 && IsTail(b[1]) && IsTail(b[2])
            && (x == 0xE0 ==> b[1] >= 0xA0) && (x == 0xED ==> b[1] < 0xA0) then
      var y: int, z: int := b[1], b[2];
      Some((((x - 0xE0) * 0x1000 + (y - 0x80) * 0x40 + (z - 0x80)) as char, 3))
    else if 0xF0 <= x < 0xF5 && |b| >= 4 && IsTail(b[1]) && IsTail(b[2]) && IsTail(b[3])
            && (x == 0xF0 ==> b[1] >= 0x90) && (x == 0xF4 ==> b[1] < 0x90) then
      var y: int, z: int, w: int := b[1], b[2], b[3];
      Some((((x - 0xF0) * 0x40000 + (y - 0x80) * 0x1000 + (z - 0x80) * 0x40 + (w - 0x80)) as char, 4))
    else None
  }

  function Utf8Decode(b: seq<Byte>): Option<string> {
    if b == [] then Some("")
    else
      var front := FrontCodePoint(b);
      if front.None? then None
      else
        var rest := Utf8Decode(b[front.value.1..]);
        if rest.None? then None else Some([front.value.0] + rest.value)
  }

  // ASCII text as bytes.
  function AsciiBytes(s: string): (b: seq<Byte>)
    requires IsAscii(s)
    ensures |b| == |s| && forall i :: 0 <= i < |s| ==> b[i] == s[i] as int
  {
    seq(|s|, i requires 0 <= i < |s| => s[i] as int)
  }

  // --- the codec ---

  const KEY_LENGTH := 16

  predicate IsKey(b: seq<Byte>) {
    |b| == KEY_LENGTH
  }

  function KeyFromHex(s: string): (k: Option<seq<Byte>>)
    ensures k.Some? ==> IsKey(k.value)
  {
    var b := FromHex(s);
    if b.Some? && IsKey(b.value) then b else None
  }

  // Decoded bytes are a key, or the printed hex form of one, possibly quoted.
  function Normalize(decoded: seq<Byte>): (k: Option<seq<Byte>>)
    ensures k.Some? ==> IsKey(k.value)
  {
    if IsKey(decoded) then Some(decoded)
    else
      var text := Utf8Decode(decoded);
      if text.None? then None
      else
        var t := StripBoth(StripBoth(Strip(text.value), c => c == '"'), c => c == '\'');
        if t == "" then None else KeyFromHex(t)
  }

  function Padding(n: nat): string {
    if n % 4 == 0 then "" else if n % 4 == 1 then "===" else if n % 4 == 2 then "==" else "="
  }

  function DecodeBase64Key(value: string): (k: Option<seq<Byte>>)
    ensures k.Some? ==> IsKey(k.value)
  {
    var candidate := Strip(value);
    if candidate == "" then None
    else
      var padded := candidate + Padding(|candidate|);
      var first := StrictDecode(padded);
      if first.Some? && Normalize(first.value).Some? then Normalize(first.value)
      else
        var second := UrlDecode(padded);
        if second.Some? then Normalize(second.value) else None
  }

  datatype Value = Bytes(bytes: seq<Byte>) | ByteArray(bytes: seq<Byte>) | Str(text: string) | OtherValue

  function ParseCandidate(value: Value, preferHex: bool): (k: Option<seq<Byte>>)
    ensures k.Some? ==> IsKey(k.value)
  {
    match value
    case Bytes(b) => if IsKey(b) then Some(b) else None
    case ByteArray(b) => if IsKey(b) then Some(b) else None
    case Str(text) =>
      var raw := Strip(text);
      if raw == "" then None
      else if preferHex then
        if KeyFromHex(raw).Some? then KeyFromHex(raw) else DecodeBase64Key(raw)
      else
        if DecodeBase64Key(raw).Some? then DecodeBase64Key(raw) else KeyFromHex(raw)
    case OtherValue => None
  }

  lemma {:induction false} ToHexAscii(b: seq<Byte>)
    ensures IsAscii(ToHex(b)) && |ToHex(b)| == 2 * |b|
    ensures forall i :: 0 <= i < |ToHex(b)| ==> HexValue(ToHex(b)[i]).Some?
    decreases |b|
  {
    if b != [] {
      ToHexAscii(b[1..]);
      var s := ToHex(b);
      forall i | 0 <= i < |s| ensures HexValue(s[i]).Some? {
        if i >= 2 {
          assert s[i] == ToHex(b[1..])[i-2];
        }
      }
    }
  }

  // What the sender puts on the wire.
  function EncodeOutboundKey(key: seq<Byte>): string {
    ToHexAscii(key);
    Encode(AsciiBytes(ToHex(key)))
  }
}
