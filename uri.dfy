/**
 * `encodeURIComponent` as ECMA-262 defines it (the abstract operation Encode with the
 * unreserved set of URI component characters): a character in `A-Z a-z 0-9 - _ . ! ~ * ' ( )`
 * is copied, any other is written as its UTF-8 bytes, each as `%` and two upper-case
 * hexadecimal digits (percent-encoding in the sense of section 2.1 of RFC 3986).
 */
module Uri {

  /** The characters `encodeURIComponent` leaves as they are. */
  predicate IsUnreserved(c: char) {
    ('A' <= c <= 'Z') || ('a' <= c <= 'z') || ('0' <= c <= '9')
    || c == '-' || c == '_' || c == '.' || c == '!' || c == '~'
    || c == '*' || c == '\'' || c == '(' || c == ')'
  }

  predicate IsUpperHex(c: char) {
    ('0' <= c <= '9') || ('A' <= c <= 'F')
  }

  const HexAlphabet: string := "0123456789ABCDEF"

  function HexDigit(d: int): (c: char)
    requires 0 <= d < 16
    ensures IsUpperHex(c)
  {
    HexAlphabet[d]
  }

  /** The value of an upper-case hexadecimal digit. */
  function HexValue(c: char): (v: int)
    ensures 0 <= v < 16
  {
    if '0' <= c <= '9' then c as int - '0' as int
    else if 'A' <= c <= 'F' then c as int - 'A' as int + 10
    else 0
  }

  lemma HexValueOfDigit(d: int)
    requires 0 <= d < 16
    ensures HexValue(HexDigit(d)) == d
  {
  }

  predicate IsByte(b: int) {
    0 <= b < 256
  }

  /** The UTF-8 encoding of one Unicode scalar value: one to four bytes. */
  function Utf8(c: char): (bytes: seq<int>)
    ensures 1 <= |bytes| <= 4
    ensures forall i :: 0 <= i < |bytes| ==> IsByte(bytes[i])
    ensures |bytes| == 1 <==> c as int < 0x80
    ensures |bytes| == 1 ==> bytes[0] == c as int
    ensures forall i :: 1 <= i < |bytes| ==> 0x80 <= bytes[i] < 0xC0
  {
    var cp := c as int;
    if cp < 0x80 then [cp]
    else if cp < 0x800 then [0xC0 + cp / 64, 0x80 + cp % 64]
    else if cp < 0x10000 then [0xE0 + cp / 4096, 0x80 + (cp / 64) % 64, 0x80 + cp % 64]
    else [0xF0 + cp / 262144, 0x80 + (cp / 4096) % 64, 0x80 + (cp / 64) % 64, 0x80 + cp % 64]
  }

  /** Reads back the code point from the bytes `Utf8` writes. */
  function Utf8Value(bytes: seq<int>): int
    requires 1 <= |bytes| <= 4
  {
    match |bytes|
    case 1 => bytes[0]
    case 2 => (bytes[0] - 0xC0) * 64 + (bytes[1] - 0x80)
    case 3 => (bytes[0] - 0xE0) * 4096 + (bytes[1] - 0x80) * 64 + (bytes[2] - 0x80)
    case 4 => (bytes[0] - 0xF0) * 262144 + (bytes[1] - 0x80) * 4096 + (bytes[2] - 0x80) * 64 + (bytes[3] - 0x80)
  }

  /** The bytes `Utf8` writes carry the character's code point. */
  lemma Utf8RoundTrip(c: char)
    ensures Utf8Value(Utf8(c)) == c as int
  {
    var cp := c as int;
    if cp >= 0x10000 {
      assert cp / 64 == (cp / 4096) * 64 + (cp / 64) % 64;
      assert cp / 4096 == (cp / 262144) * 64 + (cp / 4096) % 64;
    } else if cp >= 0x800 {
      assert cp / 64 == (cp / 4096) * 64 + (cp / 64) % 64;
    }
  }

  /** One byte as `%` and two upper-case hexadecimal digits. */
  function PercentByte(b: int): (r: string)
    requires IsByte(b)
    ensures |r| == 3 && r[0] == '%' && IsUpperHex(r[1]) && IsUpperHex(r[2])
    ensures HexValue(r[1]) * 16 + HexValue(r[2]) == b
  {
    HexValueOfDigit(b / 16);
    HexValueOfDigit(b % 16);
    ['%', HexDigit(b / 16), HexDigit(b % 16)]
  }

  function PercentBytes(bytes: seq<int>): (r: string)
    requires forall i :: 0 <= i < |bytes| ==> IsByte(bytes[i])
    ensures |r| == 3 * |bytes|
  {
    if bytes == [] then [] else PercentByte(bytes[0]) + PercentBytes(bytes[1..])
  }

  /** Reads back the bytes from a run of `%XX` triplets. */
  function PercentDecode(t: string): seq<int>
    requires |t| % 3 == 0
  {
    if t == [] then [] else [HexValue(t[1]) * 16 + HexValue(t[2])] + PercentDecode(t[3..])
  }

  lemma {:induction false} PercentRoundTrip(bytes: seq<int>)
    requires forall i :: 0 <= i < |bytes| ==> IsByte(bytes[i])
    ensures PercentDecode(PercentBytes(bytes)) == bytes
  {
    if bytes != [] {
      var t := PercentBytes(bytes);
      assert t[3..] == PercentBytes(bytes[1..]);
      PercentRoundTrip(bytes[1..]);
    }
  }

  /** `encodeURIComponent(s)`. */
  function EncodeUriComponent(s: string): string {
    if s == [] then []
    else (if IsUnreserved(s[0]) then [s[0]] else PercentBytes(Utf8(s[0]))) + EncodeUriComponent(s[1..])
  }

  lemma {:induction false} PercentBytesAlphabet(bytes: seq<int>)
    requires forall i :: 0 <= i < |bytes| ==> IsByte(bytes[i])
    ensures forall i :: 0 <= i < |PercentBytes(bytes)| ==>
      PercentBytes(bytes)[i] == '%' || IsUpperHex(PercentBytes(bytes)[i])
  {
    if bytes != [] {
      PercentBytesAlphabet(bytes[1..]);
      var head := PercentByte(bytes[0]);
      var t := PercentBytes(bytes);
      forall i | 0 <= i < |t| ensures t[i] == '%' || IsUpperHex(t[i]) {
        if i >= 3 {
          assert t[i] == PercentBytes(bytes[1..])[i - 3];
        }
      }
    }
  }

  /** The encoded text uses only unreserved characters, `%` and upper-case
      hexadecimal digits, so it can stand in a query component as it is. */
  lemma {:induction false} EncodeAlphabet(s: string)
    ensures forall i :: 0 <= i < |EncodeUriComponent(s)| ==>
      var c := EncodeUriComponent(s)[i]; IsUnreserved(c) || c == '%' || IsUpperHex(c)
  {
    if s != [] {
      EncodeAlphabet(s[1..]);
      var head := if IsUnreserved(s[0]) then [s[0]] else PercentBytes(Utf8(s[0]));
      if !IsUnreserved(s[0]) {
        PercentBytesAlphabet(Utf8(s[0]));
      }
      var t := EncodeUriComponent(s);
      assert t == head + EncodeUriComponent(s[1..]);
      forall i | 0 <= i < |t| ensures IsUnreserved(t[i]) || t[i] == '%' || IsUpperHex(t[i]) {
        if i >= |head| {
          assert t[i] == EncodeUriComponent(s[1..])[i - |head|];
        }
      }
    }
  }

  /** A string of unreserved characters, such as a normalised phone number of ASCII
      digits, is encoded as itself. */
  lemma {:induction false} EncodeUnreservedIsIdentity(s: string)
    requires forall i :: 0 <= i < |s| ==> IsUnreserved(s[i])
    ensures EncodeUriComponent(s) == s
  {
    if s != [] {
      EncodeUnreservedIsIdentity(s[1..]);
    }
  }
}
