/**
 * `encodeURIComponent` as ECMAScript defines it: characters of the
 * unreserved URI set are kept, every other character is written as the
 * percent-escaped octets of its UTF-8 encoding with upper-case hex digits.
 * Dafny characters are Unicode scalar values, so the URIError that a lone
 * surrogate raises cannot arise here.
 */
module Uri {
  import opened Strings

  /** "A-Z a-z 0-9 - _ . ! ~ * ' ( )", the characters left unescaped. */
  predicate IsUnreserved(c: char) {
    ('A' <= c <= 'Z') || ('a' <= c <= 'z') || ('0' <= c <= '9')
    || c == '-' || c == '_' || c == '.' || c == '!' || c == '~' || c == '*'
    || c == '\'' || c == '(' || c == ')'
  }

  predicate IsUpperHex(c: char) {
    ('0' <= c <= '9') || ('A' <= c <= 'F')
  }

  function HexDigit(d: nat): (c: char)
    requires d < 16
    ensures IsUpperHex(c)
  {
    "0123456789ABCDEF"[d]
  }

  /** The UTF-8 octets of one Unicode scalar value. */
  function Utf8(c: char): (bytes: seq<nat>)
    ensures 1 <= |bytes| <= 4
    ensures forall k :: 0 <= k < |bytes| ==> bytes[k] < 256
    ensures (c as int) < 0x80 <==> bytes == [c as int]
  {
    var n := c as int;
    if n < 0x80 then [n]
    else if n < 0x800 then [0xC0 + n / 64, 0x80 + n % 64]
    else if n < 0x10000 then [0xE0 + n / 4096, 0x80 + (n / 64) % 64, 0x80 + n % 64]
    else [0xF0 + n / 262144, 0x80 + (n / 4096) % 64, 0x80 + (n / 64) % 64, 0x80 + n % 64]
  }

  /** The escape `%XY` of one octet. */
  function Escape(b: nat): (s: string)
    requires b < 256
    ensures |s| == 3 && s[0] == '%' && IsUpperHex(s[1]) && IsUpperHex(s[2])
  {
    ['%', HexDigit(b / 16), HexDigit(b % 16)]
  }

  function EscapeAll(bytes: seq<nat>): (s: string)
    requires forall k :: 0 <= k < |bytes| ==> bytes[k] < 256
    ensures |s| == 3 * |bytes|
    ensures forall k :: 0 <= k < |s| ==> if k % 3 == 0 then s[k] == '%' else IsUpperHex(s[k])
  {
    if bytes == [] then []
    else
      var rest := EscapeAll(bytes[1..]);
      var e := Escape(bytes[0]);
      assert forall k :: 3 <= k < 3 + |rest| ==> (e + rest)[k] == rest[k - 3];
      e + rest
  }

  function EncodeChar(c: char): (s: string)
    ensures IsUnreserved(c) ==> s == [c]
    ensures !IsUnreserved(c) ==> |s| >= 3 && s[0] == '%'
    ensures forall k :: 0 <= k < |s| ==> IsUnreserved(s[k]) || s[k] == '%'
  {
    if IsUnreserved(c) then [c] else EscapeAll(Utf8(c))
  }

  /** `encodeURIComponent(s)`. */
  function EncodeURIComponent(s: string): (r: string)
    ensures |r| >= |s|
    ensures forall k :: 0 <= k < |r| ==> IsUnreserved(r[k]) || r[k] == '%'
  {
    if s == [] then []
    else
      var head := EncodeChar(s[0]);
      var rest := EncodeURIComponent(s[1..]);
      assert forall k :: |head| <= k < |head| + |rest| ==> (head + rest)[k] == rest[k - |head|];
      head + rest
  }

  /** A string made only of unreserved characters is left as it is. */
  lemma {:induction false} EncodeUnreservedIdentity(s: string)
    requires forall k :: 0 <= k < |s| ==> IsUnreserved(s[k])
    ensures EncodeURIComponent(s) == s
  {
    if s != [] {
      EncodeUnreservedIdentity(s[1..]);
    }
  }

  /** The query-syntax characters `&`, `=`, `#`, `?`, `+`, the space and `/`
      never survive encoding, so an encoded value cannot end its query
      parameter. */
  lemma EncodedIsQuerySafe(s: string)
    ensures var r := EncodeURIComponent(s);
      forall k :: 0 <= k < |r| ==> r[k] !in {'&', '=', '#', '?', '+', ' ', '/'}
  {
  }
}
