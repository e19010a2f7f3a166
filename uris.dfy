/**
 * Resource URIs as the SDK composes them: a path of segments and an ordered list of query
 * parameters, with the segment and parameter appends, `Uri.EscapeDataString` (the
 * percent-encoding of section 2.1 of RFC 3986 over the UTF-8 bytes, keeping only the
 * unreserved characters of section 2.3), and the compact JSON text of an id list.
 */
module Uris {
  import opened Wrappers
  import opened Text

  type Byte = x: int | 0 <= x < 256

  type Int64 = x: int | Int64Min <= x <= Int64Max

  /** A URI: the path segments after the host, and the query parameters in order. */
  datatype Uri = Uri(path: seq<string>, query: seq<(string, string)>)

  /** `uri.Append(segment)`: one more path segment, the query untouched. */
  function Append(u: Uri, segment: string): (r: Uri)
    ensures |r.path| == |u.path| + 1 && r.path[..|u.path|] == u.path
    ensures r.path[|u.path|] == segment && r.query == u.query
  {
    u.(path := u.path + [segment])
  }

  /** `uri.Append(id)` for a numeric id: its decimal text as one segment. */
  function AppendId(u: Uri, id: Int64): Uri {
    Append(u, FormatInt(id))
  }

  /** `uri.AppendQueryParameter(name, value)`: one more parameter after the existing ones. */
  function AppendQueryParameter(u: Uri, name: string, value: string): (r: Uri)
    ensures r.path == u.path && |r.query| == |u.query| + 1 && r.query[..|u.query|] == u.query
    ensures r.query[|u.query|] == (name, value)
  {
    u.(query := u.query + [(name, value)])
  }

  // ---- UTF-8 ----

  /** The UTF-8 encoding of one scalar value (section 3 of RFC 3629). */
  function Utf8(c: char): (r: seq<Byte>)
    ensures 1 <= |r| <= 4
  {
    var n := c as int;
    if n < 0x80 then [n]
    else if n < 0x800 then [0xC0 + n / 0x40, 0x80 + n % 0x40]
    else if n < 0x1_0000 then [0xE0 + n / 0x1000, 0x80 + (n / 0x40) % 0x40, 0x80 + n % 0x40]
    else [0xF0 + n / 0x4_0000, 0x80 + (n / 0x1000) % 0x40, 0x80 + (n / 0x40) % 0x40, 0x80 + n % 0x40]
  }

  function Utf8Encode(s: string): seq<Byte> {
    if s == [] then [] else Utf8(s[0]) + Utf8Encode(s[1..])
  }

  // ---- percent-encoding ----

  /** The unreserved characters of section 2.3 of RFC 3986: ALPHA, DIGIT, `-`, `.`, `_`, `~`. */
  predicate IsUnreserved(c: char) {
    ('A' <= c <= 'Z') || ('a' <= c <= 'z') || ('0' <= c <= '9') || c == '-' || c == '.' || c == '_' || c == '~'
  }

  predicate IsUpperHexDigit(c: char) {
    ('0' <= c <= '9') || ('A' <= c <= 'F')
  }

  function HexDigit(d: nat): (c: char)
    requires d < 16
    ensures IsUpperHexDigit(c)
  {
    if d < 10 then ('0' as int + d) as char else ('A' as int + d - 10) as char
  }

  function HexValue(c: char): (d: nat)
    requires IsUpperHexDigit(c)
    ensures d < 16
  {
    if c <= '9' then c as int - '0' as int else c as int - 'A' as int + 10
  }

  /** A byte of an unreserved ASCII character is kept as that character; any other byte
      becomes `%` and two upper-case hex digits. */
  function EscapeByte(b: Byte): (r: string)
    ensures forall c :: c in r ==> IsUnreserved(c) || c == '%' || IsUpperHexDigit(c)
  {
    if b < 0x80 && IsUnreserved(b as char) then [b as char]
    else ['%', HexDigit(b / 16), HexDigit(b % 16)]
  }

  /** The escaped form of a byte string holds only unreserved characters and `%` triplets,
      so no `/`, `?` or `#`: it is one path segment. */
  function EscapeBytes(bs: seq<Byte>): (r: string)
    ensures forall c :: c in r ==> IsUnreserved(c) || c == '%' || IsUpperHexDigit(c)
  {
    if bs == [] then [] else EscapeByte(bs[0]) + EscapeBytes(bs[1..])
  }

  /** `Uri.EscapeDataString(s)`. */
  function EscapeDataString(s: string): (r: string)
    ensures '/' !in r && '?' !in r && '#' !in r
  {
    EscapeBytes(Utf8Encode(s))
  }

  /** Percent-decoding (section 2.1 of RFC 3986) into bytes: the reference the escaping is
      checked against. A character that is neither unreserved nor part of a `%` triplet
      makes the text not a percent-encoded string. */
  function PercentDecode(e: string): Option<seq<Byte>> {
    if e == [] then Some([])
    else if e[0] == '%' then
      if |e| >= 3 && IsUpperHexDigit(e[1]) && IsUpperHexDigit(e[2]) then
        match PercentDecode(e[3..])
        case Some(rest) => Some([HexValue(e[1]) * 16 + HexValue(e[2])] + rest)
        case None => None
      else None
    else if IsUnreserved(e[0]) then
      match PercentDecode(e[1..])
      case Some(rest) => Some([e[0] as int] + rest)
      case None => None
    else None
  }

  lemma {:induction false} EscapeBytesRoundTrip(bs: seq<Byte>)
    ensures PercentDecode(EscapeBytes(bs)) == Some(bs)
  {
    if bs != [] {
      var b := bs[0];
      var rest := EscapeBytes(bs[1..]);
      EscapeBytesRoundTrip(bs[1..]);
      var e := EscapeByte(b) + rest;
      assert EscapeBytes(bs) == e;
      if b < 0x80 && IsUnreserved(b as char) {
        assert e[0] == b as char && e[1..] == rest;
      } else {
        assert e[0] == '%' && e[3..] == rest;
        assert HexValue(HexDigit(b / 16)) == b / 16;
        assert HexValue(HexDigit(b % 16)) == b % 16;
      }
      assert bs == [b] + bs[1..];
    }
  }

  /** Percent-decoding the escaped text gives back exactly the UTF-8 bytes of the input. */
  lemma EscapeDataStringRoundTrip(s: string)
    ensures PercentDecode(EscapeDataString(s)) == Some(Utf8Encode(s))
  {
    EscapeBytesRoundTrip(Utf8Encode(s));
  }

  /** Text made only of unreserved characters is left as it is. */
  lemma {:induction false} EscapeUnreservedIdentity(s: string)
    requires forall k :: 0 <= k < |s| ==> IsUnreserved(s[k])
    ensures EscapeDataString(s) == s
  {
    if s != [] {
      assert Utf8Encode(s) == [s[0] as int] + Utf8Encode(s[1..]);
      EscapeUnreservedIdentity(s[1..]);
      assert EscapeBytes(Utf8Encode(s)) == [s[0]] + EscapeBytes(Utf8Encode(s[1..]));
      assert s == [s[0]] + s[1..];
    }
  }

  // ---- JSON text of an id list ----

  function JoinInts(ids: seq<int>): string {
    if ids == [] then []
    else if |ids| == 1 then FormatInt(ids[0])
    else FormatInt(ids[0]) + "," + JoinInts(ids[1..])
  }

  /** `JsonSerializer.Serialize` of a list of `long`s with the default options: the
      compact array `[1,2,3]`. */
  function JsonIntArray(ids: seq<int>): string {
    "[" + JoinInts(ids) + "]"
  }
}
