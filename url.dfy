/**
 * Building the storefront search URLs. The query is turned into bytes
 * (`str::as_bytes`, UTF-8) and serialised with the url crate's
 * `form_urlencoded::byte_serialize`, the application/x-www-form-urlencoded
 * byte serializer of the WHATWG URL Standard (section 5.2): ASCII
 * alphanumerics and `*-._` are kept, a space becomes `+`, and every other
 * byte becomes `%` followed by two upper-case hexadecimal digits.
 */
module FormUrlencoded {
  import opened Wrappers

  type byte = b: int | 0 <= b < 256

  /** The UTF-8 encoding of one Unicode scalar value. */
  function CharUtf8(c: char): (r: seq<byte>)
    ensures 1 <= |r| <= 4
    ensures (c as int < 0x80) == (|r| == 1)
    ensures c as int < 0x80 ==> r == [c as int]
    ensures forall i :: 1 <= i < |r| ==> 0x80 <= r[i] < 0xC0
  {
    var n := c as int;
    if n < 0x80 then [n]
    else if n < 0x800 then [0xC0 + n / 0x40, 0x80 + n % 0x40]
    else if n < 0x10000 then [0xE0 + n / 0x1000, 0x80 + (n / 0x40) % 0x40, 0x80 + n % 0x40]
    else [0xF0 + n / 0x40000, 0x80 + (n / 0x1000) % 0x40, 0x80 + (n / 0x40) % 0x40, 0x80 + n % 0x40]
  }

  /** `str::as_bytes`: the UTF-8 encoding of a string. */
  function Utf8(s: string): (r: seq<byte>)
    ensures |r| >= |s|
  {
    if s == [] then [] else CharUtf8(s[0]) + Utf8(s[1..])
  }

  /** A string of ASCII characters is its own UTF-8 encoding. */
  lemma {:induction false} Utf8OfAscii(s: string)
    requires forall i :: 0 <= i < |s| ==> s[i] as int < 0x80
    ensures |Utf8(s)| == |s|
    ensures forall i :: 0 <= i < |s| ==> Utf8(s)[i] == s[i] as int
  {
    if s != [] {
      Utf8OfAscii(s[1..]);
    }
  }

  /** The bytes the serializer leaves as they are: ASCII alphanumerics and `*`, `-`, `.`, `_`. */
  predicate Unreserved(b: byte) {
    b == 0x2A || b == 0x2D || b == 0x2E || b == 0x5F
    || (0x30 <= b <= 0x39) || (0x41 <= b <= 0x5A) || (0x61 <= b <= 0x7A)
  }

  /** An upper-case hexadecimal digit. */
  function HexDigit(d: int): (c: char)
    requires 0 <= d < 16
    ensures ('0' <= c <= '9') || ('A' <= c <= 'F')
  {
    if d < 10 then ('0' as int + d) as char else ('A' as int + d - 10) as char
  }

  predicate IsHexDigit(c: char) {
    ('0' <= c <= '9') || ('A' <= c <= 'F')
  }

  function HexValue(c: char): (d: int)
    requires IsHexDigit(c)
    ensures 0 <= d < 16
  {
    if c <= '9' then c as int - '0' as int else c as int - 'A' as int + 10
  }

  lemma HexValueOfDigit(d: int)
    requires 0 <= d < 16
    ensures HexValue(HexDigit(d)) == d
  {
  }

  /** The characters a serialized query can contain. */
  predicate FormChar(c: char) {
    c == '+' || c == '%' || (c as int < 0x80 && Unreserved(c as int))
  }

  /** The serialization of one byte. */
  function SerializeByte(b: byte): (r: string)
    ensures forall i :: 0 <= i < |r| ==> FormChar(r[i])
  {
    if Unreserved(b) then [b as char]
    else if b == 0x20 then "+"
    else ['%', HexDigit(b / 16), HexDigit(b % 16)]
  }

  /** `form_urlencoded::byte_serialize`, collected into a `String`. */
  function ByteSerialize(bytes: seq<byte>): (r: string)
    ensures forall i :: 0 <= i < |r| ==> FormChar(r[i])
    ensures |r| >= |bytes|
  {
    if bytes == [] then "" else SerializeByte(bytes[0]) + ByteSerialize(bytes[1..])
  }

  /**
   * The reading side: `+` stands for a space, `%XX` for the byte with that
   * hexadecimal value, an unreserved character for itself; anything else is
   * not something the serializer produces.
   */
  function ByteParse(s: string): (r: Option<seq<byte>>)
  {
    if s == [] then Some([])
    else if s[0] == '+' then
      match ByteParse(s[1..])
      case Some(rest) => Some([0x20] + rest)
      case None => None
    else if s[0] == '%' && |s| >= 3 && IsHexDigit(s[1]) && IsHexDigit(s[2]) then
      match ByteParse(s[3..])
      case Some(rest) => Some([HexValue(s[1]) * 16 + HexValue(s[2])] + rest)
      case None => None
    else if s[0] as int < 0x80 && Unreserved(s[0] as int) then
      match ByteParse(s[1..])
      case Some(rest) => Some([s[0] as int] + rest)
      case None => None
    else None
  }

  /** Serializing loses nothing: parsing the serialization gives the bytes back. */
  lemma {:induction false} ByteParseSerialize(bytes: seq<byte>)
    ensures ByteParse(ByteSerialize(bytes)) == Some(bytes)
  {
    if bytes != [] {
      var b := bytes[0];
      var rest := ByteSerialize(bytes[1..]);
      ByteParseSerialize(bytes[1..]);
      assert ByteSerialize(bytes) == SerializeByte(b) + rest;
      if Unreserved(b) {
        assert (SerializeByte(b) + rest)[1..] == rest;
      } else if b == 0x20 {
        assert (SerializeByte(b) + rest)[1..] == rest;
      } else {
        HexValueOfDigit(b / 16);
        HexValueOfDigit(b % 16);
        assert (SerializeByte(b) + rest)[3..] == rest;
      }
      assert bytes == [b] + bytes[1..];
    }
  }

  /** The query cannot end the query string or start another parameter. */
  lemma SerializedHasNoDelimiters(bytes: seq<byte>)
    ensures forall i :: 0 <= i < |ByteSerialize(bytes)| ==>
              ByteSerialize(bytes)[i] !in {'&', '=', '#', '?', '/', ' '}
  {
  }

  /** The whole encoder applied to the user's query, as `byte_serialize(game.as_bytes()).collect()`. */
  function EncodeQuery(query: string): (r: string)
    ensures forall i :: 0 <= i < |r| ==> FormChar(r[i])
    ensures ByteParse(r) == Some(Utf8(query))
  {
    ByteParseSerialize(Utf8(query));
    ByteSerialize(Utf8(query))
  }

  /** Example: a space becomes `+`, `$` becomes `%24`, letters stay. */
  lemma EncodeExample()
    ensures EncodeQuery("a $") == "a+%24"
  {
    assert Utf8("a $") == [0x61, 0x20, 0x24];
    assert ByteSerialize([0x24]) == "%24";
    assert ByteSerialize([0x20, 0x24]) == "+%24";
  }
}
