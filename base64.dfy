/** Base64 in the standard alphabet with `=` padding (RFC 4648, section 4),
    as `base64.b64encode` and `base64.b64decode` apply it to credentials. */
module Base64 {

  import opened PyJson

  type byte = x: int | 0 <= x < 256

  /** The character that stands for a 6-bit value. */
  function Char(v: int): (c: char)
    requires 0 <= v < 64
    ensures Index(c) == Some(v)
  {
    if v < 26 then ('A' as int + v) as char
    else if v < 52 then ('a' as int + (v - 26)) as char
    else if v < 62 then ('0' as int + (v - 52)) as char
    else if v == 62 then '+'
    else '/'
  }

  /** The 6-bit value a character of the alphabet stands for. */
  function Index(c: char): (r: Option<int>)
    ensures r.Some? ==> 0 <= r.value < 64
  {
    if 'A' <= c <= 'Z' then Some(c as int - 'A' as int)
    else if 'a' <= c <= 'z' then Some(c as int - 'a' as int + 26)
    else if '0' <= c <= '9' then Some(c as int - '0' as int + 52)
    else if c == '+' then Some(62)
    else if c == '/' then Some(63)
    else None
  }

  /** Base64 text of `b`: each 3 bytes become 4 characters, and a final group
      of 1 or 2 bytes is padded with `=` to 4 characters. */
  function Encode(b: seq<byte>): (s: string)
    ensures |s| == 4 * ((|b| + 2) / 3)
    decreases |b|
  {
    if |b| == 0 then ""
    else if |b| == 1 then
      [Char(b[0] / 4), Char(b[0] % 4 * 16), '=', '=']
    else if |b| == 2 then
      [Char(b[0] / 4), Char(b[0] % 4 * 16 + b[1] / 16), Char(b[1] % 16 * 4), '=']
    else Group3(b[0], b[1], b[2]) + Encode(b[3..])
  }

  /** The 3 bytes of a group of 4 sextets. */
  function Bytes3(v0: int, v1: int, v2: int, v3: int): seq<byte>
    requires 0 <= v0 < 64 && 0 <= v1 < 64 && 0 <= v2 < 64 && 0 <= v3 < 64
  {
    [v0 * 4 + v1 / 16, v1 % 16 * 16 + v2 / 4, v2 % 4 * 64 + v3]
  }

  /** Decodes one group of 4 characters; only the last group of the text
      (`last`) may carry padding. */
  function DecodeGroup(g: string, last: bool): (r: Option<seq<byte>>)
    requires |g| == 4
    ensures r.Some? ==> 1 <= |r.value| <= 3
    ensures r.Some? && !last ==> |r.value| == 3
  {
    var i0, i1, i2, i3 := Index(g[0]), Index(g[1]), Index(g[2]), Index(g[3]);
    if i0.None? || i1.None? then None
    else if i2.Some? && i3.Some? then
      Some(Bytes3(i0.value, i1.value, i2.value, i3.value))
    else if i2.Some? && last && g[3] == '=' then
      Some(Bytes3(i0.value, i1.value, i2.value, 0)[..2])
    else if i2.None? && last && g[2] == '=' && g[3] == '=' then
      Some(Bytes3(i0.value, i1.value, 0, 0)[..1])
    else None
  }

  /** The bytes base64 text stands for, decoded strictly: `InvalidBase64`
      when the text is not canonical base64 (length not a multiple of 4, a
      character outside the alphabet, padding anywhere but at the end).
      This is the strict decoding of RFC 4648; Python's default
      `b64decode` is more lenient and rejects only some of these texts. */
  function Decode(s: string): (r: Result<seq<byte>>)
    ensures r.Err? ==> r.error == InvalidBase64
    decreases |s|
  {
    if |s| == 0 then Ok([])
    else if |s| < 4 then Err(InvalidBase64)
    else
      match DecodeGroup(s[..4], |s| == 4)
      case None => Err(InvalidBase64)
      case Some(g) =>
        if |s| == 4 then Ok(g)
        else match Decode(s[4..])
          case Err(e) => Err(e)
          case Ok(rest) => Ok(g + rest)
  }

  /** The sextets of 3 bytes recombine into those bytes. */
  lemma Sextets(b0: byte, b1: byte, b2: byte)
    ensures Bytes3(b0 / 4, b0 % 4 * 16 + b1 / 16, b1 % 16 * 4 + b2 / 64, b2 % 64) == [b0, b1, b2]
  {
    var q0, r0 := b0 / 4, b0 % 4;
    var q1, r1 := b1 / 16, b1 % 16;
    var q2, r2 := b2 / 64, b2 % 64;
    assert b0 == 4 * q0 + r0 && b1 == 16 * q1 + r1 && b2 == 64 * q2 + r2;
    var v1, v2 := r0 * 16 + q1, r1 * 4 + q2;
    assert v1 / 16 == r0 && v1 % 16 == q1;
    assert v2 / 4 == r1 && v2 % 4 == q2;
  }

  /** Decoding a group encoded from 3 bytes gives those bytes back. */
  lemma Group3RoundTrip(b0: byte, b1: byte, b2: byte, last: bool)
    ensures DecodeGroup(Group3(b0, b1, b2), last) == Some([b0, b1, b2])
  {
    var v0, v1, v2, v3 := b0 / 4, b0 % 4 * 16 + b1 / 16, b1 % 16 * 4 + b2 / 64, b2 % 64;
    var g := Group3(b0, b1, b2);
    assert g == [Char(v0), Char(v1), Char(v2), Char(v3)];
    assert Index(g[0]) == Some(v0) && Index(g[1]) == Some(v1);
    assert Index(g[2]) == Some(v2) && Index(g[3]) == Some(v3);
    assert DecodeGroup(g, last) == Some(Bytes3(v0, v1, v2, v3));
    Sextets(b0, b1, b2);
  }

  /** A final group of 1 byte decodes back to it. */
  lemma Tail1RoundTrip(b0: byte)
    ensures Decode(Encode([b0])) == Ok([b0])
  {
    var v0, v1 := b0 / 4, b0 % 4 * 16;
    var s := Encode([b0]);
    assert s == [Char(v0), Char(v1), '=', '='];
    assert s[..4] == s;
    Sextets(b0, 0, 0);
    assert Bytes3(v0, v1, 0, 0) == [b0, 0, 0];
    assert DecodeGroup(s, true) == Some(Bytes3(v0, v1, 0, 0)[..1]);
    assert Bytes3(v0, v1, 0, 0)[..1] == [b0];
    assert Decode(s) == Ok([b0]);
  }

  /** A final group of 2 bytes decodes back to them. */
  lemma Tail2RoundTrip(b0: byte, b1: byte)
    ensures Decode(Encode([b0, b1])) == Ok([b0, b1])
  {
    var v0, v1, v2 := b0 / 4, b0 % 4 * 16 + b1 / 16, b1 % 16 * 4;
    var s := Encode([b0, b1]);
    assert s == [Char(v0), Char(v1), Char(v2), '='];
    assert s[..4] == s;
    Sextets(b0, b1, 0);
    assert Bytes3(v0, v1, v2, 0) == [b0, b1, 0];
    assert DecodeGroup(s, true) == Some(Bytes3(v0, v1, v2, 0)[..2]);
    assert Bytes3(v0, v1, v2, 0)[..2] == [b0, b1];
    assert Decode(s) == Ok([b0, b1]);
  }

  /** Decoding a text that starts with a full group. */
  lemma DecodeStep(g: string, rest: string, x: seq<byte>, y: seq<byte>)
    requires |g| == 4 && rest != []
    requires DecodeGroup(g, false) == Some(x) && Decode(rest) == Ok(y)
    ensures Decode(g + rest) == Ok(x + y)
  {
    var s := g + rest;
    assert s[..4] == g && s[4..] == rest;
  }

  /** The first group of the encoding of 3 or more bytes. */
  function Group3(b0: byte, b1: byte, b2: byte): (g: string)
    ensures |g| == 4
  {
    [Char(b0 / 4), Char(b0 % 4 * 16 + b1 / 16), Char(b1 % 16 * 4 + b2 / 64), Char(b2 % 64)]
  }

  /** Every byte string survives encoding followed by decoding. */
  lemma {:induction false} RoundTrip(b: seq<byte>)
    ensures Decode(Encode(b)) == Ok(b)
    decreases |b|
  {
    if |b| == 1 {
      assert b == [b[0]];
      Tail1RoundTrip(b[0]);
    } else if |b| == 2 {
      assert b == [b[0], b[1]];
      Tail2RoundTrip(b[0], b[1]);
    } else if |b| > 2 {
      var g := Group3(b[0], b[1], b[2]);
      var rest := Encode(b[3..]);
      assert Encode(b) == g + rest;
      assert b == [b[0], b[1], b[2]] + b[3..];
      if |b| == 3 {
        assert b[3..] == [] && rest == "" && g + rest == g;
        Group3RoundTrip(b[0], b[1], b[2], true);
        assert g[..4] == g;
        assert Decode(g) == Ok([b[0], b[1], b[2]]);
        assert b == [b[0], b[1], b[2]] && Encode(b) == g;
      } else {
        Group3RoundTrip(b[0], b[1], b[2], false);
        RoundTrip(b[3..]);
        DecodeStep(g, rest, [b[0], b[1], b[2]], b[3..]);
      }
    }
  }

  /** Encoding is injective: different byte strings never share a text. */
  lemma EncodeInjective(a: seq<byte>, b: seq<byte>)
    requires Encode(a) == Encode(b)
    ensures a == b
  {
    RoundTrip(a);
    RoundTrip(b);
  }

  /** The text of "Og==" form: the encoding of a single colon, the credentials
      of an empty login name and password. */
  lemma EncodeColon()
    ensures Encode([58]) == "Og=="
  {
    assert 58 / 4 == 14 && 58 % 4 * 16 == 32;
    assert Char(14) == 'O' && Char(32) == 'g';
  }
}
