/** Base64 with the standard alphabet and mandatory canonical padding (section 4 of RFC 4648). */
module Base64 {
  import opened Results

  type Byte = n: int | 0 <= n < 256
  type Sextet = n: int | 0 <= n < 64

  const PAD: char := '='

  function CharOf(n: Sextet): char {
    if n < 26 then (n + 65) as char
    else if n < 52 then (n + 71) as char
    else if n < 62 then (n - 4) as char
    else if n == 62 then '+'
    else '/'
  }

  function SextetOf(c: char): Option<Sextet> {
    if 'A' <= c <= 'Z' then Some((c as int) - 65)
    else if 'a' <= c <= 'z' then Some((c as int) - 71)
    else if '0' <= c <= '9' then Some((c as int) + 4)
    else if c == '+' then Some(62)
    else if c == '/' then Some(63)
    else None
  }

  lemma AlphabetIsBijective(n: Sextet, c: char)
    ensures SextetOf(CharOf(n)) == Some(n) && CharOf(n) != PAD
    ensures SextetOf(c).Some? ==> CharOf(SextetOf(c).value) == c
  {
  }

  /** The alphabet in its order. */
  lemma AlphabetIs(n: Sextet, upper: string, lower: string, digits: string)
    requires upper == "ABCDEFGHIJKLMNOPQRSTUVWXYZ" && lower == "abcdefghijklmnopqrstuvwxyz" && digits == "0123456789"
    ensures n < 26 ==> CharOf(n) == upper[n]
    ensures 26 <= n < 52 ==> CharOf(n) == lower[n - 26]
    ensures 52 <= n < 62 ==> CharOf(n) == digits[n - 52]
    ensures CharOf(62) == '+' && CharOf(63) == '/'
  {
  }

  // Three bytes and four sextets are the same 24 bits.

  datatype Quad = Quad(w: Sextet, x: Sextet, y: Sextet, z: Sextet)

  datatype Triple = Triple(a: Byte, b: Byte, c: Byte)

  function Pack(t: Triple): Quad {
    Quad(t.a / 4, t.a % 4 * 16 + t.b / 16, t.b % 16 * 4 + t.c / 64, t.c % 64)
  }

  function Unpack(q: Quad): Triple {
    var w: int, x: int, y: int, z: int := q.w, q.x, q.y, q.z;
    Triple(w * 4 + x / 16, x % 16 * 16 + y / 4, y % 4 * 64 + z)
  }

  /** Both read, most significant first, as the same number. */
  lemma PackKeepsTheNumber(t: Triple)
    ensures var q := Pack(t);
            262144 * q.w + 4096 * q.x + 64 * q.y + q.z == 65536 * t.a + 256 * t.b + t.c
  {
  }

  /** Two fields side by side come apart again. */
  lemma FieldsApart(high: int, low: int)
    ensures 0 <= low < 4 ==> (high * 4 + low) / 4 == high && (high * 4 + low) % 4 == low
    ensures 0 <= low < 16 ==> (high * 16 + low) / 16 == high && (high * 16 + low) % 16 == low
    ensures 0 <= low < 64 ==> (high * 64 + low) / 64 == high && (high * 64 + low) % 64 == low
  {
  }

  lemma UnpackPack(t: Triple)
    ensures Unpack(Pack(t)) == t
  {
    FieldsApart(t.a % 4, t.b / 16);
    FieldsApart(t.b % 16, t.c / 64);
  }

  lemma PackUnpack(q: Quad)
    ensures Pack(Unpack(q)) == q
  {
    FieldsApart(q.w, q.x / 16);
    FieldsApart(q.x % 16, q.y / 4);
    FieldsApart(q.y % 4, q.z);
  }

  /** The four characters of one to three bytes. */
  function EncodeGroup(bytes: seq<Byte>): (g: string)
    requires 1 <= |bytes| <= 3
    ensures |g| == 4
  {
    var n := |bytes|;
    var q := Pack(Triple(bytes[0], if n > 1 then bytes[1] else 0, if n > 2 then bytes[2] else 0));
    [CharOf(q.w), CharOf(q.x), if n > 1 then CharOf(q.y) else PAD, if n > 2 then CharOf(q.z) else PAD]
  }

  function Encode(bytes: seq<Byte>): (s: string)
    ensures |s| % 4 == 0 && (s == "" <==> bytes == [])
  {
    if bytes == [] then ""
    else if |bytes| <= 3 then EncodeGroup(bytes)
    else EncodeGroup(bytes[..3]) + Encode(bytes[3..])
  }

  /** The bytes of four characters; padding is allowed only in the last group, and the bits it
      leaves over must be zero. */
  function DecodeGroup(g: string, last: bool): Option<seq<Byte>>
    requires |g| == 4
  {
    match (SextetOf(g[0]), SextetOf(g[1]), SextetOf(g[2]), SextetOf(g[3]))
    case (Some(w), Some(x), Some(y), Some(z)) =>
      var t := Unpack(Quad(w, x, y, z));
      Some([t.a, t.b, t.c])
    case (Some(w), Some(x), Some(y), None) =>
      var t := Unpack(Quad(w, x, y, 0));
      if last && g[3] == PAD && t.c == 0 then Some([t.a, t.b]) else None
    case (Some(w), Some(x), None, None) =>
      var t := Unpack(Quad(w, x, 0, 0));
      if last && g[2] == g[3] == PAD && t.b == 0 then Some([t.a]) else None
    case _ => None
  }

  function Decode(s: string): Option<seq<Byte>> {
    if s == "" then Some([])
    else if |s| < 4 then None
    else
      match (DecodeGroup(s[..4], |s| == 4), Decode(s[4..]))
      case (Some(group), Some(rest)) => Some(group + rest)
      case _ => None
  }

  lemma DecodeEncodedGroup(bytes: seq<Byte>, last: bool)
    requires 1 <= |bytes| <= 3 && (last || |bytes| == 3)
    ensures DecodeGroup(EncodeGroup(bytes), last) == Some(bytes)
  {
    var n := |bytes|;
    var t := Triple(bytes[0], if n > 1 then bytes[1] else 0, if n > 2 then bytes[2] else 0);
    var q := Pack(t);
    UnpackPack(t);
    AlphabetIsBijective(q.w, PAD);
    AlphabetIsBijective(q.x, PAD);
    AlphabetIsBijective(q.y, PAD);
    AlphabetIsBijective(q.z, PAD);
    assert n == 1 ==> q.y == 0;
    assert n <= 2 ==> q.z == 0;
    assert bytes == if n == 1 then [t.a] else if n == 2 then [t.a, t.b] else [t.a, t.b, t.c];
  }

  /** Every byte string survives encoding. */
  lemma {:induction false} DecodeEncode(bytes: seq<Byte>)
    ensures Decode(Encode(bytes)) == Some(bytes)
  {
    if bytes != [] {
      var s := Encode(bytes);
      if |bytes| <= 3 {
        DecodeEncodedGroup(bytes, true);
        assert s[..4] == s && s[4..] == "";
        assert bytes + [] == bytes;
      } else {
        DecodeEncode(bytes[3..]);
        DecodeEncodedGroup(bytes[..3], false);
        assert s[..4] == EncodeGroup(bytes[..3]) && s[4..] == Encode(bytes[3..]);
        assert bytes == bytes[..3] + bytes[3..];
      }
    }
  }

  lemma EncodeDecodedGroup(g: string, last: bool)
    requires |g| == 4 && DecodeGroup(g, last).Some?
    ensures var bytes := DecodeGroup(g, last).value;
            1 <= |bytes| <= 3 && (last || |bytes| == 3) && EncodeGroup(bytes) == g
  {
    AlphabetIsBijective(0, g[0]);
    AlphabetIsBijective(0, g[1]);
    AlphabetIsBijective(0, g[2]);
    AlphabetIsBijective(0, g[3]);
    var y: Sextet := if SextetOf(g[2]).Some? then SextetOf(g[2]).value else 0;
    var z: Sextet := if SextetOf(g[3]).Some? then SextetOf(g[3]).value else 0;
    PackUnpack(Quad(SextetOf(g[0]).value, SextetOf(g[1]).value, y, z));
    var bytes := DecodeGroup(g, last).value;
    assert EncodeGroup(bytes)[..] == g[..];
  }

  /** Only the encoder's own output decodes, so decoding is injective. */
  lemma {:induction false} EncodeDecode(s: string)
    requires Decode(s).Some?
    ensures Encode(Decode(s).value) == s
  {
    if s != "" {
      EncodeDecode(s[4..]);
      var group := DecodeGroup(s[..4], |s| == 4).value;
      var rest := Decode(s[4..]).value;
      EncodeDecodedGroup(s[..4], |s| == 4);
      assert s == s[..4] + s[4..];
      if |s| == 4 {
        assert group + rest == group;
      } else {
        assert (group + rest)[3..] == rest && (group + rest)[..3] == group;
      }
    }
  }

  /** Encoded text holds no white space, no comma and no other character outside the alphabet. */
  lemma {:induction false} EncodedCharacters(bytes: seq<Byte>)
    ensures forall i | 0 <= i < |Encode(bytes)| :: SextetOf(Encode(bytes)[i]).Some? || Encode(bytes)[i] == PAD
  {
    forall n: Sextet
      ensures SextetOf(CharOf(n)).Some?
    {
      AlphabetIsBijective(n, PAD);
    }
    if |bytes| > 3 {
      EncodedCharacters(bytes[3..]);
    }
  }
}
