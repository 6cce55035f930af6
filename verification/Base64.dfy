/**
  The encoding of kong/plugins/attest/sdk/mybase64.py, from the bytes onwards: base64 (section 4 of
  RFC 4648) with the padding stripped (section 3.2), and a strict decoder to invert it.
*/
module Base64 {
  import opened Bytes
  import opened Wrappers

  // ----- The alphabet -----

  function CharOf(i: nat): char
    requires i < 64
  {
    if i < 26 then (65 + i) as char
    else if i < 52 then (97 + (i - 26)) as char
    else if i < 62 then (48 + (i - 52)) as char
    else if i == 62 then '+'
    else '/'
  }

  function IndexOf(c: char): Option<nat> {
    if 'A' <= c <= 'Z' then Some(c as nat - 65)
    else if 'a' <= c <= 'z' then Some(c as nat - 97 + 26)
    else if '0' <= c <= '9' then Some(c as nat - 48 + 52)
    else if c == '+' then Some(62)
    else if c == '/' then Some(63)
    else None
  }

  lemma AlphabetInverse(i: nat, c: char)
    requires i < 64
    ensures CharOf(i) == c <==> IndexOf(c) == Some(i)
    ensures CharOf(i) != '='
    ensures IndexOf(c).Some? ==> IndexOf(c).value < 64
  {
  }

  /** Table 1 of RFC 4648. */
  const ALPHABET := "ABCDEFGHIJKLMNOPQRSTUVWXYZ" + "abcdefghijklmnopqrstuvwxyz" + "0123456789" + "+/"

  lemma CharOfAlphabet(i: nat)
    requires i < 64
    ensures |ALPHABET| == 64 && CharOf(i) == ALPHABET[i]
  {
    if i < 26 {
      Capitals(i);
    } else if i < 52 {
      Smalls(i - 26);
    } else if i < 62 {
      Figures(i - 52);
    }
  }

  lemma Capitals(i: nat)
    requires i < 26
    ensures "ABCDEFGHIJKLMNOPQRSTUVWXYZ"[i] == (65 + i) as char
  {
  }

  lemma Smalls(i: nat)
    requires i < 26
    ensures "abcdefghijklmnopqrstuvwxyz"[i] == (97 + i) as char
  {
  }

  lemma Figures(i: nat)
    requires i < 10
    ensures "0123456789"[i] == (48 + i) as char
  {
  }

  // ----- Three bytes as four sextets -----

  function S1(x: Byte): nat {
    x / 4
  }

  function S2(x: Byte, y: Byte): nat {
    x % 4 * 16 + y / 16
  }

  function S3(y: Byte, z: Byte): nat {
    y % 16 * 4 + z / 64
  }

  function S4(z: Byte): nat {
    z % 64
  }

  function B1(i: nat, j: nat): nat {
    i * 4 + j / 16
  }

  function B2(j: nat, k: nat): nat {
    j % 16 * 16 + k / 4
  }

  function B3(k: nat, l: nat): nat {
    k % 4 * 64 + l
  }

  lemma SextetsOfBytes(x: Byte, y: Byte, z: Byte)
    ensures S1(x) < 64 && S2(x, y) < 64 && S3(y, z) < 64 && S4(z) < 64
    ensures B1(S1(x), S2(x, y)) == x && B2(S2(x, y), S3(y, z)) == y && B3(S3(y, z), S4(z)) == z
  {
  }

  lemma OneByte(x: Byte)
    ensures S1(x) < 64 && S2(x, 0) < 64 && S2(x, 0) % 16 == 0 && B1(S1(x), S2(x, 0)) == x
  {
  }

  lemma BytesOfSextets(i: nat, j: nat, k: nat, l: nat)
    requires i < 64 && j < 64 && k < 64 && l < 64
    ensures B1(i, j) < 256 && B2(j, k) < 256 && B3(k, l) < 256
    ensures S1(B1(i, j)) == i && S2(B1(i, j), B2(j, k)) == j && S3(B2(j, k), B3(k, l)) == k && S4(B3(k, l)) == l
  {
  }

  /** A group is one number of 24 bits, most significant part first. */
  lemma SameNumber(x: Byte, y: Byte, z: Byte)
    ensures S1(x) * 0x40000 + S2(x, y) * 0x1000 + S3(y, z) * 0x40 + S4(z) == x * 0x10000 + y * 0x100 + z
  {
    assert x == x / 4 * 4 + x % 4 && y == y / 16 * 16 + y % 16 && z == z / 64 * 64 + z % 64;
  }

  // ----- Encoding -----

  function Quad(x: Byte, y: Byte, z: Byte): string {
    SextetsOfBytes(x, y, z);
    [CharOf(S1(x)), CharOf(S2(x, y)), CharOf(S3(y, z)), CharOf(S4(z))]
  }

  function QuadOfTwo(x: Byte, y: Byte): string {
    SextetsOfBytes(x, y, 0);
    [CharOf(S1(x)), CharOf(S2(x, y)), CharOf(S3(y, 0)), '=']
  }

  function QuadOfOne(x: Byte): string {
    OneByte(x);
    [CharOf(S1(x)), CharOf(S2(x, 0)), '=', '=']
  }

  /** A last group of one or two bytes is filled up with zero bits. */
  function Encode(bs: seq<Byte>): string {
    if bs == [] then ""
    else if |bs| == 1 then QuadOfOne(bs[0])
    else if |bs| == 2 then QuadOfTwo(bs[0], bs[1])
    else Quad(bs[0], bs[1], bs[2]) + Encode(bs[3..])
  }

  function ByteAt(bs: seq<Byte>, i: nat): nat {
    if i < |bs| then bs[i] else 0
  }

  /** The 24 bits of group `k`, filled up with zero bits. */
  function GroupNumber(bs: seq<Byte>, k: nat): nat {
    ByteAt(bs, 3 * k) * 0x10000 + ByteAt(bs, 3 * k + 1) * 0x100 + ByteAt(bs, 3 * k + 2)
  }

  /** Six of them, the first ones first. */
  function Sextet(n: nat, j: nat): (r: nat)
    ensures r < 64
  {
    (if j == 0 then n / 0x40000 else if j == 1 then n / 0x1000 else if j == 2 then n / 0x40 else n) % 64
  }

  lemma SextetsOf(a: nat, b: nat, c: nat, d: nat)
    requires a < 64 && b < 64 && c < 64 && d < 64
    ensures var n := a * 0x40000 + b * 0x1000 + c * 0x40 + d;
      Sextet(n, 0) == a && Sextet(n, 1) == b && Sextet(n, 2) == c && Sextet(n, 3) == d
  {
    var n := a * 0x40000 + b * 0x1000 + c * 0x40 + d;
    assert n / 0x40 == a * 0x1000 + b * 0x40 + c;
    assert n / 0x1000 == a * 0x40 + b;
    assert n / 0x40000 == a;
  }

  lemma SextetsOfNumber(x: Byte, y: Byte, z: Byte)
    ensures var n := x * 0x10000 + y * 0x100 + z;
      Sextet(n, 0) == S1(x) && Sextet(n, 1) == S2(x, y) && Sextet(n, 2) == S3(y, z) && Sextet(n, 3) == S4(z)
  {
    SameNumber(x, y, z);
    SextetsOfBytes(x, y, z);
    SextetsOf(S1(x), S2(x, y), S3(y, z), S4(z));
  }

  lemma CharsOfThree(x: Byte, y: Byte, z: Byte, j: nat)
    requires j < 4
    ensures Quad(x, y, z)[j] == CharOf(Sextet(x * 0x10000 + y * 0x100 + z, j))
  {
    SextetsOfNumber(x, y, z);
  }

  lemma CharsOfTwo(x: Byte, y: Byte, j: nat)
    requires j < 3
    ensures QuadOfTwo(x, y)[j] == CharOf(Sextet(x * 0x10000 + y * 0x100, j))
  {
    SextetsOfNumber(x, y, 0);
  }

  lemma CharsOfOne(x: Byte, j: nat)
    requires j < 2
    ensures QuadOfOne(x)[j] == CharOf(Sextet(x * 0x10000, j))
  {
    SextetsOfNumber(x, 0, 0);
  }

  lemma FirstGroup(bs: seq<Byte>)
    requires bs != []
    ensures var x: nat, y: nat, z: nat :=
        bs[0], if |bs| > 1 then bs[1] else 0, if |bs| > 2 then bs[2] else 0;
      GroupNumber(bs, 0) == x * 0x10000 + y * 0x100 + z
  {
  }

  /** Every character of the encoding, as section 4 of RFC 4648 has it. */
  lemma {:induction false} EncodeExactly(bs: seq<Byte>, i: nat)
    requires i < |Encode(bs)|
    ensures Encode(bs)[i] ==
      if i % 4 < 2 || 3 * (i / 4) + i % 4 - 1 < |bs| then CharOf(Sextet(GroupNumber(bs, i / 4), i % 4)) else '='
    decreases |bs|
  {
    if i < 4 {
      EncodeFirst(bs, i);
    } else {
      EncodeLater(bs, i);
      EncodeExactly(bs[3..], i - 4);
      LaterGroup(bs, i / 4);
      assert (i - 4) / 4 == i / 4 - 1 && (i - 4) % 4 == i % 4;
    }
  }

  lemma EncodeLater(bs: seq<Byte>, i: nat)
    requires 4 <= i < |Encode(bs)|
    ensures |bs| > 2 && i - 4 < |Encode(bs[3..])| && Encode(bs)[i] == Encode(bs[3..])[i - 4]
  {
  }

  lemma EncodeFirst(bs: seq<Byte>, i: nat)
    requires bs != [] && i < 4
    ensures i < |Encode(bs)|
    ensures Encode(bs)[i] == if i < 2 || i - 1 < |bs| then CharOf(Sextet(GroupNumber(bs, 0), i)) else '='
  {
    FirstGroup(bs);
    if |bs| == 1 {
      if i < 2 {
        CharsOfOne(bs[0], i);
      }
    } else if |bs| == 2 {
      if i < 3 {
        CharsOfTwo(bs[0], bs[1], i);
      }
    } else {
      CharsOfThree(bs[0], bs[1], bs[2], i);
    }
  }

  lemma LaterGroup(bs: seq<Byte>, k: nat)
    requires 0 < k && |bs| >= 3
    ensures GroupNumber(bs, k) == GroupNumber(bs[3..], k - 1)
  {
    forall i: nat ensures ByteAt(bs[3..], i) == ByteAt(bs, i + 3) {
    }
    assert 3 * (k - 1) + 3 == 3 * k;
  }

  /** `rstrip('=')` */
  function StripPadding(s: string): string {
    if s != "" && s[|s| - 1] == '=' then StripPadding(s[..|s| - 1]) else s
  }

  /** `json_to_base64`, of the bytes of the JSON text. */
  function Unpadded(bs: seq<Byte>): string {
    StripPadding(Encode(bs))
  }

  // ----- Decoding -----

  function Pads(n: nat): string {
    seq(n, _ => '=')
  }

  /** Padding characters after `n` bytes. */
  function PadCount(n: nat): nat {
    if n % 3 == 0 then 0 else 3 - n % 3
  }

  /** Characters missing to a multiple of 4. */
  function Missing(n: nat): nat {
    if n % 4 == 0 then 0 else 4 - n % 4
  }

  function Repad(s: string): string {
    s + Pads(Missing(|s|))
  }

  datatype Group = Bad | One(x: Byte) | Two(x: Byte, y: Byte) | Three(x: Byte, y: Byte, z: Byte)

  /** One group of four characters; no bits may be set that encode nothing. */
  function DecodeGroup(s: string): Group
    requires |s| == 4
  {
    var a, b, c, d := IndexOf(s[0]), IndexOf(s[1]), IndexOf(s[2]), IndexOf(s[3]);
    if a.None? || b.None? then Bad
    else if s[2] == '=' then
      if s[3] == '=' && b.value % 16 == 0 then One(B1(a.value, b.value)) else Bad
    else if c.None? then Bad
    else if s[3] == '=' then
      if c.value % 4 == 0 then Two(B1(a.value, b.value), B2(b.value, c.value)) else Bad
    else if d.None? then Bad
    else Three(B1(a.value, b.value), B2(b.value, c.value), B3(c.value, d.value))
  }

  /** Padding is accepted in the last group only. */
  function Decode(s: string): Option<seq<Byte>> {
    if s == "" then Some([])
    else if |s| < 4 then None
    else
      match DecodeGroup(s[..4])
      case Bad => None
      case One(x) => if |s| == 4 then Some([x]) else None
      case Two(x, y) => if |s| == 4 then Some([x, y]) else None
      case Three(x, y, z) =>
        match Decode(s[4..])
        case None => None
        case Some(rest) => Some([x, y, z] + rest)
  }

  lemma CharIndex(i: nat)
    requires i < 64
    ensures IndexOf(CharOf(i)) == Some(i) && CharOf(i) != '='
  {
    AlphabetInverse(i, CharOf(i));
  }

  lemma IndexChar(c: char)
    requires IndexOf(c).Some?
    ensures IndexOf(c).value < 64 && CharOf(IndexOf(c).value) == c
  {
    AlphabetInverse(0, c);
    AlphabetInverse(IndexOf(c).value, c);
  }

  lemma DecodeQuad(x: Byte, y: Byte, z: Byte)
    ensures DecodeGroup(Quad(x, y, z)) == Three(x, y, z) && '=' !in Quad(x, y, z)
  {
    SextetsOfBytes(x, y, z);
    CharIndex(S1(x));
    CharIndex(S2(x, y));
    CharIndex(S3(y, z));
    CharIndex(S4(z));
  }

  lemma ZeroBits(x: Byte)
    ensures S3(x, 0) % 4 == 0
  {
  }

  lemma DecodeQuadOfTwo(x: Byte, y: Byte)
    ensures DecodeGroup(QuadOfTwo(x, y)) == Two(x, y) && '=' !in QuadOfTwo(x, y)[..3]
  {
    SextetsOfBytes(x, y, 0);
    CharIndex(S1(x));
    CharIndex(S2(x, y));
    CharIndex(S3(y, 0));
    ZeroBits(y);
  }

  lemma GroupOfOne(i: nat, j: nat)
    requires i < 64 && j < 64 && j % 16 == 0 && B1(i, j) < 256
    ensures DecodeGroup([CharOf(i), CharOf(j), '=', '=']) == One(B1(i, j))
    ensures CharOf(i) != '=' && CharOf(j) != '='
  {
    CharIndex(i);
    CharIndex(j);
  }

  lemma DecodeQuadOfOne(x: Byte)
    ensures DecodeGroup(QuadOfOne(x)) == One(x) && '=' !in QuadOfOne(x)[..2]
  {
    OneByte(x);
    var i, j := S1(x), S2(x, 0);
    GroupOfOne(i, j);
    var s := QuadOfOne(x);
    assert s == [CharOf(i), CharOf(j), '=', '='];
    assert s[..2] == [CharOf(i), CharOf(j)];
  }

  lemma {:induction false} DecodeEncode(bs: seq<Byte>)
    ensures Decode(Encode(bs)) == Some(bs)
    decreases |bs|
  {
    if |bs| == 1 {
      DecodeQuadOfOne(bs[0]);
      DecodeLast(QuadOfOne(bs[0]), bs);
    } else if |bs| == 2 {
      DecodeQuadOfTwo(bs[0], bs[1]);
      DecodeLast(QuadOfTwo(bs[0], bs[1]), bs);
    } else if |bs| > 2 {
      DecodeQuad(bs[0], bs[1], bs[2]);
      DecodeEncode(bs[3..]);
      DecodeMore(Quad(bs[0], bs[1], bs[2]), Encode(bs[3..]));
      assert bs == [bs[0], bs[1], bs[2]] + bs[3..];
    }
  }

  lemma DecodeLast(quad: string, bs: seq<Byte>)
    requires |quad| == 4
    requires (|bs| == 1 && DecodeGroup(quad) == One(bs[0])) || (|bs| == 2 && DecodeGroup(quad) == Two(bs[0], bs[1]))
    ensures Decode(quad) == Some(bs)
  {
    assert quad[..4] == quad;
    assert |bs| == 1 ==> bs == [bs[0]];
    assert |bs| == 2 ==> bs == [bs[0], bs[1]];
  }

  lemma DecodeMore(quad: string, more: string)
    requires |quad| == 4 && DecodeGroup(quad).Three? && Decode(more).Some?
    ensures var g := DecodeGroup(quad); Decode(quad + more) == Some([g.x, g.y, g.z] + Decode(more).value)
  {
    assert (quad + more)[..4] == quad && (quad + more)[4..] == more;
  }

  lemma GroupEncodes(s: string)
    requires |s| == 4
    ensures match DecodeGroup(s)
            case Bad => true
            case One(x) => QuadOfOne(x) == s
            case Two(x, y) => QuadOfTwo(x, y) == s
            case Three(x, y, z) => Quad(x, y, z) == s
  {
    var a, b, c, d := IndexOf(s[0]).GetOr(0), IndexOf(s[1]).GetOr(0), IndexOf(s[2]).GetOr(0), IndexOf(s[3]).GetOr(0);
    match DecodeGroup(s) {
      case Bad =>
      case One(x) =>
        IndexChar(s[0]);
        IndexChar(s[1]);
        LastOfOne(a, b);
      case Two(x, y) =>
        IndexChar(s[0]);
        IndexChar(s[1]);
        IndexChar(s[2]);
        LastOfTwo(a, b, c);
      case Three(x, y, z) =>
        IndexChar(s[0]);
        IndexChar(s[1]);
        IndexChar(s[2]);
        IndexChar(s[3]);
        BytesOfSextets(a, b, c, d);
    }
  }

  lemma LastOfOne(i: nat, j: nat)
    requires i < 64 && j < 64 && j % 16 == 0
    ensures B1(i, j) < 256 && S1(B1(i, j)) == i && S2(B1(i, j), 0) == j
  {
  }

  lemma LastOfTwo(i: nat, j: nat, k: nat)
    requires i < 64 && j < 64 && k < 64 && k % 4 == 0
    ensures B1(i, j) < 256 && B2(j, k) < 256
    ensures S1(B1(i, j)) == i && S2(B1(i, j), B2(j, k)) == j && S3(B2(j, k), 0) == k
  {
  }

  lemma {:induction false} EncodeDecode(s: string)
    requires Decode(s).Some?
    ensures Encode(Decode(s).value) == s
    decreases |s|
  {
    if s != "" {
      GroupEncodes(s[..4]);
      if |s| == 4 {
        assert s[..4] == s;
      }
      match DecodeGroup(s[..4]) {
        case One(x) =>
        case Two(x, y) =>
        case Three(x, y, z) =>
          EncodeDecode(s[4..]);
          var rest := Decode(s[4..]).value;
          assert ([x, y, z] + rest)[3..] == rest;
          assert s == s[..4] + s[4..];
      }
    }
  }

  // ----- Stripping and padding again -----

  /** What `rstrip` removes: 0, 1 or 2 padding characters, and nothing else. */
  lemma {:induction false} EncodeShape(bs: seq<Byte>)
    ensures |Encode(bs)| == (|bs| + 2) / 3 * 4
    ensures Encode(bs) == Unpadded(bs) + Pads(PadCount(|bs|))
    ensures '=' !in Unpadded(bs)
    decreases |bs|
  {
    if bs == [] {
      assert Pads(0) == "";
    } else if |bs| == 1 {
      DecodeQuadOfOne(bs[0]);
      assert QuadOfOne(bs[0]) == QuadOfOne(bs[0])[..2] + Pads(2);
      StripPads(QuadOfOne(bs[0])[..2], 2);
    } else if |bs| == 2 {
      DecodeQuadOfTwo(bs[0], bs[1]);
      assert QuadOfTwo(bs[0], bs[1]) == QuadOfTwo(bs[0], bs[1])[..3] + Pads(1);
      StripPads(QuadOfTwo(bs[0], bs[1])[..3], 1);
    } else {
      DecodeQuad(bs[0], bs[1], bs[2]);
      var more := bs[3..];
      EncodeShape(more);
      ThreeMore(|more|);
      ShapeOfMore(Quad(bs[0], bs[1], bs[2]), Encode(more), Pads(PadCount(|more|)));
      assert |bs| == |more| + 3;
    }
  }

  lemma ThreeMore(n: nat)
    ensures PadCount(n + 3) == PadCount(n) && (n + 5) / 3 * 4 == (n + 2) / 3 * 4 + 4
  {
  }

  lemma ShapeOfMore(quad: string, more: string, pads: string)
    requires |quad| == 4 && '=' !in quad && more == StripPadding(more) + pads
    ensures quad + more == StripPadding(quad + more) + pads
    ensures StripPadding(quad + more) == quad + StripPadding(more)
  {
    StripPrefix(quad, more);
    assert quad + (StripPadding(more) + pads) == quad + StripPadding(more) + pads;
  }

  lemma {:induction false} StripPrefix(a: string, b: string)
    requires a != "" && a[|a| - 1] != '='
    ensures StripPadding(a + b) == a + StripPadding(b)
    decreases |b|
  {
    if b == "" {
      assert a + b == a;
    } else if b[|b| - 1] == '=' {
      StripPrefix(a, b[..|b| - 1]);
      assert (a + b)[..|a + b| - 1] == a + b[..|b| - 1];
    }
  }

  /** The output has ceil(4n/3) characters, a length that is never 1 modulo 4. */
  lemma UnpaddedLength(bs: seq<Byte>)
    ensures |Unpadded(bs)| == (4 * |bs| + 2) / 3 && |Unpadded(bs)| % 4 != 1
    ensures Missing(|Unpadded(bs)|) == PadCount(|bs|)
  {
    EncodeShape(bs);
    Lengths(|bs|);
  }

  lemma Lengths(n: nat)
    ensures (n + 2) / 3 * 4 - PadCount(n) == (4 * n + 2) / 3
    ensures (4 * n + 2) / 3 % 4 != 1 && Missing((4 * n + 2) / 3) == PadCount(n)
  {
    var q, r := n / 3, n % 3;
    assert n == 3 * q + r && (4 * n + 2) / 3 == 4 * q + (4 * r + 2) / 3 && (n + 2) / 3 == q + (r + 2) / 3;
  }

  /** Padding the output again gives back the padded encoding, and decoding that the bytes. */
  lemma RepadDecodes(bs: seq<Byte>)
    ensures Repad(Unpadded(bs)) == Encode(bs)
    ensures Decode(Repad(Unpadded(bs))) == Some(bs)
  {
    EncodeShape(bs);
    UnpaddedLength(bs);
    DecodeEncode(bs);
  }

  /** The outputs are exactly the strings without "=" that decode after padding. */
  lemma OutputsExactly(s: string)
    ensures (exists bs :: Unpadded(bs) == s) <==> '=' !in s && Decode(Repad(s)).Some?
  {
    if bs :| Unpadded(bs) == s {
      RepadDecodes(bs);
      EncodeShape(bs);
    }
    if '=' !in s && Decode(Repad(s)).Some? {
      var bs := Decode(Repad(s)).value;
      EncodeDecode(Repad(s));
      StripPads(s, Missing(|s|));
      assert Unpadded(bs) == s;
    }
  }

  lemma {:induction false} StripPads(s: string, n: nat)
    requires '=' !in s
    ensures StripPadding(s + Pads(n)) == s
  {
    if n == 0 {
      assert s + Pads(0) == s;
    } else {
      assert (s + Pads(n))[..|s| + n - 1] == s + Pads(n - 1);
      StripPads(s, n - 1);
    }
  }
}
