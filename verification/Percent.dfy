/**
  Form encoding as kong/plugins/api-version/sdk/decrypt.py uses it: UTF-8, percent-encoding
  (section 2.1 of RFC 3986) with "+" for a space, and the way back.
*/
module Percent {
  import opened Bytes
  import opened Wrappers
  import Seqs

  // ----- UTF-8 -----

  function Utf8Char(c: char): (bs: seq<Byte>)
    ensures 1 <= |bs| <= 4
  {
    var n := c as nat;
    if n < 0x80 then [n]
    else if n < 0x800 then [0xC0 + n / 64, 0x80 + n % 64]
    else if n < 0x10000 then [0xE0 + n / 4096, 0x80 + n / 64 % 64, 0x80 + n % 64]
    else [0xF0 + n / 262144, 0x80 + n / 4096 % 64, 0x80 + n / 64 % 64, 0x80 + n % 64]
  }

  function Utf8(s: string): seq<Byte> {
    if s == "" then [] else Utf8Char(s[0]) + Utf8(s[1..])
  }

  function Low(b: nat): nat
    requires 0x80 <= b
  {
    b - 0x80
  }

  /** The code point that a lead byte and the bytes after it stand for. */
  function CodePoint(bs: seq<Byte>): nat
    requires bs != []
  {
    var b: nat := bs[0];
    if b < 0x80 then b
    else if 0xC0 <= b < 0xE0 && |bs| >= 2 && bs[1] >= 0x80 then (b - 0xC0) * 64 + Low(bs[1])
    else if 0xE0 <= b < 0xF0 && |bs| >= 3 && bs[1] >= 0x80 && bs[2] >= 0x80 then
      (b - 0xE0) * 4096 + Low(bs[1]) * 64 + Low(bs[2])
    else if 0xF0 <= b && |bs| >= 4 && bs[1] >= 0x80 && bs[2] >= 0x80 && bs[3] >= 0x80 then
      (b - 0xF0) * 262144 + Low(bs[1]) * 4096 + Low(bs[2]) * 64 + Low(bs[3])
    else 0xD800
  }

  predicate Scalar(n: nat) {
    n < 0xD800 || 0xE000 <= n < 0x110000
  }

  /** A byte that starts no valid sequence becomes the replacement character. */
  function FromUtf8(bs: seq<Byte>): string
    decreases |bs|
  {
    if bs == [] then ""
    else
      var n := CodePoint(bs);
      if Scalar(n) && Utf8Char(n as char) <= bs then [n as char] + FromUtf8(bs[|Utf8Char(n as char)|..])
      else ['\U{FFFD}'] + FromUtf8(bs[1..])
  }

  lemma SixBitGroups(n: nat)
    ensures n == n / 4096 * 4096 + n / 64 % 64 * 64 + n % 64
    ensures n == n / 262144 * 262144 + n / 4096 % 64 * 4096 + n / 64 % 64 * 64 + n % 64
  {
    var m := n / 64;
    assert n == m * 64 + n % 64;
    assert m == m / 64 * 64 + m % 64 && m / 64 == n / 4096;
    var l := m / 64;
    assert l == l / 64 * 64 + l % 64 && l / 64 == n / 262144;
  }

  lemma CodePointOfBytes(bs: seq<Byte>, rest: seq<Byte>)
    requires bs != [] && |bs| == (if bs[0] < 0x80 then 1 else if bs[0] < 0xE0 then 2 else if bs[0] < 0xF0 then 3 else 4)
    ensures CodePoint(bs + rest) == CodePoint(bs)
  {
  }

  lemma CodePointOfChar(c: char, rest: seq<Byte>)
    ensures CodePoint(Utf8Char(c) + rest) == c as nat
  {
    CodePointOfBytes(Utf8Char(c), rest);
    SixBitGroups(c as nat);
  }

  lemma {:induction false} FromUtf8Utf8(s: string)
    ensures FromUtf8(Utf8(s)) == s
  {
    if s != "" {
      FromUtf8Utf8(s[1..]);
      var c, rest := s[0], Utf8(s[1..]);
      CodePointOfChar(c, rest);
      assert (Utf8Char(c) + rest)[|Utf8Char(c)|..] == rest;
      assert s == [c] + s[1..];
    }
  }

  lemma {:induction false} Utf8Append(a: string, b: string)
    ensures Utf8(a + b) == Utf8(a) + Utf8(b)
  {
    if a == "" {
      Seqs.AppendEmpty(b);
      Seqs.AppendEmpty(Utf8(b));
    } else {
      Utf8Append(a[1..], b);
      Seqs.AppendTail(a, b);
      Seqs.Assoc(Utf8Char(a[0]), Utf8(a[1..]), Utf8(b));
    }
  }

  // ----- Quoting -----

  predicate Unreserved(c: char) {
    'A' <= c <= 'Z' || 'a' <= c <= 'z' || '0' <= c <= '9' || c == '_' || c == '.' || c == '-' || c == '~'
  }

  function HexDigit(n: nat): char
    requires n < 16
  {
    if n < 10 then (48 + n) as char else (65 + (n - 10)) as char
  }

  function HexValue(c: char): Option<nat> {
    if '0' <= c <= '9' then Some(c as nat - 48)
    else if 'A' <= c <= 'F' then Some(c as nat - 65 + 10)
    else if 'a' <= c <= 'f' then Some(c as nat - 97 + 10)
    else None
  }

  function Escape(b: Byte): string {
    ['%', HexDigit(b / 16), HexDigit(b % 16)]
  }

  function EscapeAll(bs: seq<Byte>): string {
    if bs == [] then "" else Escape(bs[0]) + EscapeAll(bs[1..])
  }

  function QuoteChar(c: char): string {
    if Unreserved(c) then [c] else if c == ' ' then "+" else EscapeAll(Utf8Char(c))
  }

  /** `quote_plus` */
  function QuotePlus(s: string): string {
    if s == "" then "" else QuoteChar(s[0]) + QuotePlus(s[1..])
  }

  // ----- Unquoting -----

  function PlusToSpace(s: string): string {
    seq(|s|, i requires 0 <= i < |s| => if s[i] == '+' then ' ' else s[i])
  }

  /** `unquote_to_bytes`: an escape becomes its byte, anything else stays. */
  function UnquoteToBytes(s: string): seq<Byte>
    decreases |s|
  {
    if s == "" then []
    else if |s| >= 3 && s[0] == '%' && HexValue(s[1]).Some? && HexValue(s[2]).Some? then
      [HexValue(s[1]).value * 16 + HexValue(s[2]).value] + UnquoteToBytes(s[3..])
    else Utf8Char(s[0]) + UnquoteToBytes(s[1..])
  }

  /** `unquote_plus` */
  function UnquotePlus(s: string): string {
    FromUtf8(UnquoteToBytes(PlusToSpace(s)))
  }

  lemma HexRoundTrip(b: Byte)
    ensures HexValue(HexDigit(b / 16)) == Some(b / 16) && HexValue(HexDigit(b % 16)) == Some(b % 16)
    ensures HexDigit(b / 16) != '+' && HexDigit(b % 16) != '+'
    ensures b / 16 * 16 + b % 16 == b
  {
  }

  lemma UnescapeOne(b: Byte, rest: string)
    ensures UnquoteToBytes(Escape(b) + rest) == [b] + UnquoteToBytes(rest) && '+' !in Escape(b)
  {
    HexRoundTrip(b);
    assert (Escape(b) + rest)[3..] == rest;
  }

  lemma {:induction false} UnescapeAll(bs: seq<Byte>, rest: string)
    ensures UnquoteToBytes(EscapeAll(bs) + rest) == bs + UnquoteToBytes(rest)
    ensures '+' !in EscapeAll(bs)
  {
    if bs == [] {
      Seqs.AppendEmpty(rest);
      Seqs.AppendEmpty(UnquoteToBytes(rest));
    } else {
      var more, after := EscapeAll(bs[1..]), UnquoteToBytes(rest);
      UnescapeAll(bs[1..], rest);
      UnescapeOne(bs[0], more + rest);
      Seqs.Assoc(Escape(bs[0]), more, rest);
      Seqs.Assoc([bs[0]], bs[1..], after);
      Seqs.HeadTail(bs);
    }
  }

  lemma PlusAppend(a: string, b: string)
    ensures PlusToSpace(a + b) == PlusToSpace(a) + PlusToSpace(b)
    ensures '+' !in a ==> PlusToSpace(a) == a
  {
  }

  /** Undoing one quoted character in front of any text. */
  lemma UnquoteQuotedChar(c: char, rest: string)
    ensures UnquoteToBytes(PlusToSpace(QuoteChar(c) + rest)) == Utf8Char(c) + UnquoteToBytes(PlusToSpace(rest))
  {
    PlusAppend(QuoteChar(c), rest);
    if Unreserved(c) {
      assert PlusToSpace([c]) == [c];
      assert ([c] + PlusToSpace(rest))[1..] == PlusToSpace(rest);
    } else if c == ' ' {
      assert PlusToSpace("+") == " ";
      assert (" " + PlusToSpace(rest))[1..] == PlusToSpace(rest);
    } else {
      UnescapeAll(Utf8Char(c), PlusToSpace(rest));
    }
  }

  /** Undoing a quoted string in front of any text. */
  lemma {:induction false} UnquoteQuoted(s: string, rest: string)
    ensures UnquoteToBytes(PlusToSpace(QuotePlus(s) + rest)) == Utf8(s) + UnquoteToBytes(PlusToSpace(rest))
  {
    if s == "" {
      Seqs.AppendEmpty(rest);
      Seqs.AppendEmpty(UnquoteToBytes(PlusToSpace(rest)));
    } else {
      UnquoteQuoted(s[1..], rest);
      UnquoteQuotedChar(s[0], QuotePlus(s[1..]) + rest);
      Seqs.Assoc(QuoteChar(s[0]), QuotePlus(s[1..]), rest);
      Seqs.Assoc(Utf8Char(s[0]), Utf8(s[1..]), UnquoteToBytes(PlusToSpace(rest)));
    }
  }

  /** Undoing a plain separator, "=" or "&", in front of any text. */
  lemma UnquoteSeparator(c: char, rest: string)
    requires c == '=' || c == '&'
    ensures UnquoteToBytes(PlusToSpace([c] + rest)) == Utf8Char(c) + UnquoteToBytes(PlusToSpace(rest))
  {
    PlusAppend([c], rest);
    assert PlusToSpace([c]) == [c];
    assert ([c] + PlusToSpace(rest))[1..] == PlusToSpace(rest);
  }
}
