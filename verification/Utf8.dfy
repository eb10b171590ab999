/** UTF-8 (section 3 of RFC 3629): uniquely decodable, and zero-free but for
    U+0000. */
module Utf8 {
  import opened Basics

  function EncodeChar(c: char): (bytes: seq<Byte>)
    ensures bytes != []
  {
    var n := c as int;
    if n < 0x80 then [n]
    else if n < 0x800 then [0xC0 + n / 64, 0x80 + n % 64]
    else if n < 0x10000 then [0xE0 + n / 4096, 0x80 + n / 64 % 64, 0x80 + n % 64]
    else [0xF0 + n / 262144, 0x80 + n / 4096 % 64, 0x80 + n / 64 % 64, 0x80 + n % 64]
  }

  function Encode(s: string): seq<Byte> {
    if s == "" then [] else EncodeChar(s[0]) + Encode(s[1..])
  }

  /** The code point an encoding at the head of a byte string stands for, and how
      many bytes it takes. */
  function DecodeHead(bytes: seq<Byte>): Option<(int, nat)> {
    if bytes == [] then None
    else if bytes[0] < 0x80 then Some((Bits(bytes[0], 0), 1))
    else if bytes[0] < 0xE0 then
      if |bytes| < 2 then None else Some((Bits(bytes[0], 0xC0) * 64 + Bits(bytes[1], 0x80), 2))
    else if bytes[0] < 0xF0 then
      if |bytes| < 3 then None
      else Some(((Bits(bytes[0], 0xE0) * 64 + Bits(bytes[1], 0x80)) * 64 + Bits(bytes[2], 0x80), 3))
    else if |bytes| < 4 then None
    else
      var high := Bits(bytes[0], 0xF0) * 64 + Bits(bytes[1], 0x80);
      Some(((high * 64 + Bits(bytes[2], 0x80)) * 64 + Bits(bytes[3], 0x80), 4))
  }

  /** What a byte carries beyond its marker bits. */
  function Bits(b: Byte, marker: int): int {
    b - marker
  }

  lemma HeadReadsBack(c: char, rest: seq<Byte>)
    ensures DecodeHead(EncodeChar(c) + rest) == Some((c as int, |EncodeChar(c)|))
  {
    var n := c as int;
    assert n == n / 64 * 64 + n % 64;
    assert n / 64 == n / 4096 * 64 + n / 64 % 64;
    assert n / 4096 == n / 262144 * 64 + n / 4096 % 64;
  }

  /** MAIN. Two texts have one encoding only if they are one text. */
  lemma {:induction false} EncodingIsInjective(s: string, t: string)
    requires Encode(s) == Encode(t)
    ensures s == t
  {
    if s != "" && t != "" {
      HeadReadsBack(s[0], Encode(s[1..]));
      HeadReadsBack(t[0], Encode(t[1..]));
      assert s[0] == t[0];
      var k := |EncodeChar(s[0])|;
      assert Encode(s)[k..] == Encode(s[1..]) && Encode(t)[k..] == Encode(t[1..]);
      EncodingIsInjective(s[1..], t[1..]);
      assert s == [s[0]] + s[1..] && t == [t[0]] + t[1..];
    }
  }

  lemma {:induction false} ZeroesAreZeroes(s: string)
    ensures 0 in Encode(s) <==> 0 as char in s
  {
    if s != "" {
      ZeroesAreZeroes(s[1..]);
      assert s == [s[0]] + s[1..];
      assert 0 in EncodeChar(s[0]) <==> s[0] == 0 as char;
    }
  }
}
