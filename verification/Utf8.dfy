/** Byte strings and `str.encode("utf-8")`. A Dafny `char` is a Unicode scalar value, so every string
can be encoded. */
module Utf8 {

  type Byte = b: int | 0 <= b < 256
  type Bytes = seq<Byte>

  function EncodeChar(c: char): (r: Bytes)
    ensures |r| > 0
  {
    var n := c as int;
    if n < 0x80 then [n]
    else if n < 0x800 then [0xC0 + n / 0x40, 0x80 + n % 0x40]
    else if n < 0x10000 then [0xE0 + n / 0x1000, 0x80 + n / 0x40 % 0x40, 0x80 + n % 0x40]
    else [0xF0 + n / 0x40000, 0x80 + n / 0x1000 % 0x40, 0x80 + n / 0x40 % 0x40, 0x80 + n % 0x40]
  }

  function Encode(s: string): Bytes {
    if s == "" then [] else EncodeChar(s[0]) + Encode(s[1..])
  }

  /** Texts are encoded character by character, in order. */
  lemma {:induction false} EncodeConcat(s: string, t: string)
    ensures Encode(s + t) == Encode(s) + Encode(t)
  {
    if s == "" {
      assert s + t == t;
    } else {
      EncodeConcat(s[1..], t);
      assert (s + t)[1..] == s[1..] + t;
    }
  }

  /** The scalar value at the head of a byte string, and how many bytes it takes. */
  function Head(b: seq<int>): (int, nat)
    requires |b| > 0
  {
    if b[0] < 0x80 then (b[0], 1)
    else if b[0] < 0xE0 then (if |b| < 2 then (0, 0) else ((b[0] - 0xC0) * 0x40 + (b[1] - 0x80), 2))
    else if b[0] < 0xF0 then
      if |b| < 3 then (0, 0) else ((b[0] - 0xE0) * 0x1000 + (b[1] - 0x80) * 0x40 + (b[2] - 0x80), 3)
    else
      if |b| < 4 then (0, 0)
      else ((b[0] - 0xF0) * 0x40000 + (b[1] - 0x80) * 0x1000 + (b[2] - 0x80) * 0x40 + (b[3] - 0x80), 4)
  }

  /** Six-bit groups of a number. */
  lemma SixBitGroups(n: nat)
    ensures n == n / 0x40 * 0x40 + n % 0x40
    ensures n / 0x1000 == n / 0x40 / 0x40 && n / 0x40000 == n / 0x1000 / 0x40
    ensures n / 0x40 == n / 0x1000 * 0x40 + n / 0x40 % 0x40
    ensures n / 0x1000 == n / 0x40000 * 0x40 + n / 0x1000 % 0x40
  {
  }

  lemma HeadOfEncoding(c: char, rest: Bytes)
    ensures Head(EncodeChar(c) + rest) == (c as int, |EncodeChar(c)|)
  {
    var n, e := c as int, EncodeChar(c);
    var b := e + rest;
    SixBitGroups(n);
    assert b[0] == e[0];
    if n < 0x80 {
    } else if n < 0x800 {
      assert b[1] == e[1];
    } else if n < 0x10000 {
      assert b[1] == e[1] && b[2] == e[2];
    } else {
      assert b[1] == e[1] && b[2] == e[2] && b[3] == e[3];
    }
  }

  /** UTF-8 encoding loses nothing. */
  lemma {:induction false} EncodeInjective(s: string, t: string)
    requires Encode(s) == Encode(t)
    ensures s == t
  {
    if s != "" && t != "" {
      HeadOfEncoding(s[0], Encode(s[1..]));
      HeadOfEncoding(t[0], Encode(t[1..]));
      assert s[0] == t[0];
      var n := |EncodeChar(s[0])|;
      assert Encode(s[1..]) == Encode(s)[n..];
      assert Encode(t[1..]) == Encode(t)[n..];
      EncodeInjective(s[1..], t[1..]);
      assert s == [s[0]] + s[1..] && t == [t[0]] + t[1..];
    }
  }
}
