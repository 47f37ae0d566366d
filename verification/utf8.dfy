/**
 * Well-formed UTF-8 as section 4 of RFC 3629 defines it, which is what
 * Python's strict `bytes.decode("utf-8")` accepts: no overlong forms, no
 * surrogate code points, nothing above U+10FFFF.
 */
module Utf8 {

  /** A byte of a file's contents. */
  newtype Byte = b: int | 0 <= b < 256

  predicate IsTail(b: Byte) {
    0x80 <= b <= 0xBF
  }

  /**
   * Length of the well-formed character `s` starts with (one of the
   * UTF8-1 .. UTF8-4 rules of RFC 3629), or 0 when `s` does not start with one.
   */
  function FirstCharLength(s: seq<Byte>): (n: nat)
    ensures n <= 4 && n <= |s|
  {
    if s == [] then 0
    else if s[0] < 0x80 then 1
    else if 0xC2 <= s[0] <= 0xDF then
      if |s| >= 2 && IsTail(s[1]) then 2 else 0
    else if s[0] == 0xE0 then
      if |s| >= 3 && 0xA0 <= s[1] <= 0xBF && IsTail(s[2]) then 3 else 0
    else if 0xE1 <= s[0] <= 0xEC || 0xEE <= s[0] <= 0xEF then
      if |s| >= 3 && IsTail(s[1]) && IsTail(s[2]) then 3 else 0
    else if s[0] == 0xED then
      if |s| >= 3 && 0x80 <= s[1] <= 0x9F && IsTail(s[2]) then 3 else 0
    else if s[0] == 0xF0 then
      if |s| >= 4 && 0x90 <= s[1] <= 0xBF && IsTail(s[2]) && IsTail(s[3]) then 4 else 0
    else if 0xF1 <= s[0] <= 0xF3 then
      if |s| >= 4 && IsTail(s[1]) && IsTail(s[2]) && IsTail(s[3]) then 4 else 0
    else if s[0] == 0xF4 then
      if |s| >= 4 && 0x80 <= s[1] <= 0x8F && IsTail(s[2]) && IsTail(s[3]) then 4 else 0
    else 0
  }

  /** `s` is a sequence of well-formed characters. */
  predicate ValidUtf8(s: seq<Byte>)
    decreases |s|
  {
    s == [] || (FirstCharLength(s) > 0 && ValidUtf8(s[FirstCharLength(s)..]))
  }

  /** The first character only looks at its own bytes. */
  lemma FirstCharOfConcat(a: seq<Byte>, b: seq<Byte>)
    requires FirstCharLength(a) > 0
    ensures FirstCharLength(a + b) == FirstCharLength(a)
  {
    var n := FirstCharLength(a);
    assert forall k :: 0 <= k < n ==> (a + b)[k] == a[k];
  }

  /** Joining two well-formed texts gives a well-formed text. */
  lemma {:induction false} ConcatValid(a: seq<Byte>, b: seq<Byte>)
    requires ValidUtf8(a) && ValidUtf8(b)
    ensures ValidUtf8(a + b)
    decreases |a|
  {
    if a == [] {
      assert a + b == b;
    } else {
      var n := FirstCharLength(a);
      FirstCharOfConcat(a, b);
      assert (a + b)[n..] == a[n..] + b;
      ConcatValid(a[n..], b);
    }
  }

  /** A Unicode scalar value: a code point that is not a surrogate. */
  predicate IsScalar(c: int) {
    0 <= c <= 0x10FFFF && !(0xD800 <= c <= 0xDFFF)
  }

  /** The character `s` starts with, read as its code point. */
  function FirstChar(s: seq<Byte>): (c: int)
    requires FirstCharLength(s) > 0
    ensures IsScalar(c)
    ensures FirstCharLength(s) == 1 <==> c < 0x80
    ensures FirstCharLength(s) == 2 <==> 0x80 <= c < 0x800
    ensures FirstCharLength(s) == 3 <==> 0x800 <= c < 0x10000
    ensures FirstCharLength(s) == 4 <==> 0x10000 <= c
  {
    var n := FirstCharLength(s);
    if n == 1 then s[0] as int
    else if n == 2 then (s[0] as int - 0xC0) * 64 + (s[1] as int - 0x80)
    else if n == 3 then
      (s[0] as int - 0xE0) * 4096 + (s[1] as int - 0x80) * 64 + (s[2] as int - 0x80)
    else
      (s[0] as int - 0xF0) * 262144 + (s[1] as int - 0x80) * 4096
        + (s[2] as int - 0x80) * 64 + (s[3] as int - 0x80)
  }

  /** `bytes.decode("utf-8")` on well-formed input: the code points in order. */
  function Decode(s: seq<Byte>): (cs: seq<int>)
    requires ValidUtf8(s)
    ensures forall i :: 0 <= i < |cs| ==> IsScalar(cs[i])
    decreases |s|
  {
    if s == [] then [] else [FirstChar(s)] + Decode(s[FirstCharLength(s)..])
  }

  /** The UTF-8 encoding of one scalar value. */
  function EncodeChar(c: int): (bs: seq<Byte>)
    requires IsScalar(c)
    ensures 1 <= |bs| <= 4
  {
    if c < 0x80 then [c as Byte]
    else if c < 0x800 then [(0xC0 + c / 64) as Byte, (0x80 + c % 64) as Byte]
    else if c < 0x10000 then
      [(0xE0 + c / 4096) as Byte, (0x80 + (c / 64) % 64) as Byte, (0x80 + c % 64) as Byte]
    else
      [(0xF0 + c / 262144) as Byte, (0x80 + (c / 4096) % 64) as Byte,
       (0x80 + (c / 64) % 64) as Byte, (0x80 + c % 64) as Byte]
  }

  /** `str.encode("utf-8")`. */
  function Encode(cs: seq<int>): (bs: seq<Byte>)
    requires forall i :: 0 <= i < |cs| ==> IsScalar(cs[i])
  {
    if cs == [] then [] else EncodeChar(cs[0]) + Encode(cs[1..])
  }

  lemma Split64(q: int, r: int)
    requires 0 <= r < 64
    ensures (q * 64 + r) / 64 == q && (q * 64 + r) % 64 == r
  {
  }

  lemma Split4096(q: int, r: int)
    requires 0 <= r < 4096
    ensures (q * 4096 + r) / 4096 == q
  {
  }

  lemma Split262144(q: int, r: int)
    requires 0 <= r < 262144
    ensures (q * 262144 + r) / 262144 == q
  {
  }

  lemma EncodeTwo(b0: Byte, b1: Byte, c: int)
    requires 0xC2 <= b0 <= 0xDF && IsTail(b1)
    requires c == (b0 as int - 0xC0) * 64 + (b1 as int - 0x80)
    requires IsScalar(c) && 0x80 <= c < 0x800
    ensures EncodeChar(c) == [b0, b1]
  {
    Split64(b0 as int - 0xC0, b1 as int - 0x80);
  }

  lemma EncodeThree(b0: Byte, b1: Byte, b2: Byte, c: int)
    requires 0xE0 <= b0 <= 0xEF && IsTail(b1) && IsTail(b2)
    requires c == (b0 as int - 0xE0) * 4096 + (b1 as int - 0x80) * 64 + (b2 as int - 0x80)
    requires IsScalar(c) && 0x800 <= c < 0x10000
    ensures EncodeChar(c) == [b0, b1, b2]
  {
    var x, y, z := b0 as int - 0xE0, b1 as int - 0x80, b2 as int - 0x80;
    Split64(x * 64 + y, z);
    Split64(x, y);
    Split4096(x, y * 64 + z);
  }

  lemma EncodeFour(b0: Byte, b1: Byte, b2: Byte, b3: Byte, c: int)
    requires 0xF0 <= b0 <= 0xF4 && IsTail(b1) && IsTail(b2) && IsTail(b3)
    requires c == (b0 as int - 0xF0) * 262144 + (b1 as int - 0x80) * 4096
                  + (b2 as int - 0x80) * 64 + (b3 as int - 0x80)
    requires IsScalar(c) && 0x10000 <= c
    ensures EncodeChar(c) == [b0, b1, b2, b3]
  {
    var w, x, y, z := b0 as int - 0xF0, b1 as int - 0x80, b2 as int - 0x80, b3 as int - 0x80;
    Split64((w * 64 + x) * 64 + y, z);
    Split64(w * 64 + x, y);
    Split64(w, x);
    Split4096(w * 64 + x, y * 64 + z);
    Split262144(w, (x * 64 + y) * 64 + z);
  }

  /** Encoding the first character gives back its bytes. */
  lemma EncodeFirstChar(s: seq<Byte>)
    requires FirstCharLength(s) > 0
    ensures EncodeChar(FirstChar(s)) == s[..FirstCharLength(s)]
  {
    var n := FirstCharLength(s);
    if n == 2 {
      EncodeTwo(s[0], s[1], FirstChar(s));
    } else if n == 3 {
      EncodeThree(s[0], s[1], s[2], FirstChar(s));
    } else if n == 4 {
      EncodeFour(s[0], s[1], s[2], s[3], FirstChar(s));
    }
  }

  lemma DecodeCons(s: seq<Byte>)
    requires ValidUtf8(s) && s != []
    ensures Decode(s) == [FirstChar(s)] + Decode(s[FirstCharLength(s)..])
  {
  }

  lemma EncodeCons(c: int, rest: seq<int>)
    requires IsScalar(c) && forall i :: 0 <= i < |rest| ==> IsScalar(rest[i])
    ensures Encode([c] + rest) == EncodeChar(c) + Encode(rest)
  {
    assert ([c] + rest)[1..] == rest;
  }

  /**
   * Decoding well-formed bytes and encoding the text again gives back the
   * same bytes, so re-encoding a decoded script changes nothing but the
   * prefix written in front of it.
   */
  lemma {:induction false} DecodeEncode(s: seq<Byte>)
    requires ValidUtf8(s)
    ensures Encode(Decode(s)) == s
    decreases |s|
  {
    if s != [] {
      var n := FirstCharLength(s);
      var tail := s[n..];
      DecodeEncode(tail);
      EncodeFirstChar(s);
      DecodeCons(s);
      EncodeCons(FirstChar(s), Decode(tail));
      assert s[..n] + tail == s;
    }
  }
}
