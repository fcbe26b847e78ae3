/** Strict UTF-8, as Python's bytes.decode("utf-8") applies it to WebAssembly names. */
module Utf8 {
  import opened Options

  type byte = b: int | 0 <= b < 256

  function EncodeChar(c: char): (bs: seq<byte>)
    ensures 1 <= |bs| <= 4
  {
    var n := c as int;
    if n < 0x80 then [n]
    else if n < 0x800 then [0xC0 + n / 64, 0x80 + n % 64]
    else if n < 0x10000 then [0xE0 + n / 4096, 0x80 + n / 64 % 64, 0x80 + n % 64]
    else [0xF0 + n / 262144, 0x80 + n / 4096 % 64, 0x80 + n / 64 % 64, 0x80 + n % 64]
  }

  function Encode(s: string): seq<byte> {
    if s == "" then [] else EncodeChar(s[0]) + Encode(s[1..])
  }

  predicate Continuation(b: byte) {
    0x80 <= b < 0xC0
  }

  /** The payload of a byte above the marker bits `marker`. */
  function Bits(b: byte, marker: int): int {
    b - marker
  }

  /** The first character of `bs` and the number of bytes it takes; overlong forms,
      surrogates and values past U+10FFFF are rejected. */
  function DecodeChar(bs: seq<byte>): (r: Option<(char, nat)>)
    requires bs != []
    ensures r.Some? ==> 1 <= r.value.1 <= |bs|
  {
    var b := bs[0];
    if b < 0x80 then Some((b as char, 1))
    else if 0xC2 <= b < 0xE0 && |bs| >= 2 && Continuation(bs[1]) then
      Some(((Bits(b, 0xC0) * 64 + Bits(bs[1], 0x80)) as char, 2))
    else if 0xE0 <= b < 0xF0 && |bs| >= 3 && Continuation(bs[1]) && Continuation(bs[2]) then
      var n := Bits(b, 0xE0) * 4096 + Bits(bs[1], 0x80) * 64 + Bits(bs[2], 0x80);
      if 0x800 <= n < 0xD800 || 0xE000 <= n then Some((n as char, 3)) else None
    else if 0xF0 <= b < 0xF5 && |bs| >= 4 && Continuation(bs[1]) && Continuation(bs[2]) && Continuation(bs[3]) then
      var n := Bits(b, 0xF0) * 262144 + Bits(bs[1], 0x80) * 4096 + Bits(bs[2], 0x80) * 64 + Bits(bs[3], 0x80);
      if 0x10000 <= n < 0x110000 then Some((n as char, 4)) else None
    else None
  }

  function Decode(bs: seq<byte>): Option<string> {
    if bs == [] then Some("")
    else
      match DecodeChar(bs)
      case None => None
      case Some((c, n)) =>
        match Decode(bs[n..])
        case None => None
        case Some(rest) => Some([c] + rest)
  }

  /** The six-bit groups of a character code put it together again. */
  lemma GroupsOf(n: nat)
    ensures n == n / 64 * 64 + n % 64
    ensures n == n / 4096 * 4096 + n / 64 % 64 * 64 + n % 64
    ensures n == n / 262144 * 262144 + n / 4096 % 64 * 4096 + n / 64 % 64 * 64 + n % 64
  {
    assert n / 4096 == n / 64 / 64;
    assert n / 262144 == n / 4096 / 64;
  }

  lemma DecodeCharOfEncodeChar(c: char, rest: seq<byte>)
    ensures DecodeChar(EncodeChar(c) + rest) == Some((c, |EncodeChar(c)|))
  {
    var n := c as int;
    GroupsOf(n);
    var bs := EncodeChar(c) + rest;
    if n < 0x80 {
      assert bs[0] == n;
    } else if n < 0x800 {
      assert bs[0] == 0xC0 + n / 64 && bs[1] == 0x80 + n % 64;
    } else if n < 0x10000 {
      assert bs[0] == 0xE0 + n / 4096 && bs[1] == 0x80 + n / 64 % 64 && bs[2] == 0x80 + n % 64;
    } else {
      assert bs[0] == 0xF0 + n / 262144 && bs[1] == 0x80 + n / 4096 % 64;
      assert bs[2] == 0x80 + n / 64 % 64 && bs[3] == 0x80 + n % 64;
    }
  }

  /** Appending one six-bit group and taking it off again. */
  lemma SixBits(high: int, low: int)
    requires 0 <= high && 0 <= low < 64
    ensures (high * 64 + low) / 64 == high && (high * 64 + low) % 64 == low
  {
  }

  lemma EncodeCharOfDecodeChar(bs: seq<byte>)
    requires bs != [] && DecodeChar(bs).Some?
    ensures EncodeChar(DecodeChar(bs).value.0) == bs[..DecodeChar(bs).value.1]
  {
    var (c, k) := DecodeChar(bs).value;
    if k == 2 {
      SixBits(Bits(bs[0], 0xC0), Bits(bs[1], 0x80));
    } else if k == 3 {
      ThreeGroups(bs[0], bs[1], bs[2]);
    } else if k == 4 {
      FourGroups(bs[0], bs[1], bs[2], bs[3]);
    }
  }

  lemma ThreeGroups(b0: byte, b1: byte, b2: byte)
    requires 0xE0 <= b0 < 0xF0 && Continuation(b1) && Continuation(b2)
    ensures var n := Bits(b0, 0xE0) * 4096 + Bits(b1, 0x80) * 64 + Bits(b2, 0x80);
            n / 4096 == Bits(b0, 0xE0) && n / 64 % 64 == Bits(b1, 0x80) && n % 64 == Bits(b2, 0x80)
  {
    var high := Bits(b0, 0xE0) * 64 + Bits(b1, 0x80);
    SixBits(Bits(b0, 0xE0), Bits(b1, 0x80));
    SixBits(high, Bits(b2, 0x80));
  }

  lemma FourGroups(b0: byte, b1: byte, b2: byte, b3: byte)
    requires 0xF0 <= b0 < 0xF8 && Continuation(b1) && Continuation(b2) && Continuation(b3)
    ensures var n := Bits(b0, 0xF0) * 262144 + Bits(b1, 0x80) * 4096 + Bits(b2, 0x80) * 64 + Bits(b3, 0x80);
            n / 262144 == Bits(b0, 0xF0) && n / 4096 % 64 == Bits(b1, 0x80)
            && n / 64 % 64 == Bits(b2, 0x80) && n % 64 == Bits(b3, 0x80)
  {
    var h1 := Bits(b0, 0xF0) * 64 + Bits(b1, 0x80);
    var h2 := h1 * 64 + Bits(b2, 0x80);
    SixBits(Bits(b0, 0xF0), Bits(b1, 0x80));
    SixBits(h1, Bits(b2, 0x80));
    SixBits(h2, Bits(b3, 0x80));
  }

  lemma {:induction false} DecodeEncode(s: string)
    ensures Decode(Encode(s)) == Some(s)
  {
    hide EncodeChar, DecodeChar;
    if s != "" {
      var first := EncodeChar(s[0]);
      var bs := Encode(s);
      DecodeCharOfEncodeChar(s[0], Encode(s[1..]));
      assert bs[|first|..] == Encode(s[1..]);
      DecodeEncode(s[1..]);
      assert [s[0]] + s[1..] == s;
    }
  }

  lemma {:induction false} EncodeDecode(bs: seq<byte>)
    requires Decode(bs).Some?
    ensures Encode(Decode(bs).value) == bs
  {
    hide EncodeChar, DecodeChar;
    if bs != [] {
      var (c, n) := DecodeChar(bs).value;
      EncodeCharOfDecodeChar(bs);
      EncodeDecode(bs[n..]);
      var s := Decode(bs).value;
      assert s[0] == c && s[1..] == Decode(bs[n..]).value;
      assert bs == bs[..n] + bs[n..];
    }
  }

  /** Decoding succeeds with `s` on exactly one byte string: the encoding of `s`. */
  lemma DecodeIff(bs: seq<byte>, s: string)
    ensures Decode(bs) == Some(s) <==> bs == Encode(s)
  {
    DecodeEncode(s);
    if Decode(bs).Some? {
      EncodeDecode(bs);
    }
  }
}
