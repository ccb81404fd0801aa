/** UTF-8: the encoding table of section 3 of RFC 3629, and the decoder whose
    byte ranges are those of its section 4. */
module Utf8 {
  import opened Wrappers
  import opened Bytes
  import Sequences

  datatype Rune = Rune(c: char, width: nat)

  function Trail(n: nat): byte
  {
    128 + (n % 64) as byte
  }

  function Encode(c: char): (r: bytes)
    ensures 1 <= |r| <= 4
  {
    var n := c as int;
    if n < 0x80 then [n as byte]
    else if n < 0x800 then [0xC0 + (n / 64) as byte, Trail(n)]
    else if n < 0x1_0000 then [0xE0 + (n / 4096) as byte, Trail(n / 64), Trail(n)]
    else [0xF0 + (n / 262144) as byte, Trail(n / 4096), Trail(n / 64), Trail(n)]
  }

  predicate Continues(b: byte) {
    0x80 <= b <= 0xBF
  }

  /** The second byte's range excludes overlong forms, surrogates and values
      past U+10FFFF. */
  predicate SecondFits(lead: byte, second: byte) {
    if lead == 0xE0 then 0xA0 <= second <= 0xBF
    else if lead == 0xED then 0x80 <= second <= 0x9F
    else if lead == 0xF0 then 0x90 <= second <= 0xBF
    else if lead == 0xF4 then 0x80 <= second <= 0x8F
    else Continues(second)
  }

  function Bits(lead: byte, mark: byte): int {
    lead as int - mark as int
  }

  function Decode2(s: bytes): Option<Rune>
    requires s != [] && 0xC2 <= s[0] <= 0xDF
  {
    if |s| < 2 || !Continues(s[1]) then None
    else Some(Rune((Bits(s[0], 0xC0) * 64 + Bits(s[1], 0x80)) as char, 2))
  }

  function Decode3(s: bytes): Option<Rune>
    requires s != [] && 0xE0 <= s[0] <= 0xEF
  {
    if |s| < 3 || !SecondFits(s[0], s[1]) || !Continues(s[2]) then None
    else Some(Rune((Bits(s[0], 0xE0) * 4096 + Bits(s[1], 0x80) * 64 + Bits(s[2], 0x80)) as char, 3))
  }

  function Decode4(s: bytes): Option<Rune>
    requires s != [] && 0xF0 <= s[0] <= 0xF4
  {
    if |s| < 4 || !SecondFits(s[0], s[1]) || !Continues(s[2]) || !Continues(s[3]) then None
    else Some(Rune((Bits(s[0], 0xF0) * 262144 + Bits(s[1], 0x80) * 4096 + Bits(s[2], 0x80) * 64 + Bits(s[3], 0x80)) as char, 4))
  }

  /** The rune at the front of `s`, if a well-formed sequence is there. */
  function Decode(s: bytes): (r: Option<Rune>)
    ensures r.Some? ==> 1 <= r.value.width <= |s|
  {
    if s == [] then None
    else if s[0] < 0x80 then Some(Rune(s[0] as char, 1))
    else if 0xC2 <= s[0] <= 0xDF then Decode2(s)
    else if 0xE0 <= s[0] <= 0xEF then Decode3(s)
    else if 0xF0 <= s[0] <= 0xF4 then Decode4(s)
    else None
  }

  lemma Encoded2(s: bytes, n: nat)
    requires 0x80 <= n < 0x800 && |s| >= 2 && s[0] == 0xC0 + (n / 64) as byte && s[1] == Trail(n)
    ensures Decode(s) == Some(Rune(n as char, 2))
  {
  }

  lemma Encoded3(s: bytes, n: nat)
    requires 0x800 <= n < 0xD800 || 0xE000 <= n < 0x1_0000
    requires |s| >= 3 && s[0] == 0xE0 + (n / 4096) as byte && s[1] == Trail(n / 64) && s[2] == Trail(n)
    ensures Decode(s) == Some(Rune(n as char, 3))
  {
    assert n == n / 4096 * 4096 + n / 64 % 64 * 64 + n % 64;
  }

  lemma Encoded4(s: bytes, n: nat)
    requires 0x1_0000 <= n < 0x11_0000
    requires |s| >= 4 && s[0] == 0xF0 + (n / 262144) as byte
    requires s[1] == Trail(n / 4096) && s[2] == Trail(n / 64) && s[3] == Trail(n)
    ensures Decode(s) == Some(Rune(n as char, 4))
  {
    assert n == n / 262144 * 262144 + n / 4096 % 64 * 4096 + n / 64 % 64 * 64 + n % 64;
  }

  lemma DecodeFindsEncoding(c: char, rest: bytes)
    ensures Decode(Encode(c) + rest) == Some(Rune(c, |Encode(c)|))
  {
    var n := c as int;
    var s := Encode(c) + rest;
    if 0x80 <= n < 0x800 {
      Encoded2(s, n);
    } else if 0x800 <= n < 0x1_0000 {
      Encoded3(s, n);
    } else if 0x1_0000 <= n {
      Encoded4(s, n);
    }
  }

  lemma Trails(a: nat, b: nat, c: nat)
    requires b < 64 && c < 64
    ensures (a * 64 + b) / 64 == a && (a * 64 + b) % 64 == b
    ensures (a * 4096 + b * 64 + c) / 4096 == a && (a * 4096 + b * 64 + c) / 64 == a * 64 + b
    ensures (a * 4096 + b * 64 + c) % 64 == c
  {
  }

  lemma Decoded2(s: bytes)
    requires s != [] && 0xC2 <= s[0] <= 0xDF
    ensures Decode2(s).Some? ==> Encode(Decode2(s).value.c) == s[..2]
  {
  }

  lemma Decoded3(s: bytes)
    requires s != [] && 0xE0 <= s[0] <= 0xEF
    ensures Decode3(s).Some? ==> Encode(Decode3(s).value.c) == s[..3]
  {
    if Decode3(s).Some? {
      Trails(Bits(s[0], 0xE0), Bits(s[1], 0x80), Bits(s[2], 0x80));
    }
  }

  lemma Decoded4(s: bytes)
    requires s != [] && 0xF0 <= s[0] <= 0xF4
    ensures Decode4(s).Some? ==> Encode(Decode4(s).value.c) == s[..4]
  {
    if Decode4(s).Some? {
      var a, b, c, d := Bits(s[0], 0xF0), Bits(s[1], 0x80), Bits(s[2], 0x80), Bits(s[3], 0x80);
      var n := Decode4(s).value.c as int;
      assert n == (a * 64 + b) * 4096 + c * 64 + d;
      Trails(a * 64 + b, c, d);
      assert n / 262144 == a;
    }
  }

  lemma DecodedIsEncoding(s: bytes)
    ensures Decode(s).Some? ==> s[..Decode(s).value.width] == Encode(Decode(s).value.c)
  {
    if s != [] {
      if 0xC2 <= s[0] <= 0xDF { Decoded2(s); }
      if 0xE0 <= s[0] <= 0xEF { Decoded3(s); }
      if 0xF0 <= s[0] <= 0xF4 { Decoded4(s); }
    }
  }

  /** The decoder accepts exactly what the encoder produces, whatever follows. */
  lemma DecodeInvertsEncode(s: bytes, c: char)
    ensures (Decode(s).Some? && Decode(s).value.c == c) <==> Encode(c) <= s
    ensures Encode(c) <= s ==> Decode(s).value.width == |Encode(c)|
  {
    DecodedIsEncoding(s);
    if Encode(c) <= s {
      DecodeFindsEncoding(c, s[|Encode(c)|..]);
      assert s == Encode(c) + s[|Encode(c)|..];
    }
  }

  /** How far `std::str::from_utf8` gets, and the characters it then yields. */
  function ValidUpTo(s: bytes): (n: nat)
    ensures n <= |s|
    decreases |s|
  {
    match Decode(s)
    case None => 0
    case Some(r) => r.width + ValidUpTo(s[r.width..])
  }

  function Chars(s: bytes): string
    decreases |s|
  {
    match Decode(s)
    case None => []
    case Some(r) => [r.c] + Chars(s[r.width..])
  }

  function EncodeAll(t: string): bytes {
    if t == [] then [] else Encode(t[0]) + EncodeAll(t[1..])
  }

  lemma EncodeFirst(c: char, t: string)
    ensures EncodeAll([c] + t) == Encode(c) + EncodeAll(t)
  {
  }

  /** The valid prefix is the encoding of its characters, and it is maximal: no
      well-formed sequence starts where it ends. */
  lemma {:induction false} ValidPrefix(s: bytes)
    ensures EncodeAll(Chars(s)) == s[..ValidUpTo(s)]
    ensures Decode(s[ValidUpTo(s)..]) == None
    decreases |s|
  {
    match Decode(s) {
      case None =>
        assert s[0..] == s;
      case Some(r) =>
        var rest := s[r.width..];
        ValidPrefix(rest);
        DecodedIsEncoding(s);
        EncodeFirst(r.c, Chars(rest));
        Sequences.Rejoin(s, r.width, ValidUpTo(rest));
    }
  }
}
