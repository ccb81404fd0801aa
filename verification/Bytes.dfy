/** Byte strings and the few operations on them that the other modules share. */
module Bytes {

  newtype byte = x: int | 0 <= x < 256

  type bytes = seq<byte>

  const NUL: byte := 0
  const NEWLINE: byte := 10
  const QUOTE: byte := 34
  const HYPHEN: byte := 45
  const DOT: byte := 46
  const SLASH: byte := 47
  const COLON: byte := 58
  const OPEN: byte := 91
  const BACKSLASH: byte := 92
  const CLOSE: byte := 93

  /** `u8::to_ascii_lowercase` and `u8::to_ascii_uppercase`. */
  function Lower(b: byte): byte {
    if 65 <= b <= 90 then b + 32 else b
  }

  function Upper(b: byte): byte {
    if 97 <= b <= 122 then b - 32 else b
  }

  /** The offset of the first `b`, or the length. */
  function Find(s: bytes, b: byte): (n: nat)
    ensures n <= |s|
    ensures b !in s[..n]
    ensures n < |s| ==> s[n] == b
  {
    if s == [] || s[0] == b then 0 else
    var n := 1 + Find(s[1..], b);
    assert s[..n] == [s[0]] + s[1..][..n - 1];
    n
  }

  /** One past the offset of the last `b`, or 0. */
  function FindLast(s: bytes, b: byte): (n: nat)
    ensures n <= |s|
    ensures b !in s[n..]
    ensures n > 0 ==> s[n - 1] == b
    ensures n == 0 <==> b !in s
  {
    if s == [] || s[|s| - 1] == b then |s| else
    var n := FindLast(s[..|s| - 1], b);
    assert s == s[..|s| - 1] + [s[|s| - 1]];
    assert s[n..] == s[..|s| - 1][n..] + [s[|s| - 1]];
    n
  }

  /** A first occurrence is determined by its neighbourhood. */
  lemma {:induction false} FindAt(a: bytes, b: byte, rest: bytes)
    requires b !in a
    ensures Find(a + rest, b) == if rest != [] && rest[0] == b then |a| else |a| + Find(rest, b)
  {
    if a == [] {
      assert a + rest == rest;
    } else {
      assert (a + rest)[1..] == a[1..] + rest;
      FindAt(a[1..], b, rest);
    }
  }

  lemma {:induction false} FindLastAt(a: bytes, b: byte, rest: bytes)
    requires b !in rest
    ensures FindLast(a + [b] + rest, b) == |a| + 1
  {
    var s := a + [b] + rest;
    if rest != [] {
      assert s[..|s| - 1] == a + [b] + rest[..|rest| - 1];
      FindLastAt(a, b, rest[..|rest| - 1]);
      assert s[|s| - 1] == rest[|rest| - 1];
    }
  }
}
