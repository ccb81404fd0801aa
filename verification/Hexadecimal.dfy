/** Hexadecimal escapes, shared by both renderers. */
module Hexadecimal {
  import opened Wrappers

  const DIGITS: string := "0123456789abcdef"

  function Power16(w: nat): nat {
    if w == 0 then 1 else 16 * Power16(w - 1)
  }

  /** Lower-case, zero padded to `w` digits. */
  function Hex(n: nat, w: nat): (r: string)
    ensures |r| == w
    decreases w
  {
    if w == 0 then [] else Hex(n / 16, w - 1) + [DIGITS[n % 16]]
  }

  function DigitValue(c: char): Option<nat> {
    if '0' <= c <= '9' then Some(c as int - '0' as int)
    else if 'a' <= c <= 'f' then Some(c as int - 'a' as int + 10)
    else None
  }

  function HexValue(t: string): Option<nat> {
    if t == [] then Some(0) else
    match (HexValue(t[..|t| - 1]), DigitValue(t[|t| - 1]))
    case (Some(high), Some(low)) => Some(high * 16 + low)
    case _ => None
  }

  lemma DigitRoundTrip(d: nat)
    requires d < 16
    ensures DigitValue(DIGITS[d]) == Some(d)
  {
  }

  lemma HexValueLast(t: string, c: char)
    requires HexValue(t).Some? && DigitValue(c).Some?
    ensures HexValue(t + [c]) == Some(HexValue(t).value * 16 + DigitValue(c).value)
  {
  }

  lemma {:induction false} HexRoundTrip(n: nat, w: nat)
    requires n < Power16(w)
    ensures HexValue(Hex(n, w)) == Some(n)
  {
    if w > 0 {
      HexRoundTrip(n / 16, w - 1);
      DigitRoundTrip(n % 16);
      HexValueLast(Hex(n / 16, w - 1), DIGITS[n % 16]);
    }
  }

  lemma Powers()
    ensures Power16(2) == 0x100 && Power16(4) == 0x1_0000 && Power16(8) == 0x1_0000_0000
  {
  }
}
