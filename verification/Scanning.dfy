/** The pieces of the regular expressions in `gh.py`: white space, a key in any
    case, decimal digits. */
module Scanning {
  import opened Wrappers

  const NL: char := '\n'

  /** The classes of the regular expression engine: `\s`, `\d` with its value, and
      folding of case. */
  datatype Classes = Classes(space: char -> bool, digit: char -> Option<nat>, fold: char -> char)

  predicate AsciiSpace(c: char) {
    c == ' ' || '\t' <= c <= '\r'
  }

  function AsciiDigit(c: char): Option<nat> {
    if '0' <= c <= '9' then Some(c as int - '0' as int) else None
  }

  function AsciiFold(c: char): char {
    if 'A' <= c <= 'Z' then (c as int + 32) as char else c
  }

  const ASCII := Classes(AsciiSpace, AsciiDigit, AsciiFold)

  /** Whatever version of Unicode the tables are from: ASCII is as it is, nothing is
      both white space and a digit, and neither has case. */
  ghost predicate Proper(u: Classes) {
    && (forall c :: c as int < 128 ==> u.space(c) == AsciiSpace(c) || 28 <= c as int <= 31)
    && (forall c :: c as int < 128 ==> u.digit(c) == AsciiDigit(c) && u.fold(c) == AsciiFold(c))
    && (forall c :: u.space(c) ==> u.digit(c) == None && u.fold(c) == c)
    && (forall c :: u.digit(c).Some? ==> u.digit(c).value < 10 && u.fold(c) == c)
  }

  type Unicode = u: Classes | Proper(u) witness ASCII

  predicate IsSpace(u: Unicode, c: char) {
    u.space(c)
  }

  predicate IsDigit(u: Unicode, c: char) {
    u.digit(c).Some?
  }

  function Fold(u: Unicode, c: char): char {
    u.fold(c)
  }

  predicate Blank(u: Unicode, s: string) {
    forall k :: 0 <= k < |s| ==> IsSpace(u, s[k])
  }

  predicate EndsLine(s: string) {
    s != [] && s[|s| - 1] == NL
  }

  /** After `\s*`. */
  function Skip(u: Unicode, s: string): (r: string)
    ensures |r| <= |s| && (r == [] || !IsSpace(u, r[0]))
  {
    if s != [] && IsSpace(u, s[0]) then Skip(u, s[1..]) else s
  }

  predicate StartsWith(u: Unicode, s: string, key: string) {
    |key| <= |s| && forall k :: 0 <= k < |key| ==> Fold(u, s[k]) == key[k]
  }

  /** The length of `\d+`, taken greedily. */
  function Digits(u: Unicode, s: string): (n: nat)
    ensures n <= |s|
  {
    if s == [] || !IsDigit(u, s[0]) then 0 else 1 + Digits(u, s[1..])
  }

  function DigitOf(u: Unicode, c: char): nat {
    match u.digit(c) case Some(n) => n case None => 0
  }

  function Value(u: Unicode, ds: string): nat {
    if ds == [] then 0 else Value(u, ds[..|ds| - 1]) * 10 + DigitOf(u, ds[|ds| - 1])
  }

  function Numeral(d: nat): char
    requires d < 10
  {
    '0' + d as char
  }

  function Decimal(n: nat): (r: string)
    ensures r != []
  {
    if n < 10 then [Numeral(n)] else Decimal(n / 10) + [Numeral(n % 10)]
  }

  // ---- White space ------------------------------------------------------------

  lemma {:induction false} SkipSuffix(u: Unicode, s: string)
    ensures Skip(u, s) == s[|s| - |Skip(u, s)|..] && Blank(u, s[..|s| - |Skip(u, s)|])
  {
    if s != [] && IsSpace(u, s[0]) {
      SkipSuffix(u, s[1..]);
      var n := |s[1..]| - |Skip(u, s)|;
      assert s[..n + 1] == [s[0]] + s[1..][..n];
    }
  }

  lemma {:induction false} SkipConcat(u: Unicode, x: string, a: string)
    ensures Skip(u, x + a) == if Skip(u, x) == [] then Skip(u, a) else Skip(u, x) + a
  {
    if x == [] {
      assert x + a == a;
    } else if IsSpace(u, x[0]) {
      assert (x + a)[1..] == x[1..] + a;
      SkipConcat(u, x[1..], a);
    }
  }

  lemma {:induction false} SkipBlank(u: Unicode, s: string)
    requires Blank(u, s)
    ensures Skip(u, s) == []
  {
    if s != [] { SkipBlank(u, s[1..]); }
  }

  lemma SkipEndsLine(u: Unicode, s: string)
    requires EndsLine(s) && Skip(u, s) != []
    ensures EndsLine(Skip(u, s))
  {
  }

  // ---- Digits -------------------------------------------------------------------

  lemma {:induction false} DigitsAre(u: Unicode, s: string)
    ensures forall k :: 0 <= k < Digits(u, s) ==> IsDigit(u, s[k])
    ensures Digits(u, s) < |s| ==> !IsDigit(u, s[Digits(u, s)])
  {
    if s != [] && IsDigit(u, s[0]) {
      DigitsAre(u, s[1..]);
      assert forall k :: 1 <= k < Digits(u, s) ==> s[k] == s[1..][k - 1];
    }
  }

  /** A run of digits ends where anything else begins. */
  lemma {:induction false} DigitsStop(u: Unicode, d: string, rest: string)
    requires AllDigits(u, d) && (rest == [] || !IsDigit(u, rest[0]))
    ensures Digits(u, d + rest) == |d|
  {
    if d == [] {
      assert d + rest == rest;
    } else {
      assert (d + rest)[1..] == d[1..] + rest;
      DigitsStop(u, d[1..], rest);
    }
  }

  /** Nothing appended behind a non-digit lengthens a run. */
  lemma {:induction false} DigitsConcat(u: Unicode, s: string, a: string)
    requires Digits(u, s) < |s| || a == [] || !IsDigit(u, a[0])
    ensures Digits(u, s + a) == Digits(u, s)
  {
    if s == [] {
      assert s + a == a;
    } else if IsDigit(u, s[0]) {
      assert (s + a)[1..] == s[1..] + a;
      DigitsConcat(u, s[1..], a);
    }
  }

  lemma NumeralIsDigit(u: Unicode, d: nat)
    requires d < 10
    ensures IsDigit(u, Numeral(d)) && DigitOf(u, Numeral(d)) == d
  {
    assert Numeral(d) as int < 128 && AsciiDigit(Numeral(d)) == Some(d);
  }

  lemma ValueLast(u: Unicode, ds: string, c: char)
    ensures Value(u, ds + [c]) == Value(u, ds) * 10 + DigitOf(u, c)
  {
    assert (ds + [c])[..|ds|] == ds;
  }

  predicate AllDigits(u: Unicode, s: string) {
    forall k :: 0 <= k < |s| ==> IsDigit(u, s[k])
  }

  lemma {:induction false} DecimalRoundTrip(u: Unicode, n: nat)
    ensures AllDigits(u, Decimal(n)) && Value(u, Decimal(n)) == n
  {
    NumeralIsDigit(u, n % 10);
    if n < 10 {
      ValueLast(u, [], Numeral(n));
      assert [] + [Numeral(n)] == Decimal(n);
    } else {
      DecimalRoundTrip(u, n / 10);
      ValueLast(u, Decimal(n / 10), Numeral(n % 10));
    }
  }

  // ---- Keys -----------------------------------------------------------------------

  predicate Plain(u: Unicode, c: char) {
    !IsSpace(u, c) && !IsDigit(u, c)
  }

  /** A key is lower-case, without white space or digits. */
  predicate Key(u: Unicode, key: string) {
    key != [] && forall k :: 0 <= k < |key| ==> Plain(u, key[k])
  }

  /** A key lies within one line. */
  lemma StartsWithinLine(u: Unicode, z: string, a: string, key: string)
    requires Key(u, key) && EndsLine(z)
    ensures StartsWith(u, z + a, key) <==> StartsWith(u, z, key)
    ensures StartsWith(u, z, key) ==> EndsLine(z[|key|..]) && (z + a)[|key|..] == z[|key|..] + a
  {
  }

  /** A key takes in no white space. */
  lemma StartsBeforeBlank(u: Unicode, z: string, w: string, key: string)
    requires Key(u, key) && Blank(u, w)
    ensures StartsWith(u, z + w, key) <==> StartsWith(u, z, key)
    ensures StartsWith(u, z, key) ==> (z + w)[|key|..] == z[|key|..] + w
  {
    if |z| < |key| && w != [] {
      assert Plain(u, key[|z|]) && (z + w)[|z|] == w[0] && Fold(u, w[0]) == w[0];
    } else {
      assert forall k :: 0 <= k < |key| && k < |z| ==> (z + w)[k] == z[k];
    }
  }

  lemma KeyHasNoBreak(u: Unicode, s: string, key: string)
    requires Key(u, key) && StartsWith(u, s, key)
    ensures NL !in s[..|key|]
  {
  }
}
