/** The counters an issue's body carries, as `gh.py` reads and stamps them: the
    multi-line, case-insensitive expression `^\s*<key>\s*(\d+)`. */
module IssueBody {
  import opened Wrappers
  import opened Scanning

  function Max(a: nat, b: nat): nat { if a < b then b else a }

  // ---- One match --------------------------------------------------------------

  datatype Hit = Hit(value: nat, rest: string)

  function Number(u: Unicode, s: string): Option<Hit> {
    var d := Digits(u, s);
    if d == 0 then None else Some(Hit(Value(u, s[..d]), s[d..]))
  }

  function Match(u: Unicode, s: string, key: string): Option<Hit> {
    var a := Skip(u, s);
    if StartsWith(u, a, key) then Number(u, Skip(u, a[|key|..])) else None
  }

  function Worth(h: Option<Hit>): nat {
    match h case Some(x) => x.value case None => 0
  }

  /** The value of the match at the front of `s`, or 0. */
  function Finder(u: Unicode, key: string): string -> nat {
    s => Worth(Match(u, s, key))
  }

  // ---- The counter of a body ---------------------------------------------------

  /** The highest value `f` finds at any line start; `bol` is whether `s` is at
      one. */
  function Best(s: string, bol: bool, f: string -> nat): nat {
    if s == [] then 0 else Max(if bol then f(s) else 0, Best(s[1..], s[0] == NL, f))
  }

  function Counter(u: Unicode, body: string, key: string): nat {
    Best(body, true, Finder(u, key))
  }

  /** `re.sub(..., count=1)`; None if nothing matches. */
  function Replaced(u: Unicode, s: string, bol: bool, key: string, line: string): Option<string> {
    if bol && Match(u, s, key).Some? then Some(line + Match(u, s, key).value.rest)
    else if s == [] then None
    else match Replaced(u, s[1..], s[0] == NL, key, line)
      case Some(t) => Some([s[0]] + t)
      case None => None
  }

  function TrimEnd(u: Unicode, s: string): string {
    if s != [] && IsSpace(u, s[|s| - 1]) then TrimEnd(u, s[..|s| - 1]) else s
  }

  function Line(caption: string, n: nat): string {
    caption + ([' '] + Decimal(n))
  }

  function Stamped(u: Unicode, body: string, key: string, caption: string, n: nat): string {
    match Replaced(u, body, true, key, Line(caption, n))
    case Some(t) => t
    case None => TrimEnd(u, body) + [NL, NL] + (Line(caption, n) + [NL])
  }

  // ---- Best, whatever is looked for -----------------------------------------------

  lemma {:induction false} BestWithin(x: string, rest: string, f: string -> nat)
    requires NL !in x
    ensures Best(x + rest, false, f) == Best(rest, false, f)
  {
    if x == [] {
      assert x + rest == rest;
    } else {
      assert (x + rest)[1..] == x[1..] + rest;
      BestWithin(x[1..], rest, f);
    }
  }

  /** Leading white space only repeats what is found behind it. */
  lemma {:induction false} BestLeading(u: Unicode, s: string, key: string)
    ensures var f := Finder(u, key);
            && Best(s, true, f) == Max(f(s), Best(Skip(u, s), false, f))
            && Best(Skip(u, s), false, f) <= Best(s, false, f) <= Max(f(s), Best(Skip(u, s), false, f))
  {
    var f := Finder(u, key);
    if s != [] && IsSpace(u, s[0]) {
      BestLeading(u, s[1..], key);
      assert f(s) == f(s[1..]);
    } else if s == [] {
      assert f(s) == 0;
    }
  }

  /** `f` decides within one line, unless nothing is found there and what follows
      decides. */
  ghost predicate LineBound(x: string, a: string, f: string -> nat) {
    forall k :: 0 <= k < |x| ==> f(x[k..] + a) == f(x[k..]) || (f(x[k..]) == 0 && f(x[k..] + a) == f(a))
  }

  lemma LaterSuffixes(x: string, a: string, f: string -> nat)
    requires x != [] && LineBound(x, a, f)
    ensures LineBound(x[1..], a, f)
  {
    assert forall k :: 0 <= k < |x[1..]| ==> x[1..][k..] == x[k + 1..];
  }

  lemma {:induction false} BestConcat(x: string, a: string, bol: bool, f: string -> nat)
    requires LineBound(x, a, f) && f([]) == 0
    requires if x == [] then bol else EndsLine(x)
    ensures Best(x + a, bol, f) == Max(Best(x, bol, f), Best(a, true, f))
  {
    if x == [] {
      assert x + a == a;
    } else {
      assert x[0..] == x && (x + a)[1..] == x[1..] + a;
      LaterSuffixes(x, a, f);
      BestConcat(x[1..], a, x[0] == NL, f);
    }
  }

  lemma {:induction false} BestBeforeBlank(s: string, w: string, bol: bool, f: string -> nat)
    requires forall k :: 0 <= k <= |s| ==> f(s[k..] + w) == f(s[k..])
    requires forall k :: 0 <= k <= |w| ==> f(w[k..]) == 0
    ensures Best(s + w, bol, f) == Best(s, bol, f)
    decreases |s|, |w|
  {
    if s == [] {
      assert s + w == w && w[0..] == w;
      if w != [] {
        assert forall k :: 0 <= k <= |w[1..]| ==> w[1..][k..] == w[k + 1..];
        assert [] + w[1..] == w[1..];
        forall k | 0 <= k <= 0 ensures f(s[k..] + w[1..]) == f(s[k..]) {
          assert s[k..] == [] && s[k..] + w == w && w[1..][0..] == w[1..];
        }
        BestBeforeBlank(s, w[1..], w[0] == NL, f);
      }
    } else {
      assert s[0..] == s && (s + w)[1..] == s[1..] + w;
      assert forall k :: 0 <= k <= |s[1..]| ==> s[1..][k..] == s[k + 1..];
      BestBeforeBlank(s[1..], w, s[0] == NL, f);
    }
  }

  // ---- Matches do not reach across a line break --------------------------------------

  /** White space, then anything but a digit. */
  predicate NoDigitNext(u: Unicode, a: string) {
    Skip(u, a) == [] || !IsDigit(u, Skip(u, a)[0])
  }

  predicate SameWorth(x: Option<Hit>, y: Option<Hit>) {
    Worth(x) == Worth(y) && (x.Some? <==> y.Some?)
  }

  lemma NumberConcat(u: Unicode, s: string, a: string)
    requires Digits(u, s) < |s| || a == [] || !IsDigit(u, a[0])
    ensures SameWorth(Number(u, s + a), Number(u, s))
  {
    DigitsConcat(u, s, a);
    assert (s + a)[..Digits(u, s)] == s[..Digits(u, s)];
  }

  lemma NumberBeforeBreak(u: Unicode, w: string, a: string)
    requires EndsLine(w) && NoDigitNext(u, a)
    ensures SameWorth(Number(u, Skip(u, w + a)), Number(u, Skip(u, w)))
  {
    SkipConcat(u, w, a);
    if Skip(u, w) != [] {
      SkipEndsLine(u, w);
      DigitsAre(u, Skip(u, w));
      NumberConcat(u, Skip(u, w), a);
    }
  }

  lemma MatchBeforeBreak(u: Unicode, x: string, a: string, key: string)
    requires Key(u, key) && EndsLine(x) && NoDigitNext(u, a)
    ensures SameWorth(Match(u, x + a, key), if Skip(u, x) == [] then Match(u, a, key) else Match(u, x, key))
    ensures Skip(u, x) == [] ==> Match(u, x, key) == None
  {
    SkipConcat(u, x, a);
    var z := Skip(u, x);
    if z != [] {
      SkipEndsLine(u, x);
      StartsWithinLine(u, z, a, key);
      if StartsWith(u, z, key) {
        NumberBeforeBreak(u, z[|key|..], a);
      }
    }
  }

  lemma MatchBeforeBlank(u: Unicode, s: string, w: string, key: string)
    requires Key(u, key) && Blank(u, w)
    ensures SameWorth(Match(u, s + w, key), Match(u, s, key))
  {
    SkipConcat(u, s, w);
    SkipBlank(u, w);
    var z := Skip(u, s);
    if z != [] {
      StartsBeforeBlank(u, z, w, key);
      if StartsWith(u, z, key) {
        var y := z[|key|..];
        SkipConcat(u, y, w);
        NumberConcat(u, Skip(u, y), w);
      }
    }
  }

  lemma CounterConcat(u: Unicode, x: string, a: string, key: string)
    requires Key(u, key) && NoDigitNext(u, a) && (x == [] || EndsLine(x))
    ensures Counter(u, x + a, key) == Max(Counter(u, x, key), Counter(u, a, key))
  {
    var f := Finder(u, key);
    forall k | 0 <= k < |x|
      ensures f(x[k..] + a) == f(x[k..]) || (f(x[k..]) == 0 && f(x[k..] + a) == f(a))
    {
      MatchBeforeBreak(u, x[k..], a, key);
    }
    BestConcat(x, a, true, f);
  }

  lemma CounterBeforeBlank(u: Unicode, s: string, w: string, key: string)
    requires Key(u, key) && Blank(u, w)
    ensures Counter(u, s + w, key) == Counter(u, s, key)
  {
    var f := Finder(u, key);
    forall k | 0 <= k <= |s| ensures f(s[k..] + w) == f(s[k..]) {
      MatchBeforeBlank(u, s[k..], w, key);
    }
    forall k | 0 <= k <= |w| ensures f(w[k..]) == 0 {
      SkipBlank(u, w[k..]);
    }
    BestBeforeBlank(s, w, true, f);
  }

  // ---- The scan of findall ---------------------------------------------------------

  lemma NumberAlone(u: Unicode, s: string, key: string)
    requires Key(u, key) && Digits(u, Skip(u, s)) > 0
    ensures Match(u, s, key) == None
  {
  }

  /** The digits of a match hold no other, nor does the space before them. */
  lemma BestOfNumber(u: Unicode, s: string, other: string)
    requires Key(u, other) && Number(u, Skip(u, s)).Some?
    ensures Best(s, false, Finder(u, other)) == Best(Number(u, Skip(u, s)).value.rest, false, Finder(u, other))
  {
    var b := Skip(u, s);
    var d := Digits(u, b);
    BestLeading(u, s, other);
    NumberAlone(u, s, other);
    DigitsAre(u, b);
    assert b == b[..d] + b[d..];
    BestWithin(b[..d], b[d..], Finder(u, other));
  }

  /** What a match consumes holds no other match. */
  lemma BestOfMatch(u: Unicode, s: string, key: string, other: string)
    requires Key(u, key) && Key(u, other) && Match(u, s, key).Some?
    ensures Counter(u, s, other) == Max(Finder(u, other)(s), Best(Match(u, s, key).value.rest, false, Finder(u, other)))
  {
    var a := Skip(u, s);
    var tail := a[|key|..];
    BestLeading(u, s, other);
    KeyHasNoBreak(u, a, key);
    assert a == a[..|key|] + tail;
    BestWithin(a[..|key|], tail, Finder(u, other));
    BestOfNumber(u, tail, other);
  }

  lemma MatchShortens(u: Unicode, s: string, key: string)
    requires Key(u, key) && Match(u, s, key).Some?
    ensures |Match(u, s, key).value.rest| < |s|
    ensures Match(u, s, key).value.rest == [] || !IsDigit(u, Match(u, s, key).value.rest[0])
  {
    DigitsAre(u, Skip(u, Skip(u, s)[|key|..]));
  }

  /** `max(int(n) for n in re.findall(...))`: the scan jumps over each match, and
      what it jumps over holds nothing higher. */
  method ReadCounter(u: Unicode, body: string, key: string) returns (best: nat)
    requires Key(u, key)
    ensures best == Counter(u, body, key)
  {
    best := 0;
    var rest, bol := body, true;
    while rest != []
      invariant Max(best, Best(rest, bol, Finder(u, key))) == Counter(u, body, key)
      decreases |rest|
    {
      var hit := Match(u, rest, key);
      if bol && hit.Some? {
        BestOfMatch(u, rest, key, key);
        MatchShortens(u, rest, key);
        best := Max(best, hit.value.value);
        rest, bol := hit.value.rest, false;
      } else {
        rest, bol := rest[1..], rest[0] == NL;
      }
    }
  }

  // ---- Stamping -----------------------------------------------------------------------

  /** Where the replaced match starts. */
  function HitAt(u: Unicode, s: string, bol: bool, key: string): (n: nat)
    ensures n <= |s|
  {
    if s == [] || (bol && Match(u, s, key).Some?) then 0 else 1 + HitAt(u, s[1..], s[0] == NL, key)
  }

  lemma {:induction false} HitAtLineStart(u: Unicode, s: string, bol: bool, key: string, line: string)
    requires Replaced(u, s, bol, key, line).Some?
    ensures var h := HitAt(u, s, bol, key);
            Match(u, s[h..], key).Some? && if h == 0 then bol else s[h - 1] == NL
  {
    if bol && Match(u, s, key).Some? {
      assert s[0..] == s;
    } else {
      var h := HitAt(u, s[1..], s[0] == NL, key);
      HitAtLineStart(u, s[1..], s[0] == NL, key, line);
      assert s[1..][h..] == s[1 + h..];
    }
  }

  lemma {:induction false} ReplacedShape(u: Unicode, s: string, bol: bool, key: string, line: string)
    requires Replaced(u, s, bol, key, line).Some? && Match(u, s[HitAt(u, s, bol, key)..], key).Some?
    ensures var h := HitAt(u, s, bol, key);
            Replaced(u, s, bol, key, line).value == s[..h] + (line + Match(u, s[h..], key).value.rest)
  {
    if bol && Match(u, s, key).Some? {
      assert s[0..] == s && s[..0] == [];
    } else {
      var h := HitAt(u, s[1..], s[0] == NL, key);
      assert s[1..][h..] == s[1 + h..] && s[..1 + h] == [s[0]] + s[1..][..h];
      ReplacedShape(u, s[1..], s[0] == NL, key, line);
    }
  }

  /** A caption is a spelling of its key. */
  predicate Captions(u: Unicode, caption: string, key: string) {
    Key(u, key) && StartsWith(u, caption, key) && |caption| == |key|
    && forall k :: 0 <= k < |caption| ==> Plain(u, caption[k])
  }

  lemma NumberOfDigits(u: Unicode, d: string, rest: string)
    requires d != [] && AllDigits(u, d) && (rest == [] || !IsDigit(u, rest[0]))
    ensures Number(u, d + rest) == Some(Hit(Value(u, d), rest)) && Skip(u, d + rest) == d + rest
  {
    var s := d + rest;
    DigitsStop(u, d, rest);
    assert s[0] == d[0] && IsDigit(u, d[0]);
    assert s[..|d|] == d && s[|d|..] == rest;
  }

  lemma LineMatches(u: Unicode, key: string, caption: string, n: nat, rest: string)
    requires Captions(u, caption, key) && (rest == [] || !IsDigit(u, rest[0]))
    ensures Match(u, Line(caption, n) + rest, key) == Some(Hit(n, rest))
    ensures NoDigitNext(u, Line(caption, n) + rest)
  {
    var s, number := Line(caption, n) + rest, Decimal(n) + rest;
    assert s == caption + ([' '] + number);
    assert s[0] == caption[0] && Plain(u, caption[0]) && Skip(u, s) == s;
    assert forall k :: 0 <= k < |key| ==> s[k] == caption[k];
    assert StartsWith(u, s, key) && s[|key|..] == [' '] + number;
    SkipConcat(u, [' '], number);
    SkipBlank(u, [' ']);
    DecimalRoundTrip(u, n);
    NumberOfDigits(u, Decimal(n), rest);
  }

  /** No text starts with both keys. */
  predicate Differ(a: string, b: string) {
    exists k :: 0 <= k < |a| && k < |b| && a[k] != b[k]
  }

  lemma OtherKeyMisses(u: Unicode, s: string, key: string, other: string)
    requires Match(u, s, key).Some? && Differ(key, other)
    ensures Match(u, s, other) == None
  {
  }

  /** What a match of `key` is worth to `other`. */
  lemma CounterOfMatch(u: Unicode, s: string, key: string, other: string)
    requires Key(u, key) && Key(u, other) && (key == other || Differ(key, other)) && Match(u, s, key).Some?
    ensures Counter(u, s, other) == Max(if key == other then Match(u, s, key).value.value else 0,
                                     Best(Match(u, s, key).value.rest, false, Finder(u, other)))
  {
    BestOfMatch(u, s, key, other);
    if key != other { OtherKeyMisses(u, s, key, other); }
  }

  lemma MatchIsNoNumber(u: Unicode, s: string, key: string)
    requires Key(u, key) && Match(u, s, key).Some?
    ensures NoDigitNext(u, s)
  {
  }

  /** Replacing one match by another of the same key. */
  lemma CounterOfSwap(u: Unicode, x: string, m: string, t: string, key: string, other: string)
    requires Key(u, key) && Key(u, other) && (key == other || Differ(key, other)) && (x == [] || EndsLine(x))
    requires Match(u, m, key).Some? && Match(u, t, key).Some? && Match(u, m, key).value.rest == Match(u, t, key).value.rest
    ensures var n := Match(u, t, key).value.value;
            if key == other then n <= Counter(u, x + t, other) <= Max(n, Counter(u, x + m, other))
            else Counter(u, x + t, other) == Counter(u, x + m, other)
  {
    MatchIsNoNumber(u, m, key);
    MatchIsNoNumber(u, t, key);
    CounterConcat(u, x, m, other);
    CounterConcat(u, x, t, other);
    CounterOfMatch(u, m, key, other);
    CounterOfMatch(u, t, key, other);
  }

  /** A replacement swaps one match for the new line. */
  lemma ReplacedIsSwap(u: Unicode, body: string, key: string, caption: string, n: nat) returns (x: string, m: string)
    requires Captions(u, caption, key) && Replaced(u, body, true, key, Line(caption, n)).Some?
    ensures body == x + m && (x == [] || EndsLine(x)) && Match(u, m, key).Some?
    ensures Replaced(u, body, true, key, Line(caption, n)).value == x + (Line(caption, n) + Match(u, m, key).value.rest)
    ensures Match(u, Line(caption, n) + Match(u, m, key).value.rest, key) == Some(Hit(n, Match(u, m, key).value.rest))
  {
    var h := HitAt(u, body, true, key);
    HitAtLineStart(u, body, true, key, Line(caption, n));
    ReplacedShape(u, body, true, key, Line(caption, n));
    x, m := body[..h], body[h..];
    MatchShortens(u, m, key);
    LineMatches(u, key, caption, n, Match(u, m, key).value.rest);
  }

  lemma StampReplaces(u: Unicode, body: string, key: string, caption: string, other: string, n: nat)
    requires Captions(u, caption, key) && Key(u, other) && (key == other || Differ(key, other))
    requires Replaced(u, body, true, key, Line(caption, n)).Some?
    ensures var t := Replaced(u, body, true, key, Line(caption, n)).value;
            if key == other then n <= Counter(u, t, other) <= Max(n, Counter(u, body, other))
            else Counter(u, t, other) == Counter(u, body, other)
  {
    var x, m := ReplacedIsSwap(u, body, key, caption, n);
    CounterOfSwap(u, x, m, Line(caption, n) + Match(u, m, key).value.rest, key, other);
  }

  lemma {:induction false} TrimEndBlank(u: Unicode, s: string)
    ensures TrimEnd(u, s) <= s && Blank(u, s[|TrimEnd(u, s)|..])
  {
    if s != [] && IsSpace(u, s[|s| - 1]) {
      var init := s[..|s| - 1];
      TrimEndBlank(u, init);
      assert s[|TrimEnd(u, s)|..] == init[|TrimEnd(u, s)|..] + [s[|s| - 1]];
    }
  }

  /** Trailing space cut back to a line break. */
  lemma CounterTrimmed(u: Unicode, body: string, other: string)
    requires Key(u, other)
    ensures Counter(u, TrimEnd(u, body) + [NL, NL], other) == Counter(u, body, other)
  {
    var r := TrimEnd(u, body);
    TrimEndBlank(u, body);
    var w := body[|r|..];
    assert body == r + w && Blank(u, [NL, NL]);
    CounterBeforeBlank(u, r, w, other);
    CounterBeforeBlank(u, r, [NL, NL], other);
  }

  lemma CounterOfNewLine(u: Unicode, key: string, caption: string, other: string, n: nat)
    requires Captions(u, caption, key) && Key(u, other) && (key == other || Differ(key, other))
    ensures Counter(u, Line(caption, n) + [NL], other) == if key == other then n else 0
    ensures NoDigitNext(u, Line(caption, n) + [NL])
  {
    LineMatches(u, key, caption, n, [NL]);
    CounterOfMatch(u, Line(caption, n) + [NL], key, other);
  }

  lemma StampAppends(u: Unicode, body: string, key: string, caption: string, other: string, n: nat)
    requires Captions(u, caption, key) && Key(u, other) && (key == other || Differ(key, other))
    ensures Counter(u, TrimEnd(u, body) + [NL, NL] + (Line(caption, n) + [NL]), other) ==
            Max(if key == other then n else 0, Counter(u, body, other))
  {
    CounterTrimmed(u, body, other);
    CounterOfNewLine(u, key, caption, other, n);
    CounterConcat(u, TrimEnd(u, body) + [NL, NL], Line(caption, n) + [NL], other);
  }

  /** Stamping `n` makes the counter at least `n` and no higher than `n` or what
      it was; the other counter stays as it is. */
  lemma StampRaises(u: Unicode, body: string, key: string, caption: string, other: string, n: nat)
    requires Captions(u, caption, key) && Key(u, other) && (key == other || Differ(key, other))
    ensures var t := Stamped(u, body, key, caption, n);
            if key == other then n <= Counter(u, t, other) <= Max(n, Counter(u, body, other))
            else Counter(u, t, other) == Counter(u, body, other)
  {
    if Replaced(u, body, true, key, Line(caption, n)).Some? {
      StampReplaces(u, body, key, caption, other, n);
    } else {
      StampAppends(u, body, key, caption, other, n);
    }
  }
}
