/** `go_is_print` of `context.rs`: Go's `strconv.IsPrint` over generated tables,
    which stay parameters here. */
module Printable {
  import opened Bytes
  import opened Wrappers
  import Quote

  /** The tables are flat lists of inclusive pairs, and lists of exceptions. */
  datatype Tables = Tables(print16: seq<int>, notPrint16: seq<int>, print32: seq<int>, notPrint32: seq<int>)

  predicate Sorted(t: seq<int>) {
    forall i, j :: 0 <= i <= j < |t| ==> t[i] <= t[j]
  }

  predicate WellFormed(t: Tables) {
    && Sorted(t.print16) && |t.print16| % 2 == 0 && Sorted(t.notPrint16)
    && Sorted(t.print32) && |t.print32| % 2 == 0 && Sorted(t.notPrint32)
  }

  // ---- The fast form --------------------------------------------------------

  /** `partition_point(|e| e < needle)`, by bisection of `lo..hi`. */
  function PartitionPoint(t: seq<int>, needle: int, lo: nat, hi: nat): (i: nat)
    requires lo <= hi <= |t| && Sorted(t)
    requires forall k :: 0 <= k < lo ==> t[k] < needle
    requires forall k :: hi <= k < |t| ==> needle <= t[k]
    ensures i <= |t|
    ensures forall k :: 0 <= k < i ==> t[k] < needle
    ensures forall k :: i <= k < |t| ==> needle <= t[k]
    decreases hi - lo
  {
    if lo == hi then lo else
    var mid := (lo + hi) / 2;
    if t[mid] < needle then PartitionPoint(t, needle, mid + 1, hi) else PartitionPoint(t, needle, lo, mid)
  }

  /** `binary_search(&needle).is_ok()`. */
  predicate Hit(t: seq<int>, needle: int)
    requires Sorted(t)
  {
    var i := PartitionPoint(t, needle, 0, |t|);
    i < |t| && t[i] == needle
  }

  /** `i & !1` and `i | 1`. */
  function ClearLow(i: nat): nat { i - i % 2 }
  function SetLow(i: nat): nat { i - i % 2 + 1 }

  predicate PairHit(t: seq<int>, needle: int)
    requires Sorted(t) && |t| % 2 == 0
  {
    var i := PartitionPoint(t, needle, 0, |t|);
    i < |t| && t[ClearLow(i)] <= needle && needle <= t[SetLow(i)]
  }

  predicate Latin1(r: int) {
    if 0x20 <= r <= 0x7e then true else 0xa1 <= r <= 0xff && r != 0xad
  }

  predicate GoIsPrint(c: char, t: Tables)
    requires WellFormed(t)
  {
    var r := c as int;
    if r <= 0xff then Latin1(r)
    else if r < 0x1_0000 then PairHit(t.print16, r) && !Hit(t.notPrint16, r)
    else PairHit(t.print32, r) && (r >= 0x2_0000 || !Hit(t.notPrint32, r - 0x1_0000))
  }

  // ---- What it decides --------------------------------------------------------

  predicate InSomePair(t: seq<int>, r: int)
    requires |t| % 2 == 0
  {
    exists k :: 0 <= k < |t| / 2 && t[2 * k] <= r <= t[2 * k + 1]
  }

  lemma HitIsMembership(t: seq<int>, needle: int)
    requires Sorted(t)
    ensures Hit(t, needle) <==> needle in t
  {
  }

  /** Looking only at the pair around the partition point misses no pair: of the
      earlier ones both ends are below the needle, of the later ones both are
      not below it, and one that starts at the needle itself is reached through
      its first end. */
  lemma PairHitIsMembership(t: seq<int>, needle: int)
    requires Sorted(t) && |t| % 2 == 0
    ensures PairHit(t, needle) <==> InSomePair(t, needle)
  {
    var i := PartitionPoint(t, needle, 0, |t|);
    if i < |t| {
      assert ClearLow(i) == 2 * (i / 2) && SetLow(i) == 2 * (i / 2) + 1;
      assert i / 2 < |t| / 2;
    }
    if k :| 0 <= k < |t| / 2 && t[2 * k] <= needle <= t[2 * k + 1] {
      assert i <= 2 * k + 1;
      if i < 2 * k {
        assert t[i] == needle == t[2 * k];
        assert t[SetLow(i)] >= needle && t[ClearLow(i)] <= t[i];
      }
    }
  }

  lemma LookupIsMembership(c: char, t: Tables)
    requires WellFormed(t) && c as int > 0xff
    ensures GoIsPrint(c, t) <==>
              if c as int < 0x1_0000 then InSomePair(t.print16, c as int) && c as int !in t.notPrint16
              else InSomePair(t.print32, c as int) && (c as int >= 0x2_0000 || c as int - 0x1_0000 !in t.notPrint32)
  {
    PairHitIsMembership(t.print16, c as int);
    PairHitIsMembership(t.print32, c as int);
    HitIsMembership(t.notPrint16, c as int);
    HitIsMembership(t.notPrint32, c as int - 0x1_0000);
  }

  /** The Latin-1 shortcut answers as the tables would: they begin with the pairs
      20-7E and A1-377, and AD is the first exception. */
  lemma ShortcutAgrees(r: int, t: Tables)
    requires WellFormed(t) && 0 <= r <= 0xff
    requires |t.print16| >= 4 && t.print16[..4] == [0x20, 0x7e, 0xa1, 0x377]
    requires |t.notPrint16| >= 2 && t.notPrint16[0] == 0xad && t.notPrint16[1] > 0xff
    ensures Latin1(r) <==> InSomePair(t.print16, r) && r !in t.notPrint16
  {
    var p := t.print16;
    assert p[0] == p[..4][0] && p[1] == p[..4][1] && p[2] == p[..4][2] && p[3] == p[..4][3];
    assert p[2 * 0] == 0x20 && p[2 * 0 + 1] == 0x7e && p[2 * 1] == 0xa1 && p[2 * 1 + 1] == 0x377;
    assert forall k :: 2 <= k < |p| / 2 ==> p[2 * k] >= p[3];
    assert forall k :: 1 <= k < |t.notPrint16| ==> t.notPrint16[k] >= t.notPrint16[1];
    if r in t.notPrint16 {
      assert r == 0xad;
    }
  }

  predicate Control(c: char) {
    c as int < 0x20 || 0x7f <= c as int <= 0x9f
  }

  /** A rejected header value is reported on one line: the quoted form holds no
      control character, and reads back to the very bytes that were sent. */
  lemma RejectionIsReadable(s: bytes, t: Tables)
    requires WellFormed(t)
    ensures var text := ['\"'] + Quote.Escaped(s, c => GoIsPrint(c, t)) + ['\"'];
            && (forall k :: 0 <= k < |text| ==> !Control(text[k]))
            && Quote.Unquote(text) == Some(Quote.Read(s, []))
  {
    var printable := c => GoIsPrint(c, t);
    Quote.EscapedIsClean(s, printable);
    Quote.UnquoteInvertsGoQuote(s, printable);
  }
}
