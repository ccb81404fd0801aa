/** `_root_status` of `loop.py`: the NUL-separated output of `git status
    --porcelain -z`, printed and parsed. */
module GitStatus {
  import opened Wrappers
  import Sequences

  const NUL: char := '\0'
  const CR: char := '\r'
  const LF: char := '\n'

  /** One reported path. A rename or copy, in either column, names its source in
      a field of its own. */
  datatype Change = Change(x: char, y: char, path: string, source: string)

  datatype Status = Status(dirty: map<string, string>, renamedFrom: map<string, string>)

  predicate Moved(c: char) { c == 'R' || c == 'C' }

  predicate Moves(c: Change) { Moved(c.x) || Moved(c.y) }

  function Code(c: Change): string { [c.x, c.y] }

  /** What git can report: no name holds a NUL, and a source is never empty. */
  predicate Printable(c: Change) {
    NUL !in c.path && NUL !in c.source && c.x !in {NUL, CR} && c.y !in {NUL, CR} && c.source != []
  }

  function PrintOne(c: Change): string {
    [c.x, c.y, ' '] + c.path + [NUL] + if Moves(c) then c.source + [NUL] else []
  }

  function Print(cs: seq<Change>): string {
    if cs == [] then [] else PrintOne(cs[0]) + Print(cs[1..])
  }

  /** The text after its first line break or other character. */
  function Beyond(s: string): string
    requires s != []
  {
    if s[0] == CR && |s| > 1 && s[1] == LF then s[2..] else s[1..]
  }

  /** What `subprocess` makes of text output: every line break becomes LF. */
  function Translate(s: string): string
    decreases |s|
  {
    if s == [] then [] else [if s[0] == CR then LF else s[0]] + Translate(Beyond(s))
  }

  // ---- The parser -------------------------------------------------------------

  function FindNul(s: string): (n: nat)
    ensures n <= |s| && (n < |s| ==> s[n] == NUL)
    ensures forall k :: 0 <= k < n ==> s[k] != NUL
  {
    if s == [] || s[0] == NUL then 0 else
    var n := 1 + FindNul(s[1..]);
    assert forall k :: 1 <= k < n ==> s[k] == s[1..][k - 1];
    n
  }

  /** `str.split("\0")`. */
  function Split(s: string): (r: seq<string>)
    ensures r != []
    decreases |s|
  {
    var n := FindNul(s);
    if n == |s| then [s] else [s[..n]] + Split(s[n + 1..])
  }

  /** `s[k:]` of a string that may be shorter. */
  function From(s: string, k: nat): string {
    if |s| < k then [] else s[k..]
  }

  function Upto(s: string, k: nat): string {
    if |s| < k then s else s[..k]
  }

  /** The parse from field `i` on; None is the IndexError of a one-character
      record, which reads a second status column that is not there. */
  function ParseFrom(fields: seq<string>, i: nat, st: Status): Option<Status>
    decreases |fields| - i
  {
    if i >= |fields| then Some(st) else
    var rec := fields[i];
    if rec == [] then ParseFrom(fields, i + 1, st) else
    if !Moved(rec[0]) && |rec| < 2 then None else
    var code, path := Upto(rec, 2), From(rec, 3);
    if Moved(rec[0]) || Moved(rec[1]) then
      var from := if i + 1 < |fields| && fields[i + 1] != [] then st.renamedFrom[fields[i + 1] := code] else st.renamedFrom;
      ParseFrom(fields, i + 2, Status(st.dirty[path := code], from))
    else ParseFrom(fields, i + 1, st.(dirty := st.dirty[path := code]))
  }

  function Parse(output: string): Option<Status> {
    ParseFrom(Split(output), 0, Status(map[], map[]))
  }

  /** What the program gets from git's output. */
  function Read(stdout: string): Option<Status> {
    Parse(Translate(stdout))
  }

  method RootStatus(stdout: string) returns (result: Option<Status>)
    ensures result == Read(stdout)
  {
    var output := Translate(stdout);
    var fields := Split(output);
    var dirty: map<string, string> := map[];
    var renamedFrom: map<string, string> := map[];
    var i := 0;
    while i < |fields|
      invariant ParseFrom(fields, i, Status(dirty, renamedFrom)) == Parse(output)
    {
      var rec := fields[i];
      i := i + 1;
      if rec == [] {
        continue;
      }
      var code, path := Upto(rec, 2), From(rec, 3);
      if !Moved(rec[0]) && |rec| < 2 {
        return None;
      }
      if Moved(rec[0]) || Moved(rec[1]) {
        if i < |fields| && fields[i] != [] {
          renamedFrom := renamedFrom[fields[i] := code];
        }
        i := i + 1;
      }
      dirty := dirty[path := code];
    }
    result := Some(Status(dirty, renamedFrom));
  }

  // ---- It inverts the printer ---------------------------------------------------

  function Recorded(st: Status, c: Change): Status {
    Status(st.dirty[c.path := Code(c)], if Moves(c) then st.renamedFrom[c.source := Code(c)] else st.renamedFrom)
  }

  /** What a list of changes means: later records win, as in the dictionaries. */
  function Meaning(cs: seq<Change>): Status {
    if cs == [] then Status(map[], map[]) else
    Recorded(Meaning(cs[..|cs| - 1]), cs[|cs| - 1])
  }

  lemma SplitField(f: string, rest: string)
    requires NUL !in f
    ensures Split(f + [NUL] + rest) == [f] + Split(rest)
  {
    var s := f + [NUL] + rest;
    var n := FindNul(s);
    assert s[|f|] == NUL && forall k :: 0 <= k < |f| ==> s[k] == f[k];
    assert n == |f|;
    assert s[..n] == f && s[n + 1..] == rest;
  }

  /** The fields of one change. */
  function Fields(c: Change): seq<string> {
    [[c.x, c.y, ' '] + c.path] + if Moves(c) then [c.source] else []
  }

  lemma PrintOneFields(c: Change, rest: string)
    ensures PrintOne(c) + rest ==
            [c.x, c.y, ' '] + c.path + [NUL] + if Moves(c) then c.source + [NUL] + rest else rest
  {
  }

  lemma SplitOne(c: Change, rest: string)
    requires Printable(c)
    ensures Split(PrintOne(c) + rest) == Fields(c) + Split(rest)
  {
    var f := [c.x, c.y, ' '] + c.path;
    PrintOneFields(c, rest);
    SplitField(f, if Moves(c) then c.source + [NUL] + rest else rest);
    if Moves(c) {
      SplitField(c.source, rest);
      assert [f] + ([c.source] + Split(rest)) == Fields(c) + Split(rest);
    }
  }

  /** Parsing looks only at the fields from `i` on. */
  lemma {:induction false} ParseShifts(a: seq<string>, b: seq<string>, i: nat, st: Status)
    requires i <= |b|
    ensures ParseFrom(a + b, |a| + i, st) == ParseFrom(b, i, st)
    decreases |b| - i
  {
    if i < |b| {
      assert (a + b)[|a| + i] == b[i];
      assert i + 1 < |b| ==> (a + b)[|a| + i + 1] == b[i + 1];
      var rec := b[i];
      if rec == [] {
        ParseShifts(a, b, i + 1, st);
      } else if Moved(rec[0]) || |rec| >= 2 {
        var code, path := Upto(rec, 2), From(rec, 3);
        var dirty := st.dirty[path := code];
        if Moved(rec[0]) || Moved(rec[1]) {
          var from := if i + 1 < |b| && b[i + 1] != [] then st.renamedFrom[b[i + 1] := code] else st.renamedFrom;
          if i + 2 <= |b| { ParseShifts(a, b, i + 2, Status(dirty, from)); }
        } else {
          ParseShifts(a, b, i + 1, st.(dirty := dirty));
        }
      }
    }
  }

  lemma ParseOne(c: Change, rest: seq<string>, st: Status)
    requires Printable(c)
    ensures ParseFrom(Fields(c) + rest, 0, st) == ParseFrom(rest, 0, Recorded(st, c))
  {
    var fields := Fields(c) + rest;
    var rec := [c.x, c.y, ' '] + c.path;
    assert fields[0] == rec && (Moves(c) ==> fields[1] == c.source);
    assert rec[..2] == Code(c) && rec[3..] == c.path;
    ParseShifts(Fields(c), rest, 0, Recorded(st, c));
  }

  function Folded(st: Status, cs: seq<Change>): Status
    decreases |cs|
  {
    if cs == [] then st else Folded(Recorded(st, cs[0]), cs[1..])
  }

  lemma {:induction false} FoldedIsMeaning(cs: seq<Change>, ds: seq<Change>)
    ensures Folded(Meaning(cs), ds) == Meaning(cs + ds)
    decreases |ds|
  {
    if ds == [] {
      assert cs + ds == cs;
    } else {
      var more := cs + [ds[0]];
      assert more[..|cs|] == cs && more + ds[1..] == cs + ds;
      FoldedIsMeaning(more, ds[1..]);
    }
  }

  lemma {:induction false} ParsePrinted(cs: seq<Change>, st: Status)
    requires forall k :: 0 <= k < |cs| ==> Printable(cs[k])
    ensures ParseFrom(Split(Print(cs)), 0, st) == Some(Folded(st, cs))
  {
    if cs != [] {
      SplitOne(cs[0], Print(cs[1..]));
      ParseOne(cs[0], Split(Print(cs[1..])), st);
      ParsePrinted(cs[1..], Recorded(st, cs[0]));
    }
  }

  /** The parse inverts the printer: every path with its own status, every rename
      source with its record's, and no field is mistaken for another. */
  lemma ParseInvertsPrint(cs: seq<Change>)
    requires forall k :: 0 <= k < |cs| ==> Printable(cs[k])
    ensures Parse(Print(cs)) == Some(Meaning(cs))
  {
    ParsePrinted(cs, Status(map[], map[]));
    FoldedIsMeaning([], cs);
    assert [] + cs == cs;
  }

  /** With one record a path, nothing is lost and nothing is invented. */
  lemma {:induction false} MeaningIsExact(cs: seq<Change>, p: string)
    requires forall i, j :: 0 <= i < j < |cs| ==> cs[i].path != cs[j].path
    ensures forall k :: 0 <= k < |cs| ==> cs[k].path in Meaning(cs).dirty && Meaning(cs).dirty[cs[k].path] == Code(cs[k])
    ensures p in Meaning(cs).dirty ==> exists k :: 0 <= k < |cs| && cs[k].path == p
    ensures p in Meaning(cs).renamedFrom <==> exists k :: 0 <= k < |cs| && Moves(cs[k]) && cs[k].source == p
  {
    if cs != [] {
      var init, last := cs[..|cs| - 1], cs[|cs| - 1];
      MeaningIsExact(init, p);
      assert forall k :: 0 <= k < |init| ==> init[k] == cs[k];
    }
  }

  lemma {:induction false} SourcesAreExact(cs: seq<Change>)
    requires forall i, j :: 0 <= i < j < |cs| && Moves(cs[i]) && Moves(cs[j]) ==> cs[i].source != cs[j].source
    ensures forall k :: 0 <= k < |cs| && Moves(cs[k]) ==>
              cs[k].source in Meaning(cs).renamedFrom && Meaning(cs).renamedFrom[cs[k].source] == Code(cs[k])
  {
    if cs != [] {
      var init := cs[..|cs| - 1];
      SourcesAreExact(init);
      assert forall k :: 0 <= k < |init| ==> init[k] == cs[k];
    }
  }

  // ---- Through the line-break translation -------------------------------------------

  lemma BeyondConcat(a: string, b: string)
    requires a != [] && !(a[|a| - 1] == CR && b != [] && b[0] == LF)
    ensures Beyond(a + b) == Beyond(a) + b
    ensures Beyond(a) != [] ==> Beyond(a)[|Beyond(a)| - 1] == a[|a| - 1]
  {
    assert |a| > 1 ==> (a + b)[1] == a[1];
    assert (a + b)[1..] == a[1..] + b;
    assert |a| > 1 ==> (a + b)[2..] == a[2..] + b;
  }

  /** A translation does not reach across anything but CR LF. */
  lemma {:induction false} TranslateConcat(a: string, b: string)
    requires !(a != [] && a[|a| - 1] == CR && b != [] && b[0] == LF)
    ensures Translate(a + b) == Translate(a) + Translate(b)
    decreases |a|
  {
    if a == [] {
      assert a + b == b;
    } else {
      BeyondConcat(a, b);
      TranslateConcat(Beyond(a), b);
      assert (a + b)[0] == a[0];
      var first := [if a[0] == CR then LF else a[0]];
      assert Translate(a + b) == first + Translate(Beyond(a) + b);
      Sequences.Regroup(first, Translate(Beyond(a)), Translate(b), []);
    }
  }

  lemma {:induction false} TranslatedHas(s: string)
    ensures CR !in Translate(s)
    ensures NUL !in s ==> NUL !in Translate(s)
    ensures s != [] ==> Translate(s) != []
    ensures CR !in s ==> Translate(s) == s
    decreases |s|
  {
    if s != [] {
      TranslatedHas(Beyond(s));
    }
  }

  function Translated(c: Change): Change {
    c.(path := Translate(c.path), source := Translate(c.source))
  }

  function AllTranslated(cs: seq<Change>): (r: seq<Change>)
    ensures |r| == |cs| && forall k :: 0 <= k < |cs| ==> r[k] == Translated(cs[k])
  {
    seq(|cs|, k requires 0 <= k < |cs| => Translated(cs[k]))
  }

  lemma TranslateField(f: string, rest: string)
    ensures Translate(f + [NUL] + rest) == Translate(f) + [NUL] + Translate(rest)
  {
    assert f + [NUL] + rest == f + ([NUL] + rest);
    TranslateConcat(f, [NUL] + rest);
    assert ([NUL] + rest)[1..] == rest;
  }

  lemma TranslateStatus(c: Change)
    requires Printable(c)
    ensures Translate([c.x, c.y, ' '] + c.path) == [c.x, c.y, ' '] + Translate(c.path)
  {
    var status := [c.x, c.y, ' '];
    TranslateConcat(status, c.path);
    TranslatedHas(status);
  }

  lemma TranslateOne(c: Change, rest: string)
    requires Printable(c)
    ensures Translate(PrintOne(c) + rest) == PrintOne(Translated(c)) + Translate(rest)
  {
    var f := [c.x, c.y, ' '] + c.path;
    PrintOneFields(c, rest);
    PrintOneFields(Translated(c), Translate(rest));
    TranslateField(f, if Moves(c) then c.source + [NUL] + rest else rest);
    TranslateStatus(c);
    if Moves(c) {
      TranslateField(c.source, rest);
    }
  }

  lemma {:induction false} TranslatePrinted(cs: seq<Change>)
    requires forall k :: 0 <= k < |cs| ==> Printable(cs[k])
    ensures Translate(Print(cs)) == Print(AllTranslated(cs))
  {
    if cs != [] {
      TranslateOne(cs[0], Print(cs[1..]));
      TranslatePrinted(cs[1..]);
      assert AllTranslated(cs)[1..] == AllTranslated(cs[1..]);
    }
  }

  /** Whatever git reports, the program reads back the changes with their line
      breaks translated. */
  lemma ReadIsTranslated(cs: seq<Change>)
    requires forall k :: 0 <= k < |cs| ==> Printable(cs[k])
    ensures Read(Print(cs)) == Some(Meaning(AllTranslated(cs)))
  {
    TranslatePrinted(cs);
    forall k | 0 <= k < |cs| ensures Printable(AllTranslated(cs)[k]) {
      TranslatedHas(cs[k].path);
      TranslatedHas(cs[k].source);
    }
    ParseInvertsPrint(AllTranslated(cs));
  }

  /** A name that the parse is to return and that holds a carriage return. */
  predicate NamesCR(c: Change) {
    CR in c.path || (Moves(c) && CR in c.source)
  }

  lemma {:induction false} MeaningKeeps(cs: seq<Change>, k: nat)
    requires k < |cs|
    ensures cs[k].path in Meaning(cs).dirty
    ensures Moves(cs[k]) ==> cs[k].source in Meaning(cs).renamedFrom
  {
    var init := cs[..|cs| - 1];
    if k < |init| {
      MeaningKeeps(init, k);
    }
  }

  lemma TranslatedInit(cs: seq<Change>)
    requires cs != []
    ensures AllTranslated(cs)[..|cs| - 1] == AllTranslated(cs[..|cs| - 1])
    ensures Meaning(AllTranslated(cs)) == Recorded(Meaning(AllTranslated(cs[..|cs| - 1])), Translated(cs[|cs| - 1]))
  {
    assert AllTranslated(cs)[..|cs| - 1] == AllTranslated(cs[..|cs| - 1]);
  }

  lemma {:induction false} TranslatedNamesNoCR(cs: seq<Change>, p: string)
    requires CR in p
    ensures p !in Meaning(AllTranslated(cs)).dirty && p !in Meaning(AllTranslated(cs)).renamedFrom
  {
    if cs != [] {
      TranslatedInit(cs);
      TranslatedNamesNoCR(cs[..|cs| - 1], p);
      TranslatedHas(cs[|cs| - 1].path);
      TranslatedHas(cs[|cs| - 1].source);
    }
  }

  lemma {:induction false} TranslatedUnchanged(cs: seq<Change>)
    requires forall k :: 0 <= k < |cs| ==> !NamesCR(cs[k])
    ensures Meaning(AllTranslated(cs)) == Meaning(cs)
  {
    if cs != [] {
      TranslatedInit(cs);
      TranslatedUnchanged(cs[..|cs| - 1]);
      TranslatedHas(cs[|cs| - 1].path);
      TranslatedHas(cs[|cs| - 1].source);
    }
  }

  /** It is what git reported exactly if no path and no rename source holds a
      carriage return. */
  lemma ReadInvertsPrint(cs: seq<Change>)
    requires forall k :: 0 <= k < |cs| ==> Printable(cs[k])
    ensures Read(Print(cs)) == Some(Meaning(cs)) <==> forall k :: 0 <= k < |cs| ==> !NamesCR(cs[k])
  {
    ReadIsTranslated(cs);
    if k :| 0 <= k < |cs| && NamesCR(cs[k]) {
      MeaningKeeps(cs, k);
      TranslatedNamesNoCR(cs, if CR in cs[k].path then cs[k].path else cs[k].source);
    } else {
      TranslatedUnchanged(cs);
    }
  }

  /** An untracked file named with a carriage return is reported under a name that
      does not exist. */
  lemma CarriageReturnIsLost()
    ensures var c := Change('?', '?', ['a', CR, 'b'], ['s']);
            Printable(c) && Read(Print([c])) == Some(Status(map[['a', LF, 'b'] := "??"], map[]))
  {
    var c := Change('?', '?', ['a', CR, 'b'], ['s']);
    ReadIsTranslated([c]);
    var t := Change('?', '?', ['a', LF, 'b'], ['s']);
    TranslatedHas(['b']);
    assert [CR, 'b'][1..] == ['b'] && Translate([CR, 'b']) == [LF] + ['b'];
    assert ['a', CR, 'b'][1..] == [CR, 'b'];
    assert Translate(['a', CR, 'b']) == ['a', LF, 'b'];
    TranslatedHas(['s']);
    assert AllTranslated([c]) == [t];
    assert [t][..0] == [];
    assert Meaning([t]) == Recorded(Meaning([]), t);
    assert Code(t) == "??";
  }
}
