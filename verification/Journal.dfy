/** The event journal of `loop.py`: appends that may be cut at any byte, and the
    repair the next append makes. */
module Journal {
  import opened Wrappers
  import opened Bytes
  import Sequences

  /** What decodes as a record. */
  type Decoder = bytes -> bool

  /** A record's text is one line, and nothing shorter decodes: a JSON object's
      text ends with the brace that closes it. */
  ghost predicate IsRecord(ok: Decoder, text: bytes) {
    && ok(text) && NEWLINE !in text
    && forall n :: 0 <= n < |text| ==> !ok(text[..n])
  }

  // ---- Writing --------------------------------------------------------------

  /** One call of `record`: the text of its event, the text of a `journal_torn`
      event for a given offset, and how many bytes reach the file. */
  datatype Write = Write(report: nat -> bytes, text: bytes, cut: nat)

  function TornOffset(file: bytes): Option<nat> {
    if file == [] || file[|file| - 1] == NEWLINE then None else Some(|file|)
  }

  function Repair(file: bytes, w: Write): bytes {
    match TornOffset(file)
    case None => []
    case Some(offset) => [NEWLINE] + w.report(offset) + [NEWLINE]
  }

  function Payload(file: bytes, w: Write): bytes {
    Repair(file, w) + w.text + [NEWLINE]
  }

  function Appended(file: bytes, w: Write): bytes {
    var payload := Payload(file, w);
    file + if w.cut < |payload| then payload[..w.cut] else payload
  }

  class File {
    var contents: bytes

    constructor (existing: bytes)
      ensures contents == existing
    {
      contents := existing;
    }

    method Torn() returns (offset: Option<nat>)
      ensures offset == TornOffset(contents)
    {
      if contents == [] {
        return None;
      }
      if contents[|contents| - 1] == NEWLINE {
        return None;
      }
      return Some(|contents|);
    }

    method Record(w: Write)
      modifies this
      ensures contents == Appended(old(contents), w)
    {
      var tear := Torn();
      var buffer: bytes := [];
      match tear {
        case None =>
        case Some(offset) =>
          buffer := buffer + [NEWLINE];
          buffer := buffer + w.report(offset) + [NEWLINE];
      }
      buffer := buffer + w.text + [NEWLINE];
      contents := contents + if w.cut < |buffer| then buffer[..w.cut] else buffer;
    }
  }

  // ---- Reading ----------------------------------------------------------------

  function Kept(line: bytes, ok: Decoder): seq<bytes> {
    if ok(line) then [line] else []
  }

  /** The lines that decode, in order; a last line need not end in a newline. */
  function ReadBack(file: bytes, ok: Decoder): seq<bytes>
    decreases |file|
  {
    var n := Find(file, NEWLINE);
    if n == |file| then Kept(file, ok) else Kept(file[..n], ok) + ReadBack(file[n + 1..], ok)
  }

  lemma ReadFirst(line: bytes, b: bytes, ok: Decoder)
    requires NEWLINE !in line
    ensures ReadBack(line + [NEWLINE] + b, ok) == Kept(line, ok) + ReadBack(b, ok)
  {
    Sequences.Regroup(line, [NEWLINE], b, []);
    FindAt(line, NEWLINE, [NEWLINE] + b);
    Sequences.Around(line, [NEWLINE], b);
  }

  lemma {:induction false} ReadAcrossNewline(a: bytes, b: bytes, ok: Decoder)
    ensures ReadBack(a + [NEWLINE] + b, ok) == ReadBack(a, ok) + ReadBack(b, ok)
    decreases |a|
  {
    var n := Find(a, NEWLINE);
    if n == |a| {
      ReadFirst(a, b, ok);
    } else {
      var line, rest := a[..n], a[n + 1..];
      assert a == line + [NEWLINE] + rest;
      assert a + [NEWLINE] + b == line + [NEWLINE] + (rest + [NEWLINE] + b);
      ReadFirst(line, rest + [NEWLINE] + b, ok);
      ReadFirst(line, rest, ok);
      ReadAcrossNewline(rest, b, ok);
      Sequences.Regroup(Kept(line, ok), ReadBack(rest, ok), ReadBack(b, ok), []);
    }
  }

  lemma ReadLine(line: bytes, ok: Decoder)
    requires NEWLINE !in line
    ensures ReadBack(line, ok) == Kept(line, ok)
  {
  }

  /** What is read of a record's line when only `cut` bytes of it are there. */
  lemma ReadCutRecord(text: bytes, cut: nat, ok: Decoder)
    requires IsRecord(ok, text) && !ok([]) && cut <= |text| + 1
    ensures ReadBack((text + [NEWLINE])[..cut], ok) == if cut >= |text| then [text] else []
  {
    if cut <= |text| {
      assert (text + [NEWLINE])[..cut] == text[..cut];
      ReadLine(text[..cut], ok);
      assert text[..|text|] == text;
    } else {
      assert (text + [NEWLINE])[..cut] == text + [NEWLINE] + [];
      ReadAcrossNewline(text, [], ok);
      ReadLine(text, ok);
    }
  }

  // ---- The theorem ----------------------------------------------------------------

  /** The records whose text reached the file whole. */
  function Landed(file: bytes, w: Write): seq<bytes> {
    var r := |Repair(file, w)|;
    (if r > 0 && w.cut >= r - 1 then [w.report(|file|)] else [])
    + (if w.cut >= r + |w.text| then [w.text] else [])
  }

  ghost predicate WellFormed(w: Write, ok: Decoder) {
    IsRecord(ok, w.text) && forall n: nat :: IsRecord(ok, w.report(n))
  }

  lemma EndsInNewline(file: bytes)
    requires file != [] && TornOffset(file) == None
    ensures file == file[..|file| - 1] + [NEWLINE]
  {
  }

  lemma ReadAfterNewline(g: bytes, more: bytes, ok: Decoder)
    requires !ok([])
    ensures ReadBack(g + [NEWLINE] + more, ok) == ReadBack(g + [NEWLINE], ok) + ReadBack(more, ok)
  {
    ReadAcrossNewline(g, more, ok);
    ReadAcrossNewline(g, [], ok);
    assert g + [NEWLINE] + [] == g + [NEWLINE];
    assert ReadBack([], ok) == [];
    assert ReadBack(g, ok) + [] == ReadBack(g, ok);
  }

  /** What is appended to an untorn file reads on its own. */
  lemma ReadAfterClean(file: bytes, more: bytes, ok: Decoder)
    requires !ok([]) && TornOffset(file) == None
    ensures ReadBack(file + more, ok) == ReadBack(file, ok) + ReadBack(more, ok)
  {
    if file == [] {
      assert file + more == more;
    } else {
      EndsInNewline(file);
      ReadAfterNewline(file[..|file| - 1], more, ok);
    }
  }

  lemma CleanAppend(file: bytes, w: Write, ok: Decoder)
    requires WellFormed(w, ok) && !ok([]) && TornOffset(file) == None
    ensures ReadBack(Appended(file, w), ok) == ReadBack(file, ok) + Landed(file, w)
  {
    var line := w.text + [NEWLINE];
    var cut := if w.cut < |line| then w.cut else |line|;
    assert Payload(file, w) == line && Appended(file, w) == file + line[..cut];
    ReadCutRecord(w.text, cut, ok);
    ReadAfterClean(file, line[..cut], ok);
  }

  /** Two lines, cut anywhere. */
  lemma ReadCutPair(first: bytes, second: bytes, cut: nat, ok: Decoder)
    requires IsRecord(ok, first) && IsRecord(ok, second) && !ok([])
    requires cut <= |first| + |second| + 2
    ensures ReadBack(((first + [NEWLINE]) + (second + [NEWLINE]))[..cut], ok) ==
            (if cut >= |first| then [first] else []) + (if cut >= |first| + 1 + |second| then [second] else [])
  {
    var a, b := first + [NEWLINE], second + [NEWLINE];
    if cut <= |a| {
      assert (a + b)[..cut] == a[..cut];
      ReadCutRecord(first, cut, ok);
    } else {
      var more := cut - |a|;
      assert (a + b)[..cut] == first + [NEWLINE] + b[..more];
      ReadAcrossNewline(first, b[..more], ok);
      ReadLine(first, ok);
      ReadCutRecord(second, more, ok);
    }
  }

  /** A repairing append as far as it reaches the file, and what of it lands. */
  function Reached(file: bytes, first: bytes, second: bytes, cut: nat): bytes {
    var rest := (first + [NEWLINE]) + (second + [NEWLINE]);
    file + if cut <= |rest| then ([NEWLINE] + rest)[..cut] else [NEWLINE] + rest
  }

  function Whole(first: bytes, second: bytes, cut: nat): seq<bytes> {
    (if cut >= |first| + 1 then [first] else []) + (if cut >= |first| + |second| + 2 then [second] else [])
  }

  lemma TornPayload(file: bytes, w: Write)
    requires TornOffset(file).Some?
    ensures Appended(file, w) == Reached(file, w.report(|file|), w.text, w.cut)
    ensures Landed(file, w) == Whole(w.report(|file|), w.text, w.cut)
  {
  }

  lemma ReachedIsLines(file: bytes, first: bytes, second: bytes, cut: nat)
    requires cut > 0
    ensures var rest := (first + [NEWLINE]) + (second + [NEWLINE]);
            var more := if cut <= |rest| then cut - 1 else |rest|;
            Reached(file, first, second, cut) == file + [NEWLINE] + rest[..more]
  {
  }

  lemma ReadRepaired(file: bytes, first: bytes, second: bytes, cut: nat, ok: Decoder)
    requires IsRecord(ok, first) && IsRecord(ok, second) && !ok([])
    ensures ReadBack(Reached(file, first, second, cut), ok) == ReadBack(file, ok) + Whole(first, second, cut)
  {
    var rest := (first + [NEWLINE]) + (second + [NEWLINE]);
    if cut == 0 {
      assert Reached(file, first, second, cut) == file;
    } else {
      var more := if cut <= |rest| then cut - 1 else |rest|;
      ReachedIsLines(file, first, second, cut);
      ReadAcrossNewline(file, rest[..more], ok);
      ReadCutPair(first, second, more, ok);
    }
  }

  /** The repair's newline isolates the fragment; what follows reads on its own. */
  lemma TornAppend(file: bytes, w: Write, ok: Decoder)
    requires WellFormed(w, ok) && !ok([]) && TornOffset(file).Some?
    ensures ReadBack(Appended(file, w), ok) == ReadBack(file, ok) + Landed(file, w)
  {
    assert IsRecord(ok, w.report(|file|));
    TornPayload(file, w);
    ReadRepaired(file, w.report(|file|), w.text, w.cut, ok);
  }

  function Journalled(file: bytes, ws: seq<Write>): bytes {
    if ws == [] then file else Appended(Journalled(file, ws[..|ws| - 1]), ws[|ws| - 1])
  }

  function AllLanded(file: bytes, ws: seq<Write>): seq<bytes> {
    if ws == [] then [] else
    AllLanded(file, ws[..|ws| - 1]) + Landed(Journalled(file, ws[..|ws| - 1]), ws[|ws| - 1])
  }

  /** Whatever bytes each append of a run loses, reading back line by line gives
      what was there before and then, in order, exactly the records that landed
      whole: a tear costs no other record. */
  lemma {:induction false} NothingElseIsLost(file: bytes, ws: seq<Write>, ok: Decoder)
    requires !ok([]) && forall k :: 0 <= k < |ws| ==> WellFormed(ws[k], ok)
    ensures ReadBack(Journalled(file, ws), ok) == ReadBack(file, ok) + AllLanded(file, ws)
  {
    if ws != [] {
      var before := Journalled(file, ws[..|ws| - 1]);
      NothingElseIsLost(file, ws[..|ws| - 1], ok);
      assert WellFormed(ws[|ws| - 1], ok);
      if TornOffset(before) == None {
        CleanAppend(before, ws[|ws| - 1], ok);
      } else {
        TornAppend(before, ws[|ws| - 1], ok);
      }
    }
  }
}
