/** `go_quote` of `context.rs`: Go's `%q` over a byte string. */
module Quote {
  import opened Wrappers
  import opened Bytes
  import opened Utf8
  import Hexadecimal
  import Sequences

  // ---- One rune -----------------------------------------------------------

  /** The letter of a named escape. */
  function Named(c: char): Option<char> {
    var n := c as int;
    if n == 7 then Some('a') else if n == 8 then Some('b') else if n == 12 then Some('f')
    else if n == 10 then Some('n') else if n == 13 then Some('r') else if n == 9 then Some('t')
    else if n == 11 then Some('v') else None
  }

  function Numeric(c: char): string {
    var n := c as int;
    if n < 0x20 || n == 0x7f then ['\\', 'x'] + Hexadecimal.Hex(n, 2)
    else if n < 0x1_0000 then ['\\', 'u'] + Hexadecimal.Hex(n, 4)
    else ['\\', 'U'] + Hexadecimal.Hex(n, 8)
  }

  function QuoteRune(c: char, printable: char -> bool): string {
    if c == '\"' || c == '\\' then ['\\', c]
    else if printable(c) then [c]
    else match Named(c) case Some(letter) => ['\\', letter] case None => Numeric(c)
  }

  function QuoteByte(b: byte): string {
    ['\\', 'x'] + Hexadecimal.Hex(b as nat, 2)
  }

  // ---- The whole string ---------------------------------------------------

  /** Rune by rune; a byte that starts no well-formed sequence is escaped alone. */
  function Escaped(s: bytes, printable: char -> bool): string
    decreases |s|
  {
    if s == [] then [] else
    match Decode(s)
    case Some(r) => QuoteRune(r.c, printable) + Escaped(s[r.width..], printable)
    case None => QuoteByte(s[0]) + Escaped(s[1..], printable)
  }

  function QuoteRunes(t: string, printable: char -> bool): string {
    if t == [] then [] else QuoteRune(t[0], printable) + QuoteRunes(t[1..], printable)
  }

  lemma QuoteFirst(c: char, t: string, printable: char -> bool)
    ensures QuoteRunes([c] + t, printable) == QuoteRune(c, printable) + QuoteRunes(t, printable)
  {
  }

  lemma {:induction false} CharsOfValidPrefix(s: bytes)
    ensures Chars(s[..ValidUpTo(s)]) == Chars(s)
    decreases |s|
  {
    match Decode(s) {
      case None =>
      case Some(r) =>
        var rest, valid := s[r.width..], s[..ValidUpTo(s)];
        DecodeInvertsEncode(s, r.c);
        DecodeInvertsEncode(valid, r.c);
        assert valid[r.width..] == rest[..ValidUpTo(rest)];
        CharsOfValidPrefix(rest);
    }
  }

  lemma {:induction false} EscapedInRuns(s: bytes, printable: char -> bool)
    ensures Escaped(s, printable) == QuoteRunes(Chars(s), printable) + Escaped(s[ValidUpTo(s)..], printable)
    decreases |s|
  {
    match Decode(s) {
      case None =>
        assert s[0..] == s;
      case Some(r) =>
        var rest := s[r.width..];
        EscapedInRuns(rest, printable);
        QuoteFirst(r.c, Chars(rest), printable);
        Sequences.Regroup(QuoteRune(r.c, printable), QuoteRunes(Chars(rest), printable), Escaped(rest[ValidUpTo(rest)..], printable), []);
        assert s[ValidUpTo(s)..] == rest[ValidUpTo(rest)..];
    }
  }

  method PushRunes(out: string, t: string, printable: char -> bool) returns (r: string)
    ensures r == out + QuoteRunes(t, printable)
  {
    r := out;
    for k := 0 to |t|
      invariant r + QuoteRunes(t[k..], printable) == out + QuoteRunes(t, printable)
    {
      assert t[k..] == [t[k]] + t[k + 1..];
      QuoteFirst(t[k], t[k + 1..], printable);
      Sequences.Regroup(r, QuoteRune(t[k], printable), QuoteRunes(t[k + 1..], printable), []);
      r := r + QuoteRune(t[k], printable);
    }
  }

  /** One turn of the outer loop: a valid run, and what remains after it. */
  lemma EscapedTurn(s: bytes, printable: char -> bool)
    ensures var run := QuoteRunes(Chars(s), printable);
            var invalid := s[ValidUpTo(s)..];
            Escaped(s, printable) ==
              if invalid == [] then run else run + QuoteByte(invalid[0]) + Escaped(invalid[1..], printable)
  {
    EscapedInRuns(s, printable);
    ValidPrefix(s);
    var invalid := s[ValidUpTo(s)..];
    if invalid != [] {
      Sequences.Regroup(QuoteRunes(Chars(s), printable), QuoteByte(invalid[0]), Escaped(invalid[1..], printable), []);
    }
  }

  /** Run by run: the longest valid prefix at once, then the byte that ended it. */
  method GoQuote(s: bytes, printable: char -> bool) returns (out: string)
    ensures out == ['\"'] + Escaped(s, printable) + ['\"']
  {
    out := ['\"'];
    var rest := s;
    while rest != []
      invariant out + Escaped(rest, printable) == ['\"'] + Escaped(s, printable)
      decreases |rest|
    {
      var validUpTo := ValidUpTo(rest);
      EscapedTurn(rest, printable);
      CharsOfValidPrefix(rest);
      ghost var before, run := out, QuoteRunes(Chars(rest), printable);
      out := PushRunes(out, Chars(rest[..validUpTo]), printable);
      if validUpTo == |rest| {
        rest := [];
        break;
      }
      var invalid := rest[validUpTo..];
      out := out + QuoteByte(invalid[0]);
      rest := invalid[1..];
      Sequences.Regroup(before, run, QuoteByte(invalid[0]), Escaped(rest, printable));
    }
    out := out + ['\"'];
  }

  // ---- Reading it back ----------------------------------------------------

  /** What was read, and the text after it. */
  datatype Read = Read(value: bytes, rest: string)

  predicate IsScalar(n: int) {
    0 <= n < 0xD800 || 0xE000 <= n < 0x11_0000
  }

  function ReadNumber(t: string, w: nat): Option<nat> {
    if |t| < 2 + w then None else Hexadecimal.HexValue(t[2..2 + w])
  }

  function ReadScalar(t: string, w: nat): Option<Read> {
    match ReadNumber(t, w)
    case Some(n) => if IsScalar(n) then Some(Read(Encode(n as char), t[2 + w..])) else None
    case None => None
  }

  function ReadByte(t: string): Option<Read> {
    match ReadNumber(t, 2)
    case Some(n) => if n < 256 then Some(Read([n as byte], t[4..])) else None
    case None => None
  }

  /** The byte a named escape stands for. */
  function NamedByte(letter: char): Option<byte> {
    match letter
    case 'a' => Some(7) case 'b' => Some(8) case 'f' => Some(12) case 'n' => Some(10)
    case 'r' => Some(13) case 't' => Some(9) case 'v' => Some(11)
    case '\"' => Some(QUOTE) case '\\' => Some(BACKSLASH)
    case _ => None
  }

  /** One literal character or one escape. */
  function ReadPiece(t: string): Option<Read>
    requires t != []
  {
    if t[0] != '\\' then Some(Read(Encode(t[0]), t[1..]))
    else if |t| < 2 then None
    else if t[1] == 'x' then ReadByte(t)
    else if t[1] == 'u' then ReadScalar(t, 4)
    else if t[1] == 'U' then ReadScalar(t, 8)
    else match NamedByte(t[1]) case Some(b) => Some(Read([b], t[2..])) case None => None
  }

  /** Up to and including the closing quote. */
  function ReadPieces(t: string): Option<Read>
    decreases |t|
  {
    if t == [] then None
    else if t[0] == '\"' then Some(Read([], t[1..]))
    else match ReadPiece(t)
    case None => None
    case Some(piece) =>
      if |piece.rest| >= |t| then None else
      match ReadPieces(piece.rest)
      case None => None
      case Some(more) => Some(Read(piece.value + more.value, more.rest))
  }

  function Unquote(t: string): Option<Read> {
    if t != [] && t[0] == '\"' then ReadPieces(t[1..]) else None
  }

  lemma ReadsNumber(n: nat, w: nat, mark: char, tail: string)
    requires n < Hexadecimal.Power16(w)
    ensures var t := ['\\', mark] + Hexadecimal.Hex(n, w) + tail;
            ReadNumber(t, w) == Some(n) && t[2 + w..] == tail
  {
    var t := ['\\', mark] + Hexadecimal.Hex(n, w) + tail;
    Hexadecimal.HexRoundTrip(n, w);
    assert t[2..2 + w] == Hexadecimal.Hex(n, w);
  }

  lemma ReadsByte(b: byte, tail: string)
    ensures ReadPiece(QuoteByte(b) + tail) == Some(Read([b], tail))
  {
    Hexadecimal.Powers();
    ReadsNumber(b as nat, 2, 'x', tail);
  }

  lemma ReadsNumeric(c: char, tail: string)
    ensures ReadPiece(Numeric(c) + tail) == Some(Read(Encode(c), tail))
  {
    var n := c as int;
    Hexadecimal.Powers();
    if n < 0x20 || n == 0x7f {
      ReadsByte(n as byte, tail);
    } else if n < 0x1_0000 {
      ReadsNumber(n, 4, 'u', tail);
    } else {
      ReadsNumber(n, 8, 'U', tail);
    }
  }

  lemma ReadsRune(c: char, printable: char -> bool, tail: string)
    ensures QuoteRune(c, printable)[0] != '\"'
    ensures ReadPiece(QuoteRune(c, printable) + tail) == Some(Read(Encode(c), tail))
  {
    if c != '\"' && c != '\\' && !printable(c) && Named(c) == None {
      ReadsNumeric(c, tail);
    } else {
      var t := QuoteRune(c, printable) + tail;
      assert t[|QuoteRune(c, printable)|..] == tail;
    }
  }

  lemma ReadOn(piece: string, value: bytes, more: string)
    requires piece != [] && piece[0] != '\"' && ReadPiece(piece + more) == Some(Read(value, more))
    ensures ReadPieces(more).Some? ==>
              ReadPieces(piece + more) == Some(Read(value + ReadPieces(more).value.value, ReadPieces(more).value.rest))
  {
  }

  lemma EscapedRune(s: bytes, printable: char -> bool, end: string)
    requires Decode(s).Some?
    ensures var r := Decode(s).value;
            Escaped(s, printable) + end == QuoteRune(r.c, printable) + (Escaped(s[r.width..], printable) + end)
  {
  }

  lemma EscapedByte(s: bytes, printable: char -> bool, end: string)
    requires s != [] && Decode(s) == None
    ensures Escaped(s, printable) + end == QuoteByte(s[0]) + (Escaped(s[1..], printable) + end)
  {
  }

  lemma RuneReadBack(s: bytes, printable: char -> bool, end: string, tail: string)
    requires Decode(s).Some?
    requires ReadPieces(Escaped(s[Decode(s).value.width..], printable) + end) == Some(Read(s[Decode(s).value.width..], tail))
    ensures ReadPieces(Escaped(s, printable) + end) == Some(Read(s, tail))
  {
    var r := Decode(s).value;
    var more := Escaped(s[r.width..], printable) + end;
    ReadsRune(r.c, printable, more);
    EscapedRune(s, printable, end);
    ReadOn(QuoteRune(r.c, printable), Encode(r.c), more);
    DecodedIsEncoding(s);
    Sequences.Rejoin(s, r.width, 0);
  }

  lemma ByteReadBack(s: bytes, printable: char -> bool, end: string, tail: string)
    requires s != [] && Decode(s) == None
    requires ReadPieces(Escaped(s[1..], printable) + end) == Some(Read(s[1..], tail))
    ensures ReadPieces(Escaped(s, printable) + end) == Some(Read(s, tail))
  {
    var more := Escaped(s[1..], printable) + end;
    ReadsByte(s[0], more);
    EscapedByte(s, printable, end);
    ReadOn(QuoteByte(s[0]), [s[0]], more);
    Sequences.HeadAndTail(s);
  }

  /** A quoted string is read back byte for byte, whatever bytes it was made of,
      valid UTF-8 or not, whatever `printable` accepts, and whatever text
      follows the closing quote. */
  lemma {:induction false} QuoteIsReversible(s: bytes, printable: char -> bool, tail: string)
    ensures ReadPieces(Escaped(s, printable) + (['\"'] + tail)) == Some(Read(s, tail))
    decreases |s|
  {
    var end := ['\"'] + tail;
    if s == [] {
      assert Escaped(s, printable) + end == end && end[1..] == tail;
    } else {
      match Decode(s) {
        case Some(r) =>
          QuoteIsReversible(s[r.width..], printable, tail);
          RuneReadBack(s, printable, end, tail);
        case None =>
          QuoteIsReversible(s[1..], printable, tail);
          ByteReadBack(s, printable, end, tail);
      }
    }
  }

  lemma UnquoteInvertsGoQuote(s: bytes, printable: char -> bool)
    ensures Unquote(['\"'] + Escaped(s, printable) + ['\"']) == Some(Read(s, []))
  {
    var t := ['\"'] + Escaped(s, printable) + ['\"'];
    QuoteIsReversible(s, printable, []);
    assert t[1..] == Escaped(s, printable) + (['\"'] + []);
  }

  // ---- What may appear in it --------------------------------------------------

  predicate Clean(t: string, printable: char -> bool) {
    forall k :: 0 <= k < |t| ==> '!' <= t[k] <= '~' || printable(t[k])
  }

  lemma HexIsClean(n: nat, w: nat, printable: char -> bool)
    ensures Clean(Hexadecimal.Hex(n, w), printable)
  {
  }

  lemma CleanParts(a: string, b: string, printable: char -> bool)
    requires Clean(a, printable) && Clean(b, printable)
    ensures Clean(a + b, printable)
  {
  }

  lemma NumericIsClean(c: char, printable: char -> bool)
    ensures Clean(Numeric(c), printable)
  {
    var n := c as int;
    HexIsClean(n, 2, printable);
    HexIsClean(n, 4, printable);
    HexIsClean(n, 8, printable);
    CleanParts(['\\', 'x'], Hexadecimal.Hex(n, 2), printable);
    CleanParts(['\\', 'u'], Hexadecimal.Hex(n, 4), printable);
    CleanParts(['\\', 'U'], Hexadecimal.Hex(n, 8), printable);
  }

  lemma RuneIsClean(c: char, printable: char -> bool)
    ensures Clean(QuoteRune(c, printable), printable)
  {
    NumericIsClean(c, printable);
  }

  /** With a predicate that rejects control characters, none is written. */
  lemma {:induction false} EscapedIsClean(s: bytes, printable: char -> bool)
    ensures Clean(Escaped(s, printable), printable)
    decreases |s|
  {
    match Decode(s) {
      case Some(r) =>
        EscapedIsClean(s[r.width..], printable);
        RuneIsClean(r.c, printable);
      case None =>
        if s != [] {
          EscapedIsClean(s[1..], printable);
          HexIsClean(s[0] as nat, 2, printable);
        }
    }
  }

  lemma PrintableFirst(c: char, rest: bytes, printable: char -> bool)
    requires printable(c) && c != '\"' && c != '\\'
    ensures Escaped(Encode(c) + rest, printable) == [c] + Escaped(rest, printable)
  {
    DecodeFindsEncoding(c, rest);
    Sequences.Around([], Encode(c), rest);
    assert [] + Encode(c) + rest == Encode(c) + rest;
  }

  /** Printable text other than quotes and backslashes is left as it is. */
  lemma {:induction false} PrintableIsVerbatim(t: string, printable: char -> bool)
    requires forall k :: 0 <= k < |t| ==> printable(t[k]) && t[k] != '\"' && t[k] != '\\'
    ensures Escaped(EncodeAll(t), printable) == t
  {
    if t != [] {
      var rest := EncodeAll(t[1..]);
      PrintableIsVerbatim(t[1..], printable);
      PrintableFirst(t[0], rest, printable);
      Sequences.HeadAndTail(t);
    }
  }
}
