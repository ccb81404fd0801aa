/** `escape_for_log_line` of `callbacks/log.rs`: a log message can neither break
    its line nor be mistaken for another. */
module LogLine {
  import opened Wrappers
  import opened Bytes
  import Hexadecimal
  import Sequences

  function EscapeByte(b: byte): string {
    if b == BACKSLASH then ['\\', '\\']
    else if b == 10 then ['\\', 'n']
    else if b == 13 then ['\\', 'r']
    else if b == 9 then ['\\', 't']
    else if 0x20 <= b <= 0x7e then [b as char]
    else ['\\', 'x'] + Hexadecimal.Hex(b as nat, 2)
  }

  function Escaped(s: bytes): string {
    if s == [] then [] else EscapeByte(s[0]) + Escaped(s[1..])
  }

  method EscapeForLogLine(s: bytes) returns (out: string)
    ensures out == Escaped(s)
  {
    out := [];
    for k := 0 to |s|
      invariant out + Escaped(s[k..]) == Escaped(s)
    {
      assert s[k..][1..] == s[k + 1..];
      Sequences.Regroup(out, EscapeByte(s[k]), Escaped(s[k + 1..]), []);
      out := out + EscapeByte(s[k]);
    }
  }

  // ---- Reading it back ------------------------------------------------------

  datatype Read = Read(value: byte, rest: string)

  function ReadHex(t: string): Option<Read> {
    if |t| < 4 then None else
    match Hexadecimal.HexValue(t[2..4])
    case Some(n) => if n < 256 then Some(Read(n as byte, t[4..])) else None
    case None => None
  }

  function ReadPiece(t: string): Option<Read>
    requires t != []
  {
    if t[0] != '\\' then (if t[0] as int < 256 then Some(Read(t[0] as int as byte, t[1..])) else None)
    else if |t| < 2 then None
    else match t[1]
      case '\\' => Some(Read(BACKSLASH, t[2..]))
      case 'n' => Some(Read(10, t[2..]))
      case 'r' => Some(Read(13, t[2..]))
      case 't' => Some(Read(9, t[2..]))
      case 'x' => ReadHex(t)
      case _ => None
  }

  function Unescape(t: string): Option<bytes>
    decreases |t|
  {
    if t == [] then Some([]) else
    match ReadPiece(t)
    case None => None
    case Some(piece) =>
      if |piece.rest| >= |t| then None else
      match Unescape(piece.rest) case None => None case Some(more) => Some([piece.value] + more)
  }

  lemma ReadsHex(b: byte, tail: string)
    ensures ReadPiece(['\\', 'x'] + Hexadecimal.Hex(b as nat, 2) + tail) == Some(Read(b, tail))
  {
    var t := ['\\', 'x'] + Hexadecimal.Hex(b as nat, 2) + tail;
    Hexadecimal.Powers();
    Hexadecimal.HexRoundTrip(b as nat, 2);
    assert t[2..4] == Hexadecimal.Hex(b as nat, 2) && t[4..] == tail;
  }

  lemma ReadsByte(b: byte, tail: string)
    ensures ReadPiece(EscapeByte(b) + tail) == Some(Read(b, tail))
  {
    if |EscapeByte(b)| == 4 {
      ReadsHex(b, tail);
    } else {
      var t := EscapeByte(b) + tail;
      assert t[|EscapeByte(b)|..] == tail;
    }
  }

  lemma ReadOn(piece: string, b: byte, more: string)
    requires piece != [] && ReadPiece(piece + more) == Some(Read(b, more))
    ensures Unescape(more).Some? ==> Unescape(piece + more) == Some([b] + Unescape(more).value)
  {
  }

  lemma {:induction false} UnescapeInverts(s: bytes)
    ensures Unescape(Escaped(s)) == Some(s)
  {
    if s != [] {
      UnescapeInverts(s[1..]);
      ReadsByte(s[0], Escaped(s[1..]));
      ReadOn(EscapeByte(s[0]), s[0], Escaped(s[1..]));
      Sequences.HeadAndTail(s);
    }
  }

  /** No two messages look alike in the log. */
  lemma EscapeIsInjective(s: bytes, t: bytes)
    requires Escaped(s) == Escaped(t)
    ensures s == t
  {
    UnescapeInverts(s);
    UnescapeInverts(t);
  }

  lemma HexIsPrintable(n: nat, w: nat)
    ensures forall k :: 0 <= k < w ==> ' ' <= Hexadecimal.Hex(n, w)[k] <= '~'
  {
  }

  /** Nothing but printable ASCII is written: no line break, no control byte. */
  lemma {:induction false} EscapedIsPrintable(s: bytes)
    ensures forall k :: 0 <= k < |Escaped(s)| ==> ' ' <= Escaped(s)[k] <= '~'
  {
    if s != [] {
      EscapedIsPrintable(s[1..]);
      HexIsPrintable(s[0] as nat, 2);
      assert forall k :: 0 <= k < |EscapeByte(s[0])| ==> ' ' <= EscapeByte(s[0])[k] <= '~';
    }
  }

  /** Printable text without backslashes is readable as it stands. */
  lemma {:induction false} PrintableIsVerbatim(s: bytes)
    requires forall k :: 0 <= k < |s| ==> 0x20 <= s[k] <= 0x7e && s[k] != BACKSLASH
    ensures |Escaped(s)| == |s| && forall k :: 0 <= k < |s| ==> Escaped(s)[k] == s[k] as char
  {
    if s != [] {
      PrintableIsVerbatim(s[1..]);
    }
  }
}
