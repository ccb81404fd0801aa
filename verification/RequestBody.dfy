/** `RequestBody::fill` of `context.rs`: many short reads look to PHP like one. */
module RequestBody {
  import opened Bytes
  import Sequences

  /** What one `read` of the transport answers. `extra` is how far the reported
      count exceeds the bytes written; an empty honest chunk is end of body. */
  datatype Answer = Chunk(data: bytes, extra: nat) | Interrupted | Failed

  datatype Reply = Ok(count: nat) | Retry | Broken

  function Min(a: nat, b: nat): nat { if a < b then a else b }

  /** The body a reader can still get: everything up to the first end or error.
      Interruptions are invisible. */
  function Stream(answers: seq<Answer>): bytes {
    if answers == [] then [] else
    match answers[0]
    case Chunk(data, _) => if data == [] then [] else data + Stream(answers[1..])
    case Interrupted => Stream(answers[1..])
    case Failed => []
  }

  predicate Honest(answers: seq<Answer>) {
    forall k :: 0 <= k < |answers| && answers[k].Chunk? ==> answers[k].extra == 0
  }

  /** The bytes and interruptions still to come. */
  function Size(answers: seq<Answer>): nat {
    if answers == [] then 0 else
    1 + (if answers[0].Chunk? then |answers[0].data| else 0) + Size(answers[1..])
  }

  /** What of a chunk does not fit. */
  function PutBack(data: bytes, n: nat): seq<Answer>
    requires n <= |data|
  {
    if n < |data| then [Chunk(data[n..], 0)] else []
  }

  /** A chunk of which `n` bytes are taken. */
  lemma ChunkTaken(data: bytes, n: nat, rest: seq<Answer>)
    requires n <= |data| && (data != [] ==> n > 0)
    ensures var left := PutBack(data, n) + rest;
            && (data != [] ==> data + Stream(rest) == data[..n] + Stream(left))
            && Size(left) < 1 + |data| + Size(rest)
            && (Honest(rest) ==> Honest(left))
  {
    if n < |data| {
      assert (PutBack(data, n) + rest)[1..] == rest;
      Sequences.Rejoin(data, n, 0);
      Sequences.Regroup(data[..n], data[n..], Stream(rest), []);
    } else {
      assert PutBack(data, n) + rest == rest && data[..n] == data;
    }
  }

  /** `buf[from..from + n].copy_from_slice(&data[..n])`. */
  method CopyInto(buf: array<byte>, from: nat, data: bytes, n: nat)
    requires n <= |data| && from + n <= buf.Length
    modifies buf
    ensures buf[..from] == old(buf[..from]) && buf[from + n..] == old(buf[from + n..])
    ensures buf[from..from + n] == data[..n]
  {
    forall k | 0 <= k < n { buf[from + k] := data[k]; }
  }

  class Source {
    var answers: seq<Answer>

    constructor (script: seq<Answer>)
      ensures answers == script
    {
      answers := script;
    }

    /** One `Read::read` into `buf[from..]`. What does not fit stays; an honest
        answer hands over the next bytes of the body, or says there are none. */
    method Read(buf: array<byte>, from: nat) returns (reply: Reply)
      requires from < buf.Length
      modifies this, buf
      ensures buf[..from] == old(buf[..from])
      ensures reply != Ok(0) ==> Size(answers) < Size(old(answers))
      ensures Honest(old(answers)) ==>
                var n := if reply.Ok? then reply.count else 0;
                && Honest(answers)
                && n <= buf.Length - from
                && buf[from + n..] == old(buf[from + n..])
                && Stream(old(answers)) == buf[from..from + n] + if reply.Broken? || reply == Ok(0) then [] else Stream(answers)
    {
      if answers == [] {
        return Ok(0);
      }
      match answers[0] {
        case Interrupted =>
          reply, answers := Retry, answers[1..];
        case Failed =>
          reply, answers := Broken, answers[1..];
        case Chunk(data, extra) =>
          var n := Min(|data|, buf.Length - from);
          CopyInto(buf, from, data, n);
          ChunkTaken(data, n, answers[1..]);
          reply, answers := Ok(n + extra), PutBack(data, n) + answers[1..];
      }
    }
  }

  lemma Advanced(b: bytes, filled: nat, n: nat, before: bytes, after: bytes)
    requires filled + n <= |b| && before == b[filled..filled + n] + after
    ensures b[..filled] + before == b[..filled + n] + after
  {
  }

  /** One turn of the loop: the bytes it adds come off what was left of the body,
      and where it stops nothing is left. */
  method Turn(source: Source, buf: array<byte>, filled: nat) returns (longer: nat, more: bool)
    requires filled < buf.Length
    modifies source, buf
    ensures filled <= longer <= buf.Length
    ensures if more then Size(source.answers) < Size(old(source.answers)) else longer == filled
    ensures Honest(old(source.answers)) ==>
              && Honest(source.answers)
              && buf[..filled] == old(buf[..filled])
              && buf[longer..] == old(buf[longer..])
              && buf[..longer] + (if more then Stream(source.answers) else []) == old(buf[..filled] + Stream(source.answers))
  {
    ghost var honest, before := Honest(source.answers), Stream(source.answers);
    var remaining := buf.Length - filled;
    longer, more := filled, true;
    var reply := source.Read(buf, filled);
    match reply {
      case Ok(n) =>
        if honest && n > 0 { Advanced(buf[..], filled, n, before, Stream(source.answers)); }
        longer, more := filled + Min(n, remaining), n > 0;
      case Retry =>
      case Broken =>
        more := false;
    }
  }

  /** Fills the buffer or reaches the end. The count never exceeds the buffer,
      whatever the transport claims; over an honest transport the buffer holds
      the next bytes of the body, a count short of the buffer means there are no
      more, and a full buffer leaves exactly the rest for the next call. */
  method Fill(source: Source, buf: array<byte>) returns (filled: nat)
    modifies source, buf
    ensures filled <= buf.Length
    ensures Honest(old(source.answers)) ==>
              var body := Stream(old(source.answers));
              && Honest(source.answers)
              && filled == Min(buf.Length, |body|)
              && buf[..filled] == body[..filled]
              && buf[filled..] == old(buf[filled..])
              && (filled == buf.Length ==> Stream(source.answers) == body[filled..])
  {
    filled := 0;
    var more := true;
    ghost var honest, left := Honest(source.answers), Stream(source.answers);
    while filled < buf.Length && more
      invariant filled <= buf.Length
      invariant honest ==> Honest(source.answers) && left == if more then Stream(source.answers) else []
      invariant honest ==> buf[..filled] + left == Stream(old(source.answers))
      invariant honest ==> buf[filled..] == old(buf[filled..])
      invariant !more ==> filled < buf.Length
      decreases more, Size(source.answers)
    {
      filled, more := Turn(source, buf, filled);
      left := if more then Stream(source.answers) else [];
    }
  }

  lemma {:induction false} StreamAfter(before: seq<Answer>, a: seq<Answer>, b: seq<Answer>)
    requires Stream(a) == Stream(b)
    ensures Stream(before + a) == Stream(before + b)
  {
    if before == [] {
      assert before + a == a && before + b == b;
    } else {
      StreamAfter(before[1..], a, b);
      assert (before + a)[1..] == before[1..] + a && (before + b)[1..] == before[1..] + b;
    }
  }

  lemma StreamFirst(first: Answer, rest: seq<Answer>)
    ensures first.Interrupted? ==> Stream([first] + rest) == Stream(rest)
    ensures first.Chunk? && first.data != [] ==> Stream([first] + rest) == first.data + Stream(rest)
  {
  }

  /** The body does not depend on how the transport cuts it up: splitting a
      chunk, or interrupting between two reads, changes nothing that `Fill`
      promises. */
  lemma FragmentationIsInvisible(before: seq<Answer>, x: bytes, y: bytes, after: seq<Answer>)
    requires x != [] && y != []
    ensures Stream(before + ([Chunk(x + y, 0)] + after)) ==
            Stream(before + ([Chunk(x, 0)] + ([Interrupted] + ([Chunk(y, 0)] + after))))
  {
    var last := [Chunk(y, 0)] + after;
    StreamFirst(Chunk(x + y, 0), after);
    StreamFirst(Chunk(y, 0), after);
    StreamFirst(Interrupted, last);
    StreamFirst(Chunk(x, 0), [Interrupted] + last);
    StreamAfter(before, [Chunk(x + y, 0)] + after, [Chunk(x, 0)] + ([Interrupted] + last));
  }
}
