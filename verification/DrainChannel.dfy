/** `DrainChannel` of `thread.rs`: the close/reopen storage whose current
    generation a parked handler selects on. */
module DrainChannel {
  import opened Wrappers

  const WORD := 0x1_0000_0000_0000_0000

  /** `epoch` identifies the channel itself; the program only compares its
      wrapping 64-bit tag. `open` says that the sender is still held. */
  datatype Drain = Drain(epoch: nat, open: bool)

  function Tag(d: Drain): (t: nat)
    ensures t < WORD
  {
    d.epoch % WORD
  }

  const NEW_DRAIN := Drain(0, true)

  /** Taking the sender disconnects every receiver of this epoch; the returned
      tag is the ticket that reopening consumes. */
  function Close(d: Drain): (Drain, Option<nat>) {
    if d.open then (d.(open := false), Some(Tag(d))) else (d, None)
  }

  function Reopen(d: Drain, ticket: nat): Drain {
    if Tag(d) == ticket && !d.open then Drain(d.epoch + 1, true) else d
  }

  /** A receiver cloned at `epoch` reports a disconnect. */
  predicate Disconnected(d: Drain, epoch: nat) {
    epoch < d.epoch || (epoch == d.epoch && !d.open)
  }

  // ---- Runs -----------------------------------------------------------------

  datatype Op = CloseOp | ReopenOp(ticket: nat) | RenewOp

  /** A renewal is a close and, if it closed anything, a reopening. */
  function Apply(d: Drain, op: Op): Drain {
    match op
    case CloseOp => Close(d).0
    case ReopenOp(ticket) => Reopen(d, ticket)
    case RenewOp => match Close(d).1 case Some(ticket) => Reopen(Close(d).0, ticket) case None => d
  }

  function Run(d: Drain, ops: seq<Op>): Drain
    decreases |ops|
  {
    if ops == [] then d else Run(Apply(d, ops[0]), ops[1..])
  }

  lemma {:induction false} StaysDisconnected(d: Drain, epoch: nat, ops: seq<Op>)
    requires Disconnected(d, epoch)
    ensures Disconnected(Run(d, ops), epoch) && Run(d, ops).epoch >= d.epoch
    decreases |ops|
  {
    if ops != [] {
      StaysDisconnected(Apply(d, ops[0]), epoch, ops[1..]);
    }
  }

  /** Closing wakes every receiver handed out so far, and whatever is closed,
      reopened or renewed afterwards, none of them waits again: the epoch never
      falls. */
  lemma CloseWakesForGood(d: Drain, epoch: nat, ops: seq<Op>)
    requires d.open && epoch <= d.epoch
    ensures Disconnected(Run(Close(d).0, ops), epoch) && Run(Close(d).0, ops).epoch >= d.epoch
  {
    StaysDisconnected(Close(d).0, epoch, ops);
  }

  // ---- Tickets ----------------------------------------------------------------

  /** How often `ticket` reopened the channel. */
  function Reopened(d: Drain, ticket: nat, ops: seq<Op>): nat
    decreases |ops|
  {
    if ops == [] then 0 else
    (if ops[0] == ReopenOp(ticket) && Apply(d, ops[0]) != d then 1 else 0) + Reopened(Apply(d, ops[0]), ticket, ops[1..])
  }

  function Closings(ops: seq<Op>): nat {
    if ops == [] then 0 else (if ops[0].ReopenOp? then 0 else 1) + Closings(ops[1..])
  }

  /** Until the tag comes round again a spent ticket fits nothing. */
  lemma {:induction false} SpentTicketFitsNothing(d: Drain, epoch: nat, ops: seq<Op>)
    requires epoch < d.epoch && d.epoch - epoch + Closings(ops) < WORD + if d.open then 1 else 0
    ensures Reopened(d, epoch % WORD, ops) == 0
    decreases |ops|
  {
    if ops != [] {
      TagsDiffer(epoch, d.epoch);
      SpentTicketFitsNothing(Apply(d, ops[0]), epoch, ops[1..]);
    }
  }

  lemma TagsDiffer(a: nat, b: nat)
    requires a < b
    ensures b - a < WORD ==> a % WORD != b % WORD
  {
    if a % WORD == b % WORD {
      var q, r := a / WORD, b / WORD;
      assert b - a == (r - q) * WORD;
    }
  }

  /** The ticket of a closing reopens the channel exactly once, if it is presented
      at all, over any run of fewer than 2^64 closings, although tags wrap. */
  lemma {:induction false} TicketReopensOnce(d: Drain, ops: seq<Op>)
    requires d.open && Closings(ops) < WORD
    ensures Close(d).1 == Some(Tag(d))
    ensures Reopened(Close(d).0, Tag(d), ops) == if ReopenOp(Tag(d)) in ops then 1 else 0
    decreases |ops|
  {
    if ops != [] {
      var c := Close(d).0;
      if ops[0] == ReopenOp(Tag(d)) {
        SpentTicketFitsNothing(Apply(c, ops[0]), d.epoch, ops[1..]);
      } else {
        assert Apply(c, ops[0]) == c;
        TicketReopensOnce(d, ops[1..]);
        assert ReopenOp(Tag(d)) in ops <==> ReopenOp(Tag(d)) in ops[1..];
      }
    }
  }

  function Renewals(n: nat): seq<Op> {
    seq(n, _ => RenewOp)
  }

  lemma {:induction false} RenewalsAdvance(d: Drain, n: nat, ops: seq<Op>)
    requires d.open
    ensures Run(d, Renewals(n) + ops) == Run(Drain(d.epoch + n, true), ops)
    decreases n
  {
    if n == 0 {
      assert Renewals(0) + ops == ops;
    } else {
      assert (Renewals(n) + ops)[1..] == Renewals(n - 1) + ops;
      RenewalsAdvance(Apply(d, RenewOp), n - 1, ops);
    }
  }

  /** With 2^64 closings the bound is reached: the old ticket opens the channel of
      a later closing. */
  lemma TagsComeRound(d: Drain, n: nat)
    requires d.open && n == WORD
    ensures var closed := Run(d, Renewals(n) + [CloseOp]);
            !closed.open && closed.epoch == d.epoch + n && Reopen(closed, Tag(d)) != closed
  {
    RenewalsAdvance(d, n, [CloseOp]);
    AddingWord(d.epoch);
    assert [CloseOp][1..] == [];
  }

  lemma AddingWord(a: nat)
    ensures (a + WORD) % WORD == a % WORD
  {
  }

  class Channel {
    var current: Drain

    constructor ()
      ensures current == NEW_DRAIN
    {
      current := NEW_DRAIN;
    }

    method CloseCurrent() returns (ticket: Option<nat>)
      modifies this
      ensures (current, ticket) == Close(old(current))
    {
      if !current.open {
        return None;
      }
      current := current.(open := false);
      ticket := Some(current.epoch % WORD);
    }

    method ReopenAfter(ticket: nat)
      modifies this
      ensures current == Reopen(old(current), ticket)
    {
      if current.epoch % WORD == ticket && !current.open {
        current := Drain(current.epoch + 1, true);
      }
    }

    /** Close and reopen: a later boot starts on a channel nobody holds. */
    method Renew()
      modifies this
      ensures current == if old(current).open then Drain(old(current).epoch + 1, true) else old(current)
    {
      var closed := CloseCurrent();
      if closed.Some? {
        ReopenAfter(closed.value);
      }
    }
  }
}
