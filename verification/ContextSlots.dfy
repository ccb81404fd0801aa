/** The per-thread context slots of `context.rs`: one mutex a slot, and the
    thread-local flag that refuses a second one. */
module ContextSlots {
  import opened Wrappers

  // ---- One context ----------------------------------------------------------

  class RequestContext {
    var isDone: bool
    var clientHadClosed: bool
    var pending: bool      // the completion signal still holds its closure
    var fires: nat         // how often that closure ran

    ghost predicate Valid()
      reads this
    {
      (isDone ==> !pending) && fires == if pending then 0 else 1
    }

    constructor ()
      ensures Valid() && !isDone && fires == 0
    {
      isDone, clientHadClosed, pending, fires := false, false, true, 0;
    }

    method Fire()
      requires Valid()
      modifies this`pending, this`fires
      ensures Valid() && !pending && fires == 1
    {
      if pending {
        pending := false;
        fires := fires + 1;
      }
    }

    /** The client's state is the one at the first call; the waiter is woken by
        it and by no later one. */
    method CloseContext(clientClosed: bool)
      requires Valid()
      modifies this
      ensures Valid() && isDone && fires == 1
      ensures clientHadClosed == if old(isDone) then old(clientHadClosed) else clientClosed
    {
      if isDone {
        return;
      }
      clientHadClosed := clientClosed;
      Fire();
      isDone := true;
    }
  }

  // ---- Threads and locks --------------------------------------------------------

  /** The slot locks a thread holds, innermost last, and the one it blocks on. */
  datatype Thread = Thread(held: seq<nat>, wants: Option<nat>)

  /** `guarded` is whether `SingleSlotGuard` is in force. */
  datatype Table = Table(threads: seq<Thread>, guarded: bool)

  datatype Event = Enter(t: nat, slot: nat) | Lock(t: nat) | Leave(t: nat)

  function Fresh(size: nat, guarded: bool): Table {
    Table(seq(size, _ => Thread([], None)), guarded)
  }

  ghost predicate Locked(m: Table, slot: nat) {
    exists t :: 0 <= t < |m.threads| && slot in m.threads[t].held
  }

  /** Between entering and leaving, the thread-local flag is up. */
  predicate Flag(th: Thread) {
    th.wants.Some? || th.held != []
  }

  ghost predicate Enabled(m: Table, e: Event) {
    && e.t < |m.threads|
    && var th := m.threads[e.t];
       match e
       case Enter(_, _) => th.wants == None
       case Lock(_) => th.wants.Some? && !Locked(m, th.wants.value)
       case Leave(_) => th.wants == None && th.held != []
  }

  /** A guarded second entry panics before it touches a mutex, and unwinding
      releases what the thread held. */
  function After(th: Thread, guarded: bool, e: Event): Thread
    requires match e case Enter(_, _) => true case Lock(_) => th.wants.Some? case Leave(_) => th.held != []
  {
    match e
    case Enter(_, slot) => if guarded && Flag(th) then Thread([], None) else th.(wants := Some(slot))
    case Lock(_) => Thread(th.held + [th.wants.value], None)
    case Leave(_) => th.(held := th.held[..|th.held| - 1])
  }

  ghost function Step(m: Table, e: Event): Table
    requires Enabled(m, e)
  {
    m.(threads := m.threads[e.t := After(m.threads[e.t], m.guarded, e)])
  }

  ghost predicate Possible(m: Table, es: seq<Event>)
    decreases |es|
  {
    es != [] ==> Enabled(m, es[0]) && Possible(Step(m, es[0]), es[1..])
  }

  ghost function Outcome(m: Table, es: seq<Event>): Table
    requires Possible(m, es)
    decreases |es|
  {
    if es == [] then m else Outcome(Step(m, es[0]), es[1..])
  }

  ghost predicate Exclusive(m: Table) {
    && (forall t, u, s :: 0 <= t < u < |m.threads| && s in m.threads[t].held ==> s !in m.threads[u].held)
    && (m.guarded ==> forall t :: 0 <= t < |m.threads| ==>
          |m.threads[t].held| <= 1 && (m.threads[t].wants.Some? ==> m.threads[t].held == []))
  }

  lemma StepKeepsExclusive(m: Table, e: Event)
    requires Exclusive(m) && Enabled(m, e)
    ensures Exclusive(Step(m, e))
  {
  }

  lemma {:induction false} RunKeepsExclusive(m: Table, es: seq<Event>)
    requires Exclusive(m) && Possible(m, es)
    ensures Exclusive(Outcome(m, es)) && Outcome(m, es).guarded == m.guarded
    ensures |Outcome(m, es).threads| == |m.threads|
    decreases |es|
  {
    if es != [] {
      StepKeepsExclusive(m, es[0]);
      RunKeepsExclusive(Step(m, es[0]), es[1..]);
    }
  }

  /** Nobody can go on. */
  ghost predicate Stuck(m: Table, t: nat) {
    !Enabled(m, Lock(t)) && !Enabled(m, Leave(t))
  }

  /** With the guard, in every run: a slot has one holder, and a blocked thread
      waits for a thread that is itself not blocked, so there is no cycle. */
  lemma GuardPreventsDeadlock(size: nat, es: seq<Event>, t: nat) returns (u: nat)
    requires Possible(Fresh(size, true), es) && t < size
    ensures var m := Outcome(Fresh(size, true), es);
            && Exclusive(m) && |m.threads| == size
            && (Flag(m.threads[t]) ==> u < size && !Stuck(m, u))
            && (Flag(m.threads[t]) && Stuck(m, t) ==>
                  m.threads[t].wants.Some? && m.threads[u].held == [m.threads[t].wants.value])
  {
    var m := Outcome(Fresh(size, true), es);
    RunKeepsExclusive(Fresh(size, true), es);
    u := t;
    if Flag(m.threads[t]) && Stuck(m, t) {
      u :| 0 <= u < |m.threads| && m.threads[t].wants.value in m.threads[u].held;
    }
  }

  lemma First(m: Table, e: Event, es: seq<Event>)
    requires Enabled(m, e) && Possible(Step(m, e), es)
    ensures Possible(m, [e] + es) && Outcome(m, [e] + es) == Outcome(Step(m, e), es)
  {
  }

  /** A thread of an unguarded table enters a free slot and locks it. */
  lemma TakesSlot(m: Table, t: nat, slot: nat, es: seq<Event>) returns (n: Table)
    requires !m.guarded && t < |m.threads| && m.threads[t] == Thread([], None) && !Locked(m, slot)
    ensures n == m.(threads := m.threads[t := Thread([slot], None)])
    ensures Possible(n, es) ==>
              var all := [Enter(t, slot)] + ([Lock(t)] + es);
              Possible(m, all) && Outcome(m, all) == Outcome(n, es)
  {
    var m1 := Step(m, Enter(t, slot));
    assert !Locked(m1, slot) by {
      assert forall u :: 0 <= u < |m.threads| ==> m1.threads[u].held == m.threads[u].held;
    }
    n := Step(m1, Lock(t));
    assert [] + [slot] == [slot];
    if Possible(n, es) {
      First(m1, Lock(t), es);
      First(m, Enter(t, slot), [Lock(t)] + es);
    }
  }

  /** Without it two threads that nest two slots in opposite orders can block
      each other for ever. */
  lemma UnguardedDeadlocks() returns (es: seq<Event>)
    ensures Possible(Fresh(2, false), es)
    ensures var m := Outcome(Fresh(2, false), es);
            Stuck(m, 0) && Stuck(m, 1) && |m.threads| == 2 && forall t :: 0 <= t < 2 ==> m.threads[t].wants.Some?
  {
    var nested := [Enter(0, 1)] + ([Enter(1, 0)] + []);
    var second := [Enter(1, 1)] + ([Lock(1)] + nested);
    es := [Enter(0, 0)] + ([Lock(0)] + second);
    var m0 := Fresh(2, false);
    var m1 := TakesSlot(m0, 0, 0, second);
    var m2 := TakesSlot(m1, 1, 1, nested);
    var m3 := Step(m2, Enter(0, 1));
    var m4 := Step(m3, Enter(1, 0));
    First(m3, Enter(1, 0), []);
    First(m2, Enter(0, 1), [Enter(1, 0)] + []);
    assert m4.threads[0] == Thread([0], Some(1)) && m4.threads[1] == Thread([1], Some(0));
  }
}
