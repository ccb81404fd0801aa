/** What the slot invariant of `PhpThread` gives: nothing unexpected is ever
    read, no publication is overwritten, and every wait of the controller ends
    after a bounded number of pthread steps. */
module PhpThreadProgress {
  import opened StateCell
  import opened Wrappers
  import opened PhpThread

  /** The fallback branches are dead, a drain generation is open whenever the
      controller is about to close one, and a served request stays with the
      handler that dequeued it. */
  lemma NothingUnexpected(s: Slot)
    requires Inv(s)
    ensures !s.pthread.Stray? && !s.pthread.StrayBlocked? && !s.pthread.Rebooted?
    ensures s.pthread.Depart? ==> s.pthread.last == Done
    ensures s.control.SwapClose? || s.control.StopClose? ==> s.drain.open
    ensures s.pthread.Dequeued? ==> s.context == None && s.pthread.named
    ensures s.pthread.After? ==> s.handler == Some(RegularThread(s.pthread.channel))
    ensures s.pthread.Script? || s.pthread.After? || s.pthread.CloseContext? || s.pthread.ClearContext?
            <==> s.context.Some?
  {
  }

  /** A parked handler selects on the current drain generation, and once the
      controller has closed it the select can fire. */
  lemma ParkedSeesDrain(s: Slot)
    requires Inv(s) && s.pthread.Parked?
    ensures s.pthread.epoch == s.drain.epoch
    ensures s.handler == Some(RegularThread(s.pthread.channel))
    ensures PthreadEnabled(s, Go) <==> Ticket(s.control).Some?
  {
  }

  // ---- Who publishes when ----------------------------------------------

  /** The states whose next publication belongs to a live pthread. */
  predicate Asked(a: State) {
    a in {Booting, TransitionComplete, TransitionRequested, ShuttingDown}
  }

  /** Reading the state and publishing the next one are two steps of the
      pthread, yet while it is between them no controller step changes the
      state, so no request is overwritten. */
  lemma ControlWaitsItsTurn(s: Slot, ch: Choice, whole: bool)
    requires Inv(s) && ControlEnabled(s, ch)
    requires Asked(s.cell.current) && s.pthread != Absent
    ensures ControlStep(s, ch, whole).cell.current == s.cell.current
    ensures ControlStep(s, ch, whole).pthread == s.pthread
  {
    if Wanted(s.control) != {} {
      SubscribeAdds(s.cell, Wanted(s.control));
    }
  }

  /** A pthread between its read and its publication is in a state it owns, and
      otherwise publishes nothing. */
  lemma PthreadPublishesInTurn(s: Slot, m: Move)
    requires Inv(s) && PthreadEnabled(s, m)
    ensures Publishing(s.pthread) ==> Asked(s.cell.current)
    ensures !Asked(s.cell.current) ==> PthreadStep(s, m).cell.current == s.cell.current
  {
    PthreadKeepsInv(s, m);
    if Publishing(s.pthread) {
      PublishWakes(s.cell, Done);
    }
  }

  // ---- Every wait ends ---------------------------------------------------

  /** Steps to the next publication once a state is `Asked`. */
  function Rank(s: Slot): nat {
    match s.pthread
    case Absent => 0
    case Depart(_) => 1
    case Leave => 2
    case Acknowledge => 2
    case IdlePublish => 2
    case ReadyPublish(_) => 2
    case Detach(_, _) => 3
    case Top(_) => 4
    case Rebooted(_) | Stray(_) | StrayBlocked(_, _) => 0
    case Enter => 5
    case Starting => 6
    case IdleBlocked(_) => 6
    case IdleWait => 7
    case CompleteBlocked(_) => 6
    case CompleteWait => 7
    case ClearContext(_) => 6
    case CloseContext(_) => 7
    case After(_) => 8
    case Script(_) => 9
    case Dequeued(_, _, _) => 10
    case Parked(_, _) => 11
    case Fetch(_) => 12
  }

  const RANK_BOUND := 12

  lemma RankFalls(s: Slot, m: Move)
    requires Inv(s) && PthreadEnabled(s, m) && Asked(s.cell.current)
    ensures var n := PthreadStep(s, m);
            n.cell.current == s.cell.current ==>
              if m == Go then Rank(n) < Rank(s) else Rank(n) == Rank(s)
  {
    if s.pthread.IdleWait? { SubscribeAdds(s.cell, IDLE_WAKES); }
    if s.pthread.CompleteWait? { SubscribeAdds(s.cell, {TransitionComplete}); }
  }

  /** While the controller is blocked, the pthread it waits for can run. */
  lemma BlockedOnARunningPthread(s: Slot)
    requires Inv(s) && Released(s.control) && !ControlEnabled(s, Proceed)
    ensures Asked(s.cell.current) && PthreadEnabled(s, Go)
  {
  }

  /** In the middle of an operation either the controller or the pthread of its
      slot can step: there is no deadlock and no lost wake-up. */
  lemma SomeoneCanStep(s: Slot)
    requires Inv(s) && !s.control.Free? && !s.control.Over?
    ensures ControlEnabled(s, Proceed) || PthreadEnabled(s, Go)
  {
    if Released(s.control) && !ControlEnabled(s, Proceed) {
      BlockedOnARunningPthread(s);
    }
  }

  /** A pthread that owes an answer can always go on, except for the moment in
      which it is parked and the controller has still to close its drain. */
  lemma AskedCanGo(s: Slot)
    requires Inv(s) && Asked(s.cell.current) && s.pthread != Absent
    ensures PthreadEnabled(s, Go) || (s.pthread.Parked? && (s.control.SwapClose? || s.control.StopClose?))
    ensures s.control.SwapClose? || s.control.StopClose? ==> ControlEnabled(s, Proceed)
  {
  }

  /** A wait that is over stays over, whatever the pthread does to the cell. */
  lemma OverStaysOver(s: Slot, m: Move, token: nat)
    requires Inv(s) && PthreadEnabled(s, m) && token < s.cell.issued && Awaits(s.cell.subs, token) == None
    ensures Awaits(PthreadStep(s, m).cell.subs, token) == None
  {
    if Publishing(s.pthread) {
      PublishKeeps(s.cell, PthreadStep(s, m).cell.current, token);
    } else if s.pthread.IdleWait? {
      SubscribeAdds(s.cell, IDLE_WAKES);
    } else if s.pthread.CompleteWait? {
      SubscribeAdds(s.cell, {TransitionComplete});
    }
  }

  /** So once released, the controller stays so. */
  lemma ReleasedStays(s: Slot, m: Move)
    requires Inv(s) && PthreadEnabled(s, m) && ControlEnabled(s, Proceed)
    ensures ControlEnabled(PthreadStep(s, m), Proceed)
  {
    PthreadKeepsInv(s, m);
    assert PthreadStep(s, m).control == s.control;
    if ControlToken(s.control).Some? {
      OverStaysOver(s, m, ControlToken(s.control).value);
    }
  }

  lemma StalledIsAsked(s: Slot)
    requires Inv(s) && !s.control.Free? && !s.control.Over? && !ControlEnabled(s, Proceed)
    ensures Asked(s.cell.current)
  {
    SomeoneCanStep(s);
    if Released(s.control) { BlockedOnARunningPthread(s); }
  }

  /** While the controller is blocked, a move of the pthread releases it or brings
      the answer one step closer. */
  lemma BlockedTurn(s: Slot, m: Move)
    requires Inv(s) && !s.control.Free? && !s.control.Over? && !ControlEnabled(s, Proceed) && PthreadEnabled(s, m)
    ensures m == Go ==> Rank(s) > 0
    ensures var n := PthreadStep(s, m);
            !ControlEnabled(n, Proceed) ==> Rank(n) + (if m == Go then 1 else 0) <= Rank(s)
  {
    var n := PthreadStep(s, m);
    StalledIsAsked(s);
    PthreadKeepsInv(s, m);
    NothingUnexpected(s);
    RankFalls(s, m);
    assert n.control == s.control;
    if !ControlEnabled(n, Proceed) {
      StalledIsAsked(n);
    }
  }

  // ---- Runs of one slot ----------------------------------------------------

  datatype Event = ByPthread(m: Move) | ByDispatcher(request: nat) | ByControl(ch: Choice, whole: bool)

  predicate Enabled(s: Slot, e: Event) {
    match e
    case ByPthread(m) => PthreadEnabled(s, m)
    case ByDispatcher(_) => s.pthread.Parked?
    case ByControl(ch, _) => ControlEnabled(s, ch)
  }

  function Step(s: Slot, e: Event): Slot
    requires Enabled(s, e)
  {
    match e
    case ByPthread(m) => PthreadStep(s, m)
    case ByDispatcher(r) => Deliver(s, r, true)
    case ByControl(ch, whole) => ControlStep(s, ch, whole)
  }

  /** `es` can happen from `s` with `asked` current throughout. */
  predicate Unanswered(s: Slot, asked: State, es: seq<Event>)
    decreases |es|
  {
    s.cell.current == asked
    && (es != [] ==> Enabled(s, es[0]) && Unanswered(Step(s, es[0]), asked, es[1..]))
  }

  function Moves(es: seq<Event>): nat {
    if es == [] then 0 else
    (if es[0] == ByPthread(Go) || es[0].ByDispatcher? then 1 else 0) + Moves(es[1..])
  }

  function Deliveries(es: seq<Event>): nat {
    if es == [] then 0 else (if es[0].ByDispatcher? then 1 else 0) + Deliveries(es[1..])
  }

  lemma StepKeepsInv(s: Slot, e: Event)
    requires Inv(s) && Enabled(s, e)
    ensures Inv(Step(s, e))
  {
    match e {
      case ByPthread(m) => PthreadKeepsInv(s, m);
      case ByDispatcher(r) => DeliverKeepsInv(s, r);
      case ByControl(ch, whole) => ControlKeepsInv(s, ch, whole);
    }
  }

  lemma EventRank(s: Slot, e: Event)
    requires Inv(s) && Enabled(s, e) && Asked(s.cell.current) && s.pthread != Absent
    requires Step(s, e).cell.current == s.cell.current
    ensures Rank(Step(s, e)) + Moves([e]) <= Rank(s)
    ensures Step(s, e).pthread != Absent
  {
    match e {
      case ByPthread(m) => RankFalls(s, m);
      case ByDispatcher(r) =>
      case ByControl(ch, whole) => ControlWaitsItsTurn(s, ch, whole);
    }
  }

  /** However the pthread, the dispatchers and the controller interleave, a
      published request is answered before the pthread has made more than
      twelve moves, not counting what a script does while it runs. */
  lemma {:induction false} AnswerIsBounded(s: Slot, asked: State, es: seq<Event>)
    requires Inv(s) && Asked(asked) && s.pthread != Absent && Unanswered(s, asked, es)
    ensures Moves(es) <= Rank(s) <= RANK_BOUND
    decreases |es|
  {
    if es != [] {
      StepKeepsInv(s, es[0]);
      EventRank(s, es[0]);
      AnswerIsBounded(Step(s, es[0]), asked, es[1..]);
      assert es == [es[0]] + es[1..];
    }
  }

  /** 1 while the pthread can still take a request. */
  function CanTake(s: Slot): nat {
    if s.pthread.Fetch? || s.pthread.Parked? then 1 else 0
  }

  lemma EventDelivers(s: Slot, e: Event)
    requires Inv(s) && Enabled(s, e) && s.pthread != Absent
    requires s.cell.current in {TransitionRequested, ShuttingDown}
    ensures Step(s, e).cell.current == s.cell.current ==> CanTake(Step(s, e)) + Deliveries([e]) <= CanTake(s)
  {
    match e {
      case ByPthread(m) =>
        if s.pthread.IdleWait? { SubscribeAdds(s.cell, IDLE_WAKES); }
        if s.pthread.CompleteWait? { SubscribeAdds(s.cell, {TransitionComplete}); }
      case ByDispatcher(r) =>
      case ByControl(ch, whole) => ControlWaitsItsTurn(s, ch, whole);
    }
  }

  /** After a handler swap or a shutdown is requested, at most one more request
      is delivered to the slot, and none unless its handler had already read
      Ready. */
  lemma {:induction false} AtMostOneLateDelivery(s: Slot, asked: State, es: seq<Event>)
    requires Inv(s) && asked in {TransitionRequested, ShuttingDown} && s.pthread != Absent
    requires Unanswered(s, asked, es)
    ensures Deliveries(es) <= CanTake(s)
    decreases |es|
  {
    if es != [] {
      StepKeepsInv(s, es[0]);
      EventRank(s, es[0]);
      EventDelivers(s, es[0]);
      AtMostOneLateDelivery(Step(s, es[0]), asked, es[1..]);
      assert es == [es[0]] + es[1..];
    }
  }

  // ---- From delivery to completion -------------------------------------------

  /** Moves until the context of a taken request is closed. */
  function Due(s: Slot): (n: nat)
    ensures n <= 4
  {
    match s.pthread
    case Dequeued(_, _, _) => 4
    case Script(_) => 3
    case After(_) => 2
    case CloseContext(_) => 1
    case _ => 0
  }

  /** Every move of the thread brings a request it holds open one step closer to
      its completion, and a script that completes it early is done with it. */
  lemma MoveTowardsCompletion(s: Slot, m: Move)
    requires Inv(s) && PthreadEnabled(s, m) && Due(s) > 0 && (s.context.Some? ==> !s.context.value.closed)
    ensures var n := PthreadStep(s, m);
            (n.context.Some? && n.context.value.closed) || (m == Go && Due(n) == Due(s) - 1 > 0)
  {
  }
}
