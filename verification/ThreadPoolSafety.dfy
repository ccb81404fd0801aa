/** The theorems about every run of the registry. */
module ThreadPoolSafety {
  import opened StateCell
  import opened Wrappers
  import opened PhpThread
  import opened PhpThreadProgress
  import opened ThreadPool

  predicate Possible(p: Pool, es: seq<ThreadPool.Event>)
    decreases |es|
  {
    es != [] ==> ThreadPool.Enabled(p, es[0]) && Possible(ThreadPool.Step(p, es[0]), es[1..])
  }

  function Outcome(p: Pool, es: seq<ThreadPool.Event>): Pool
    requires Possible(p, es)
    decreases |es|
  {
    if es == [] then p else Outcome(ThreadPool.Step(p, es[0]), es[1..])
  }

  lemma InitialInv()
    ensures PoolInv(NO_REGISTRY)
  {
  }

  lemma {:induction false} RunKeepsPoolInv(p: Pool, es: seq<ThreadPool.Event>)
    requires PoolInv(p) && Possible(p, es)
    ensures PoolInv(Outcome(p, es))
    decreases |es|
  {
    if es != [] {
      StepKeepsPoolInv(p, es[0]);
      RunKeepsPoolInv(ThreadPool.Step(p, es[0]), es[1..]);
    }
  }

  // ---- Teardown -------------------------------------------------------------

  /** No pthread exists between its launch and its `on_thread_shutdown`, every
      slot is Reserved, and every request a thread took has been completed. */
  ghost predicate TornDown(p: Pool) {
    && (forall i :: 0 <= i < |p.slots| ==> p.slots[i].pthread == Absent && p.slots[i].cell.current == Reserved)
    && (forall r :: 0 <= r < |p.requests| && Delivered(p.requests[r].dispatch) ==> p.requests[r].fired == 1)
  }

  /** Whatever was initialised, booted, swapped, shut down and dispatched before,
      in this and in every earlier registry, and however it interleaved, main
      `Done`, which frees the engine's global state, is published only over a
      registry without live pthreads. */
  lemma TeardownIsSafe(es: seq<ThreadPool.Event>)
    requires Possible(NO_REGISTRY, es)
    ensures var p := Outcome(NO_REGISTRY, es);
            p.main in {Done, Reserved} ==> TornDown(p)
  {
    var p := Outcome(NO_REGISTRY, es);
    InitialInv();
    RunKeepsPoolInv(NO_REGISTRY, es);
    if p.main in {Done, Reserved} {
      forall i | 0 <= i < |p.slots|
        ensures Retired(p.slots[i]) && Held(p.slots[i]) == None
      {
        assert Fitting(p.op, i, p.slots[i]) && Inv(p.slots[i]);
      }
    }
  }

  /** In every run and at every slot: the fallback branches are dead, whoever is
      about to close a drain generation finds one open, a parked handler holds a
      receiver of the current one, and the handler that took a request is the one
      that will close it. */
  lemma NothingUnexpectedAnywhere(es: seq<ThreadPool.Event>, i: nat)
    requires Possible(NO_REGISTRY, es)
    requires i < |Outcome(NO_REGISTRY, es).slots|
    ensures var s := Outcome(NO_REGISTRY, es).slots[i];
            && !s.pthread.Stray? && !s.pthread.StrayBlocked? && !s.pthread.Rebooted?
            && (s.control.SwapClose? || s.control.StopClose? ==> s.drain.open)
            && (s.pthread.Parked? ==> s.pthread.epoch == s.drain.epoch && s.handler == Some(RegularThread(s.pthread.channel)))
            && (s.pthread.After? ==> s.handler == Some(RegularThread(s.pthread.channel)))
            && (s.pthread.Dequeued? ==> s.context == None && s.pthread.named)
  {
    InitialInv();
    RunKeepsPoolInv(NO_REGISTRY, es);
    NothingUnexpected(Outcome(NO_REGISTRY, es).slots[i]);
    if Outcome(NO_REGISTRY, es).slots[i].pthread.Parked? {
      ParkedSeesDrain(Outcome(NO_REGISTRY, es).slots[i]);
    }
  }

  // ---- Requests ---------------------------------------------------------------

  /** Every request is in one place: with its dispatcher, unfired and in no slot;
      or in the one slot that took it; or done. Its signal has fired once as soon
      as a thread has closed it, and never twice. */
  lemma RequestsAreConserved(es: seq<ThreadPool.Event>, r: nat)
    requires Possible(NO_REGISTRY, es)
    requires r < |Outcome(NO_REGISTRY, es).requests|
    ensures var p := Outcome(NO_REGISTRY, es);
            var x := p.requests[r];
            && (forall i :: 0 <= i < |p.slots| && Held(p.slots[i]) == Some(r) ==>
                  Delivered(x.dispatch) && i == x.dispatch.slot && x.fired == if ClosedIn(p.slots[i]) then 1 else 0)
            && (!Delivered(x.dispatch) ==> x.fired == 0)
            && (Delivered(x.dispatch) && (x.dispatch.slot < |p.slots| ==> Held(p.slots[x.dispatch.slot]) != Some(r)) ==> x.fired == 1)
            && p.queued == CountQueued(p.requests)
  {
    InitialInv();
    RunKeepsPoolInv(NO_REGISTRY, es);
  }

  /** A request is never lost, and its signal never unfires. */
  lemma RequestStays(p: Pool, e: ThreadPool.Event, r: nat)
    requires ThreadPool.Enabled(p, e) && r < |p.requests|
    ensures var q := ThreadPool.Step(p, e);
            && r < |q.requests| && q.requests[r].fired >= p.requests[r].fired
            && (Delivered(p.requests[r].dispatch) ==>
                  Delivered(q.requests[r].dispatch) && q.requests[r].dispatch.slot == p.requests[r].dispatch.slot)
  {
  }

  /** Only a delivery to a parked handler gives a thread something to complete. */
  lemma OthersOweNoMore(p: Pool, e: ThreadPool.Event, i: nat)
    requires SlotsFit(p) && ThreadPool.Enabled(p, e) && i < |p.slots| && i < |ThreadPool.Step(p, e).slots|
    requires !p.slots[i].pthread.Parked? && !(e.Turn? && e.slot == i)
    ensures Due(ThreadPool.Step(p, e).slots[i]) <= Due(p.slots[i])
  {
    match e {
      case Turn(j, m) => assert PthreadEvent(p, j, m).slots == p.slots[j := PthreadStep(p.slots[j], m)];
      case ControlTurn(ch) => ControlOwesNoMore(p, ch, i);
      case Outside(a) => AcquireOwesNoMore(p, a, i);
      case Dispatching(r, d) => DispatchTouchesNoControl(p, r, d);
      case Submit(_, _) =>
    }
  }

  lemma AcquireOwesNoMore(p: Pool, a: Acquisition, i: nat)
    requires AcquireEnabled(p, a) && i < |p.slots| && i < |AcquireStep(p, a).slots|
    ensures Due(AcquireStep(p, a).slots[i]) <= Due(p.slots[i])
  {
  }

  lemma ControlOwesNoMore(p: Pool, ch: Choice, i: nat)
    requires SlotsFit(p) && ControlEventEnabled(p, ch) && i < |p.slots| && i < |ControlEvent(p, ch).slots|
    ensures Due(ControlEvent(p, ch).slots[i]) <= Due(p.slots[i])
  {
    match Focus(p.op) {
      case None =>
      case Some(j) =>
        if j < |p.slots| {
          if Advances(p.op, p.slots[j].control) {
            AdvanceTouchesControl(p, j);
          } else {
            HeldAfterControl(p.slots[j], ch, Draining(p.op));
          }
        }
    }
  }

  /** A thread that holds an open request is on its way to close it. */
  lemma OpenIsDue(p: Pool, r: nat, i: nat)
    requires SlotsFit(p) && OpenIn(p, r, i)
    ensures Due(p.slots[i]) > 0 && PthreadEnabled(p.slots[i], Go)
  {
  }

  predicate Unfired(p: Pool, r: nat) {
    r < |p.requests| && Delivered(p.requests[r].dispatch) && p.requests[r].fired == 0
  }

  function Taker(p: Pool, r: nat): nat
    requires Unfired(p, r)
  {
    p.requests[r].dispatch.slot
  }

  lemma UnfiredIsOpen(p: Pool, r: nat)
    requires PoolInv(p) && Unfired(p, r)
    ensures OpenIn(p, r, Taker(p, r))
  {
  }

  /** As long as the signal has not fired, each move of the thread that took the
      request uses up one of those it still needs. */
  lemma EventTowardsCompletion(p: Pool, e: ThreadPool.Event, r: nat)
    requires PoolInv(p) && ThreadPool.Enabled(p, e) && Unfired(p, r) && Unfired(ThreadPool.Step(p, e), r)
    ensures var q := ThreadPool.Step(p, e);
            var i := Taker(p, r);
            && Taker(q, r) == i && i < |p.slots| && i < |q.slots|
            && Due(q.slots[i]) + (if e == Turn(i, Go) then 1 else 0) <= Due(p.slots[i])
  {
    var q, i := ThreadPool.Step(p, e), Taker(p, r);
    StepKeepsPoolInv(p, e);
    RequestStays(p, e, r);
    UnfiredIsOpen(p, r);
    UnfiredIsOpen(q, r);
    OpenIsDue(p, r, i);
    if e.Turn? && e.slot == i {
      MoveTowardsCompletion(p.slots[i], e.m);
      assert q.slots[i] == PthreadStep(p.slots[i], e.m);
    } else {
      OthersOweNoMore(p, e, i);
    }
  }

  function MovesOf(es: seq<ThreadPool.Event>, i: nat): nat {
    if es == [] then 0 else (if es[0] == Turn(i, Go) then 1 else 0) + MovesOf(es[1..], i)
  }

  /** From the moment a thread has taken a request, whatever else happens, the
      fourth of that thread's own moves at the latest completes it; until then
      the thread can always move. What a script does while it runs is not counted. */
  lemma {:induction false} CompletionIsBounded(p: Pool, es: seq<ThreadPool.Event>, r: nat)
    requires PoolInv(p) && Possible(p, es) && r < |p.requests| && Delivered(p.requests[r].dispatch)
    ensures var q := Outcome(p, es);
            var i := p.requests[r].dispatch.slot;
            && r < |q.requests| && Delivered(q.requests[r].dispatch) && q.requests[r].dispatch.slot == i
            && p.requests[r].fired <= q.requests[r].fired <= 1
            && (q.requests[r].fired == 0 ==>
                  && i < |p.slots| && i < |q.slots|
                  && PthreadEnabled(q.slots[i], Go)
                  && MovesOf(es, i) < Due(p.slots[i]) <= 4)
    decreases |es|
  {
    if es == [] {
      if p.requests[r].fired == 0 {
        UnfiredIsOpen(p, r);
        OpenIsDue(p, r, p.requests[r].dispatch.slot);
      }
    } else {
      var n := ThreadPool.Step(p, es[0]);
      StepKeepsPoolInv(p, es[0]);
      RequestStays(p, es[0], r);
      CompletionIsBounded(n, es[1..], r);
      if Outcome(p, es).requests[r].fired == 0 {
        EventTowardsCompletion(p, es[0], r);
      }
    }
  }

  // ---- Edges --------------------------------------------------------------------

  /** An unchanged state, or an edge published by the side that owns it. */
  ghost predicate Legal(e: ThreadPool.Event, i: nat, a: State, b: State) {
    || a == b
    || (e.Turn? && e.slot == i && PthreadEdge(a, b))
    || ((e.ControlTurn? || e.Outside?) && ControlEdge(a, b))
  }

  function StateOf(p: Pool, i: nat): State {
    if i < |p.slots| then p.slots[i].cell.current else Reserved
  }

  /** Where an operation starts or ends over retired slots, all are Reserved. */
  lemma RetiredIsReserved(p: Pool, i: nat)
    requires SlotsFit(p) && (p.op == Cleared || p.op.InitMain?)
    ensures StateOf(p, i) == Reserved
  {
    if i < |p.slots| {
      assert Fitting(p.op, i, p.slots[i]);
    }
  }

  /** Between slots the holder of SCALING publishes nothing. */
  lemma UnfocusedEdges(p: Pool, i: nat)
    requires SlotsFit(p) && Focus(p.op) == None && ControlEventEnabled(p, Proceed)
    ensures StateOf(ControlEvent(p, Proceed), i) == StateOf(p, i)
  {
    if p.op.InitMain? { RetiredIsReserved(p, i); }
  }

  lemma AdvanceEdges(p: Pool, j: nat, i: nat)
    requires Focus(p.op) == Some(j) && j < |p.slots|
    ensures StateOf(ControlAdvance(p, j), i) == StateOf(p, i)
  {
    AdvanceTouchesControl(p, j);
  }

  lemma ControlEdges(p: Pool, ch: Choice, i: nat)
    requires SlotsFit(p) && ControlEventEnabled(p, ch)
    ensures Legal(ControlTurn(ch), i, StateOf(p, i), StateOf(ControlEvent(p, ch), i))
  {
    match Focus(p.op) {
      case None => UnfocusedEdges(p, i);
      case Some(j) =>
        if j < |p.slots| {
          if Advances(p.op, p.slots[j].control) {
            AdvanceEdges(p, j, i);
          } else {
            ControlKeepsInv(p.slots[j], ch, Draining(p.op));
          }
        }
    }
  }

  lemma AcquireEdges(p: Pool, a: Acquisition, i: nat)
    requires SlotsFit(p) && AcquireEnabled(p, a)
    ensures Legal(Outside(a), i, StateOf(p, i), StateOf(AcquireStep(p, a), i))
  {
    if a.Initialise? {
      RetiredIsReserved(p, i);
    }
  }

  lemma DispatchEdges(p: Pool, r: nat, d: DispatchEvent, i: nat)
    requires DispatchEnabled(p, r, d)
    ensures StateOf(DispatchStep(p, r, d), i) == StateOf(p, i)
  {
  }

  /** Although `set` validates nothing, every publication of every run follows an
      edge, and each edge belongs to one side: the pthread's to a step of that
      slot's pthread, the controller's to the holder of SCALING. */
  lemma EdgesAreChecked(p: Pool, e: ThreadPool.Event, i: nat)
    requires PoolInv(p) && ThreadPool.Enabled(p, e)
    ensures Legal(e, i, StateOf(p, i), StateOf(ThreadPool.Step(p, e), i))
  {
    match e {
      case Turn(j, m) => PthreadKeepsInv(p.slots[j], m);
      case ControlTurn(ch) => ControlEdges(p, ch, i);
      case Outside(a) => AcquireEdges(p, a, i);
      case Dispatching(r, d) => DispatchEdges(p, r, d, i);
      case Submit(root, path) =>
    }
  }

  // ---- Progress -----------------------------------------------------------------

  /** The main pthread's own steps. */
  predicate ByMain(e: ThreadPool.Event) {
    e == Outside(MainTeardown) || e == Outside(MainReady)
  }

  /** Controller steps left with one slot; a slot whose new handler has not
      settled costs one more round of asking. */
  function Left(s: Slot): (n: nat)
    ensures n <= 11
  {
    match s.control
    case Free | Over(_) => 0
    case BootReserved => 8
    case BootAsked => 7
    case BootHandler => 6
    case BootClose => 5
    case BootReopen(_) => 4
    case BootLaunch => 3
    case BootUndo => 1
    case BootWait => 2
    case BootBlocked(_) => 1
    case Ask(_) => if s.cell.current == TransitionComplete then 11 else 8
    case AskWait(_) => 10
    case AskBlocked(_, _) => 9
    case SwapClose(_) => 7
    case SwapWait(_, _) => 6
    case SwapBlocked(_, _, _) => 5
    case SwapReplace(_, _) => 4
    case SwapReopen(_, _) => 3
    case SwapPublish(_) => 2
    case StopRefused => 1
    case StopClose => 7
    case StopTimed(_) => 6
    case StopTimedBlocked(_, _) => 5
    case StopFinal(_) => 4
    case StopFinalBlocked(_, _) => 3
    case StopReopen(_) => 2
    case StopPublish => 1
  }

  /** The states a subscription or a refused request leaves behind. */
  lemma ControlKeepsState(s: Slot, ch: Choice, whole: bool)
    requires Inv(s) && ControlEnabled(s, ch) && Wanted(s.control) != {}
    ensures ControlStep(s, ch, whole).cell.current == s.cell.current
    ensures ControlStep(s, ch, whole).control.Ask? <==> s.control.AskWait? && s.cell.current in SETTLED
  {
    SubscribeAdds(s.cell, Wanted(s.control));
  }

  lemma LeftFalls(s: Slot, ch: Choice, whole: bool)
    requires Inv(s) && ControlEnabled(s, ch)
    ensures Left(ControlStep(s, ch, whole)) < Left(s)
  {
    if Wanted(s.control) != {} {
      ControlKeepsState(s, ch, whole);
    }
  }

  lemma LeftUnderPthread(s: Slot, m: Move)
    requires Inv(s) && PthreadEnabled(s, m)
    ensures Left(PthreadStep(s, m)) <= Left(s)
  {
    PthreadKeepsInv(s, m);
    assert PthreadStep(s, m).control == s.control;
  }

  const UNIT := 16

  function Rest(p: Pool, next: nat): nat {
    if next < |p.slots| then (|p.slots| - next) * UNIT else 0
  }

  function LeftAt(p: Pool, i: nat): nat {
    if i < |p.slots| then Left(p.slots[i]) else 0
  }

  /** Controller steps left in the operation that holds SCALING. */
  function Work(p: Pool): nat {
    var phase := (|p.slots| + 1) * UNIT;
    match p.op
    case Idle | Claimed(_) | Cleared => 0
    case InitMain(size, _, started) => if started then 5 + 5 * (size + 1) * UNIT else 2
    case DrainMain => 1
    case DrainPublish => 2
    case DrainReopen(i) => 3 + Rest(p, i) + LeftAt(p, i)
    case DrainFinal(i) => 3 + phase + Rest(p, i) + LeftAt(p, i)
    case DrainTimed(i) => 3 + 2 * phase + Rest(p, i) + LeftAt(p, i)
    case DrainBegun(i) => 4 + 3 * phase + Rest(p, i + 1) + LeftAt(p, i)
    case DrainBegin(i) => 3 + 3 * phase + Rest(p, i)
    case InitBoot(i, _) => 5 + 4 * phase + Rest(p, i + 1) + LeftAt(p, i)
    case Init(i, _) => 4 + 4 * phase + Rest(p, i)
    case ClaimBoot(i) => 1 + LeftAt(p, i)
    case Convert(i) => 1 + LeftAt(p, i)
    case Shutdown(i) => 1 + LeftAt(p, i)
  }

  lemma AdvanceWorks(p: Pool, i: nat)
    requires Focus(p.op) == Some(i) && i < |p.slots| && Advances(p.op, p.slots[i].control)
    ensures Work(ControlAdvance(p, i)) < Work(p)
  {
  }

  lemma FocusWorks(p: Pool, i: nat, n: Slot)
    requires Focus(p.op) == Some(i) && i < |p.slots|
    ensures Work(SetSlot(p, i, n)) == Work(p) - Left(p.slots[i]) + Left(n)
  {
  }

  lemma ControlTurnWorks(p: Pool, ch: Choice)
    requires PoolInv(p) && ControlEventEnabled(p, ch)
    ensures Work(ControlEvent(p, ch)) < Work(p)
  {
    match Focus(p.op) {
      case None =>
      case Some(i) =>
        if i < |p.slots| {
          if Advances(p.op, p.slots[i].control) {
            AdvanceWorks(p, i);
          } else {
            var n := ControlStep(p.slots[i], ch, Draining(p.op));
            LeftFalls(p.slots[i], ch, Draining(p.op));
            FocusWorks(p, i, n);
          }
        }
    }
  }

  lemma WorkOfSlots(p: Pool, q: Pool)
    requires q.op == p.op && |q.slots| == |p.slots|
    requires forall i :: 0 <= i < |p.slots| ==> Left(q.slots[i]) <= Left(p.slots[i])
    ensures Work(q) <= Work(p)
  {
  }

  /** SCALING is taken by this event. */
  predicate Acquires(e: ThreadPool.Event) {
    e.Outside? && !ByMain(e) && e.a != Attach
  }

  lemma TurnAddsNoWork(p: Pool, i: nat, m: Move)
    requires PoolInv(p) && i < |p.slots| && PthreadEnabled(p.slots[i], m)
    ensures Work(PthreadEvent(p, i, m)) <= Work(p)
  {
    LeftUnderPthread(p.slots[i], m);
    assert PthreadEvent(p, i, m).slots == p.slots[i := PthreadStep(p.slots[i], m)];
    WorkOfSlots(p, PthreadEvent(p, i, m));
  }

  lemma DispatchAddsNoWork(p: Pool, r: nat, d: DispatchEvent)
    requires DispatchEnabled(p, r, d)
    ensures Work(DispatchStep(p, r, d)) <= Work(p)
  {
    DispatchTouchesNoOp(p, r, d);
    DispatchTouchesNoControl(p, r, d);
    WorkOfSlots(p, DispatchStep(p, r, d));
  }

  lemma DispatchTouchesNoControl(p: Pool, r: nat, d: DispatchEvent)
    requires DispatchEnabled(p, r, d)
    ensures |DispatchStep(p, r, d).slots| == |p.slots|
    ensures forall i :: 0 <= i < |p.slots| ==>
              var n, s := DispatchStep(p, r, d).slots[i], p.slots[i];
              n.control == s.control && n.cell == s.cell && (n.pthread == s.pthread || (s.pthread.Parked? && n.pthread.Dequeued?))
  {
  }

  lemma OutsideTouchesNoSlot(p: Pool, a: Acquisition)
    requires AcquireEnabled(p, a) && !Acquires(Outside(a))
    ensures AcquireStep(p, a).op == p.op && AcquireStep(p, a).slots == p.slots
  {
  }

  lemma WorkOfSame(p: Pool, q: Pool)
    requires q.op == p.op && q.slots == p.slots
    ensures Work(q) == Work(p)
  {
  }

  /** Nobody else prolongs an operation. */
  lemma OthersAddNoWork(p: Pool, e: ThreadPool.Event)
    requires PoolInv(p) && ThreadPool.Enabled(p, e) && !e.ControlTurn? && !Acquires(e)
    ensures Work(ThreadPool.Step(p, e)) <= Work(p)
  {
    match e {
      case Turn(i, m) => TurnAddsNoWork(p, i, m);
      case Outside(a) => OutsideTouchesNoSlot(p, a); WorkOfSame(p, AcquireStep(p, a));
      case Dispatching(r, d) => DispatchAddsNoWork(p, r, d);
      case Submit(_, _) => WorkOfSame(p, ThreadPool.Step(p, e));
    }
  }

  predicate AcquiresNothing(es: seq<ThreadPool.Event>) {
    forall k :: 0 <= k < |es| ==> !Acquires(es[k])
  }

  /** The slots an operation may have to go through. */
  function Size(p: Pool): nat {
    if p.op.InitMain? then p.op.size else |p.slots|
  }

  lemma WorkIsLinear(p: Pool)
    ensures Work(p) <= (5 * Size(p) + 6) * UNIT
  {
  }

  // ---- Every operation ends -----------------------------------------------------

  /** The holder of SCALING waits for the pthread of its slot. */
  predicate Stalled(p: Pool) {
    match Focus(p.op)
    case None => false
    case Some(i) => i < |p.slots| && !Advances(p.op, p.slots[i].control) && !ControlEnabled(p.slots[i], Proceed)
  }

  /** What keeps an operation going: its holder's steps, the moves of the pthread
      it waits for, and the main pthread's. */
  predicate Drives(p: Pool, e: ThreadPool.Event) {
    e.ControlTurn? || ByMain(e) || (e.Turn? && Stalled(p) && Focus(p.op) == Some(e.slot) && e.m == Go)
  }

  /** While an operation holds SCALING, something that drives it is enabled: a step
      of its holder, of the pthread that it waits for, or of the main pthread. */
  lemma NeverStuck(p: Pool) returns (e: ThreadPool.Event)
    requires PoolInv(p) && p.op != Idle && !p.op.Claimed? && p.op != Cleared
    ensures ThreadPool.Enabled(p, e) && Drives(p, e) && !Acquires(e)
  {
    e := ControlTurn(Proceed);
    match Focus(p.op) {
      case None =>
        if p.op == DrainMain && p.main != Reserved {
          e := Outside(MainTeardown);
        } else if p.op.InitMain? && p.main == Reserved {
          e := Outside(MainReady);
        }
      case Some(i) =>
        if i < |p.slots| && !Advances(p.op, p.slots[i].control) {
          assert Fitting(p.op, i, p.slots[i]);
          SomeoneCanStep(p.slots[i]);
          if !ControlEnabled(p.slots[i], Proceed) {
            e := Turn(i, Go);
          }
        }
    }
  }

  function Awaited(p: Pool): nat {
    if Stalled(p) then Rank(p.slots[Focus(p.op).value]) else 0
  }

  function MainOwes(p: Pool): nat {
    if p.main == Done || (p.op.InitMain? && p.main == Reserved) then 1 else 0
  }

  const STRIDE := 14

  function Budget(p: Pool): nat {
    Work(p) * STRIDE + Awaited(p) + MainOwes(p)
  }

  lemma AwaitedIsShort(p: Pool)
    ensures Awaited(p) <= RANK_BOUND && MainOwes(p) <= 1
  {
  }

  lemma ControlTurnDrives(p: Pool, ch: Choice)
    requires PoolInv(p) && ControlEventEnabled(p, ch)
    ensures Budget(ControlEvent(p, ch)) < Budget(p)
  {
    ControlTurnWorks(p, ch);
    AwaitedIsShort(ControlEvent(p, ch));
  }

  /** A stalled slot is in the middle of its operation. */
  lemma StalledIsBusy(p: Pool)
    requires PoolInv(p) && Stalled(p)
    ensures var s := p.slots[Focus(p.op).value]; !s.control.Free? && !s.control.Over?
  {
    assert Fitting(p.op, Focus(p.op).value, p.slots[Focus(p.op).value]);
  }

  lemma SlotTurn(p: Pool, i: nat, m: Move)
    requires PoolInv(p) && i < |p.slots| && PthreadEnabled(p.slots[i], m)
    ensures var q := PthreadEvent(p, i, m);
            Awaited(q) + (if Drives(p, Turn(i, m)) then 1 else 0) <= Awaited(p)
  {
    var q := PthreadEvent(p, i, m);
    var n := PthreadStep(p.slots[i], m);
    PthreadKeepsInv(p.slots[i], m);
    assert q.op == p.op && q.slots == p.slots[i := n] && n.control == p.slots[i].control;
    if Focus(p.op) == Some(i) {
      if Stalled(p) {
        StalledIsBusy(p);
        BlockedTurn(p.slots[i], m);
      } else if !Advances(p.op, p.slots[i].control) {
        ReleasedStays(p.slots[i], m);
      }
    }
  }

  lemma DispatchAwaits(p: Pool, r: nat, d: DispatchEvent)
    requires DispatchEnabled(p, r, d)
    ensures Awaited(DispatchStep(p, r, d)) <= Awaited(p)
  {
    DispatchTouchesNoOp(p, r, d);
    DispatchTouchesNoControl(p, r, d);
    AwaitedOfSlots(p, DispatchStep(p, r, d));
  }

  lemma AwaitedOfSlots(p: Pool, q: Pool)
    requires q.op == p.op && |q.slots| == |p.slots|
    requires forall i :: 0 <= i < |p.slots| ==>
               && q.slots[i].control == p.slots[i].control && q.slots[i].cell == p.slots[i].cell
               && (q.slots[i].pthread == p.slots[i].pthread || (p.slots[i].pthread.Parked? && q.slots[i].pthread.Dequeued?))
    ensures Awaited(q) <= Awaited(p)
  {
  }

  /** Whatever drives the operation uses up its budget, and nothing adds to it. */
  lemma EventSpends(p: Pool, e: ThreadPool.Event)
    requires PoolInv(p) && ThreadPool.Enabled(p, e) && !Acquires(e)
    ensures Budget(ThreadPool.Step(p, e)) + (if Drives(p, e) then 1 else 0) <= Budget(p)
  {
    if e.ControlTurn? {
      ControlTurnDrives(p, e.ch);
    } else {
      OthersAddNoWork(p, e);
      match e {
        case Turn(i, m) => SlotTurn(p, i, m);
        case Dispatching(r, d) => DispatchAwaits(p, r, d); DispatchTouchesNoOp(p, r, d);
        case _ =>
      }
    }
  }

  function Driven(p: Pool, es: seq<ThreadPool.Event>): nat
    requires Possible(p, es)
    decreases |es|
  {
    if es == [] then 0 else (if Drives(p, es[0]) then 1 else 0) + Driven(ThreadPool.Step(p, es[0]), es[1..])
  }

  lemma {:induction false} BudgetIsSpent(p: Pool, es: seq<ThreadPool.Event>)
    requires PoolInv(p) && Possible(p, es) && AcquiresNothing(es)
    ensures Driven(p, es) <= Budget(p)
    decreases |es|
  {
    if es != [] {
      assert !Acquires(es[0]);
      EventSpends(p, es[0]);
      StepKeepsPoolInv(p, es[0]);
      BudgetIsSpent(ThreadPool.Step(p, es[0]), es[1..]);
    }
  }

  /** Every operation ends: until SCALING is next acquired, the steps of its holder
      together with the moves of the pthreads and of the main pthread while they
      are waited for are at most linearly many in the number of slots, whatever
      else happens meanwhile. By `NeverStuck` one of these is always enabled while
      an operation is under way, so none hangs: no initialisation, swap, shutdown
      or drain. */
  lemma OperationsEnd(p: Pool, es: seq<ThreadPool.Event>)
    requires PoolInv(p) && Possible(p, es) && AcquiresNothing(es)
    ensures Driven(p, es) <= ((5 * Size(p) + 6) * UNIT + 1) * STRIDE
  {
    BudgetIsSpent(p, es);
    WorkIsLinear(p);
    AwaitedIsShort(p);
  }
}
