/** The whole registry of `thread.rs` and the dispatch of `thread_regular.rs`:
    one holder of SCALING, any number of slots, the main pthread and any number
    of dispatchers, interleaved step by step. */
module ThreadPool {
  import opened StateCell
  import opened Wrappers
  import opened PhpThread
  import PhpThreadProgress
  import Bytes
  import CgiPath

  /** Which operation holds SCALING, and how far it is through the registry. */
  datatype Op =
    | Idle
    | InitMain(size: nat, count: nat, started: bool)  // the main pthread is on its way
    | Init(next: nat, count: nat) | InitBoot(slot: nat, count: nat)
    | Claimed(slot: nat)                            // an InactivePhpThreadClaim is held
    | ClaimBoot(slot: nat) | Convert(slot: nat) | Shutdown(slot: nat)
    | DrainBegin(next: nat) | DrainBegun(slot: nat)
    | DrainTimed(next: nat) | DrainFinal(next: nat) | DrainReopen(next: nat)
    | DrainPublish | DrainMain | Cleared

  /** Where a request's dispatcher is; from `Lowering` on, the slot whose
      handler took the request. */
  datatype Dispatch =
    | Submitted | Scanning(entry: nat) | Raising | Sending
    | Lowering(slot: nat) | Returned(slot: nat)

  datatype Request = Request(script: Bytes.bytes, dispatch: Dispatch, fired: nat)

  /** One directed sender of REGULAR_THREADS. Entries may be stale. */
  datatype Entry = Entry(slot: nat, channel: nat)

  datatype Pool = Pool(
    slots: seq<Slot>,
    op: Op,
    main: State,
    requests: seq<Request>,
    queued: int,
    registry: seq<Entry>,
    attaching: seq<Entry>,
    channels: nat)

  datatype Event =
    | Turn(slot: nat, m: Move)
    | ControlTurn(ch: Choice)
    | Outside(a: Acquisition)
    | Dispatching(r: nat, d: DispatchEvent)
    | Submit(root: Bytes.bytes, path: Bytes.bytes)

  /** What creating the main pthread came to; undetached, it runs and is sent
      back. */
  datatype MainStart = NotStarted | Undetached | Started

  /** Who acquires SCALING, and the events that need no lock of it. */
  datatype Acquisition =
    | Initialise(size: nat, count: nat, start: MainStart)
    | MainReady
    | FindInactive(slot: nat) | FindReserved(slot: nat)
    | Assign(inactive: bool) | DropClaim
    | SetHandler(slot: nat, h: Handler) | ShutSlot(slot: nat) | DrainAll
    | MainTeardown
    | Attach

  datatype DispatchEvent =
    | LoadCounter | TrySend(taken: bool) | Raise | Rendezvous(slot: nat) | Lower

  /** Before the first initialisation there is no registry, as after each drain;
      requests, their counter and the directed senders outlive both. */
  const NO_REGISTRY := Pool([], Cleared, Reserved, [], 0, [], [], 0)

  function Slots(size: nat): seq<Slot> {
    seq(size, _ => NEW_SLOT)
  }

  // ---- Requests in slots ----------------------------------------------------

  /** The request a slot's pthread has taken and not yet cleared. */
  function Held(s: Slot): Option<nat> {
    match s.pthread
    case Dequeued(_, r, _) => Some(r)
    case _ => match s.context case Some(c) => Some(c.request) case None => None
  }

  function ClosedIn(s: Slot): bool {
    s.context.Some? && s.context.value.closed
  }

  predicate Delivered(d: Dispatch) {
    d.Lowering? || d.Returned?
  }

  // ---- Steps --------------------------------------------------------------

  function SetSlot(p: Pool, i: nat, s: Slot): Pool
    requires i < |p.slots|
  {
    p.(slots := p.slots[i := s])
  }

  function SetControl(p: Pool, i: nat, c: Control): Pool
    requires i < |p.slots|
  {
    SetSlot(p, i, p.slots[i].(control := c))
  }

  function SetDispatch(p: Pool, r: nat, d: Dispatch): Pool
    requires r < |p.requests|
  {
    p.(requests := p.requests[r := p.requests[r].(dispatch := d)])
  }

  function WithoutSlot(es: seq<Entry>, slot: nat): seq<Entry> {
    if es == [] then [] else
    (if es[0].slot == slot then [] else [es[0]]) + WithoutSlot(es[1..], slot)
  }

  /** A pthread step, with its effect on the registry and on the completion
      signal: `close_context` fires it unless the context is already done. */
  function PthreadEvent(p: Pool, i: nat, m: Move): Pool
    requires i < |p.slots| && PthreadEnabled(p.slots[i], m)
  {
    var s := p.slots[i];
    var n := PthreadStep(s, m);
    var q := SetSlot(p, i, n);
    if s.pthread.Detach? then q.(registry := WithoutSlot(p.registry, i))
    else if ClosedIn(n) && !ClosedIn(s) && n.context.value.request < |p.requests| then
      var r := n.context.value.request;
      q.(requests := p.requests[r := p.requests[r].(fired := p.requests[r].fired + 1)])
    else q
  }

  /** The slot the holder of SCALING works on in this step. */
  function Focus(op: Op): Option<nat> {
    match op
    case InitBoot(i, _) => Some(i)
    case ClaimBoot(i) => Some(i)
    case Convert(i) => Some(i)
    case Shutdown(i) => Some(i)
    case DrainBegun(i) => Some(i)
    case DrainTimed(i) => Some(i)
    case DrainFinal(i) => Some(i)
    case DrainReopen(i) => Some(i)
    case _ => None
  }

  predicate Draining(op: Op) {
    op.DrainBegin? || op.DrainBegun? || op.DrainTimed? || op.DrainFinal? || op.DrainReopen?
  }

  /** The controller goes on to its next slot when this one's part is done. */
  predicate Advances(op: Op, c: Control) {
    match op
    case DrainBegun(_) => c.StopTimed? || c.Over?
    case DrainTimed(_) => !c.StopTimed? && !c.StopTimedBlocked?
    case DrainFinal(_) => !c.StopFinal? && !c.StopFinalBlocked?
    case DrainReopen(_) => !c.StopReopen? && !c.StopPublish?
    case _ => c.Over?
  }

  function ControlAdvance(p: Pool, i: nat): Pool
    requires Focus(p.op) == Some(i) && i < |p.slots|
  {
    var c := p.slots[i].control;
    var q := if c.Over? then SetControl(p, i, Free) else p;
    match p.op
    case InitBoot(_, count) =>
      if c == Over(BootFailed) then q.(op := DrainBegin(0), main := ShuttingDown) else q.(op := Init(i + 1, count))
    case ClaimBoot(_) => q.(op := if c == Over(BootFailed) then Idle else Claimed(i))
    case Convert(_) =>
      (match c
       case Over(Converted(RegularThread(k))) => q.(op := Idle, attaching := p.attaching + [Entry(i, k)])
       case _ => q.(op := Idle))
    case Shutdown(_) => q.(op := Idle)
    case DrainBegun(_) => q.(op := DrainBegin(i + 1))
    case DrainTimed(_) => q.(op := DrainTimed(i + 1))
    case DrainFinal(_) => q.(op := DrainFinal(i + 1))
    case DrainReopen(_) => q.(op := DrainReopen(i + 1))
    case _ => q
  }

  /** A loop over the registry is through. */
  function AfterLast(op: Op): Op {
    match op
    case DrainTimed(_) => DrainFinal(0)
    case DrainFinal(_) => DrainReopen(0)
    case DrainReopen(_) => DrainPublish
    case _ => op
  }

  predicate ControlEventEnabled(p: Pool, ch: Choice) {
    match Focus(p.op)
    case None =>
      && ch == Proceed
      && ((p.op.InitMain? && p.main == Ready) || p.op.Init? || p.op.DrainBegin? || p.op.DrainPublish? || (p.op == DrainMain && p.main == Reserved))
    case Some(i) =>
      if i >= |p.slots| || Advances(p.op, p.slots[i].control) then ch == Proceed
      else ControlEnabled(p.slots[i], ch)
  }

  function ControlEvent(p: Pool, ch: Choice): Pool
    requires ControlEventEnabled(p, ch)
  {
    match Focus(p.op)
    case None => (
      match p.op
      case InitMain(size, count, started) =>
        if started then p.(slots := Slots(size), op := Init(0, count)) else p.(main := Done, op := DrainMain)
      case Init(i, count) =>
        if i < count && i < |p.slots| then SetControl(p, i, BootReserved).(op := InitBoot(i, count)) else p.(op := Idle)
      case DrainBegin(i) =>
        if i < |p.slots| then SetControl(p, i, Ask(ToShutdown)).(op := DrainBegun(i)) else p.(op := DrainTimed(0))
      case DrainPublish => p.(main := Done, op := DrainMain)
      case _ => p.(op := Cleared))
    case Some(i) =>
      if i >= |p.slots| then p.(op := AfterLast(p.op))
      else if Advances(p.op, p.slots[i].control) then ControlAdvance(p, i)
      else SetSlot(p, i, ControlStep(p.slots[i], ch, Draining(p.op)))
  }

  /** The handler of slot `i` is parked on its directed channel `k`. */
  predicate ParkedOn(p: Pool, i: nat, k: nat) {
    i < |p.slots| && p.slots[i].pthread.Parked? && p.slots[i].pthread.channel == k
  }

  function DeliverTo(p: Pool, r: nat, i: nat, next: Dispatch): Pool
    requires r < |p.requests| && i < |p.slots| && p.slots[i].pthread.Parked?
  {
    SetDispatch(SetSlot(p, i, Deliver(p.slots[i], r, p.requests[r].script != [])), r, next)
  }

  predicate AcquireEnabled(p: Pool, a: Acquisition) {
    match a
    case Initialise(size, _, _) => p.op == Cleared && size > 0
    case MainReady => p.op.InitMain? && p.main == Reserved
    case FindInactive(i) => p.op == Idle && i < |p.slots| && p.slots[i].cell.current == Inactive
    case FindReserved(i) => p.op == Idle && i < |p.slots| && p.slots[i].cell.current == Reserved
    case Assign(_) => p.op.Claimed? && p.op.slot < |p.slots|
    case DropClaim => p.op.Claimed?
    case SetHandler(i, _) => p.op == Idle && i < |p.slots|
    case ShutSlot(i) => p.op == Idle && i < |p.slots|
    case DrainAll => p.op == Idle && p.main == Ready
    case MainTeardown => p.main == Done
    case Attach => p.attaching != []
  }

  function AcquireStep(p: Pool, a: Acquisition): Pool
    requires AcquireEnabled(p, a)
  {
    match a
    // Slot zero is installed before the main pthread starts.
    case Initialise(size, count, start) =>
      if start == NotStarted then p else p.(slots := Slots(1), op := InitMain(size, count, start == Started))
    case MainReady => p.(main := Ready)
    case FindInactive(i) => p.(op := Claimed(i))
    case FindReserved(i) => SetSlot(p, i, MarkedForBoot(p.slots[i])).(op := ClaimBoot(i))
    case Assign(inactive) =>
      var i := p.op.slot;
      var h := if inactive then InactiveThread else RegularThread(p.channels);
      SetControl(p, i, Ask(ToHandler(h))).(op := Convert(i), channels := p.channels + 1)
    case DropClaim => p.(op := Idle)
    case SetHandler(i, h) => SetControl(p, i, Ask(ToHandler(h))).(op := Convert(i))
    case ShutSlot(i) => SetControl(p, i, Ask(ToShutdown)).(op := Shutdown(i))
    case DrainAll => p.(main := ShuttingDown, op := DrainBegin(0))
    case MainTeardown => p.(main := Reserved)
    case Attach => p.(registry := p.registry + [p.attaching[0]], attaching := p.attaching[1..])
  }

  predicate DispatchEnabled(p: Pool, r: nat, d: DispatchEvent) {
    && r < |p.requests|
    && var at := p.requests[r].dispatch;
       match d
       case LoadCounter => at == Submitted
       case TrySend(taken) =>
         at.Scanning?
         && (taken ==> at.entry < |p.registry|
                       && ParkedOn(p, p.registry[at.entry].slot, p.registry[at.entry].channel))
       case Raise => at == Raising
       case Rendezvous(i) => at == Sending && i < |p.slots| && p.slots[i].pthread.Parked?
       case Lower => at.Lowering?
  }

  function DispatchStep(p: Pool, r: nat, d: DispatchEvent): Pool
    requires DispatchEnabled(p, r, d)
  {
    var at := p.requests[r].dispatch;
    match d
    case LoadCounter => SetDispatch(p, r, if p.queued == 0 then Scanning(0) else Raising)
    case TrySend(taken) =>
      if taken then DeliverTo(p, r, p.registry[at.entry].slot, Returned(p.registry[at.entry].slot))
      else SetDispatch(p, r, if at.entry < |p.registry| then Scanning(at.entry + 1) else Raising)
    case Raise => SetDispatch(p, r, Sending).(queued := p.queued + 1)
    case Rendezvous(i) => DeliverTo(p, r, i, Lowering(i))
    case Lower => SetDispatch(p, r, Returned(at.slot)).(queued := p.queued - 1)
  }

  predicate Enabled(p: Pool, e: Event) {
    match e
    case Turn(i, m) => i < |p.slots| && PthreadEnabled(p.slots[i], m)
    case ControlTurn(ch) => ControlEventEnabled(p, ch)
    case Outside(a) => AcquireEnabled(p, a)
    case Dispatching(r, d) => DispatchEnabled(p, r, d)
    case Submit(_, _) => true
  }

  function Step(p: Pool, e: Event): Pool
    requires Enabled(p, e)
  {
    match e
    case Turn(i, m) => PthreadEvent(p, i, m)
    case ControlTurn(ch) => ControlEvent(p, ch)
    case Outside(a) => AcquireStep(p, a)
    case Dispatching(r, d) => DispatchStep(p, r, d)
    case Submit(root, path) => p.(requests := p.requests + [Request(CgiPath.RequestScript(root, path), Submitted, 0)])
  }

  // ---- The invariant --------------------------------------------------------

  /** What a slot's control may be while the registry is at `op`; in a drain,
      once `begin_shutdown` is behind it, a slot is either owed a ticket or
      already vacant. */
  ghost predicate Placement(op: Op, i: nat, s: Slot) {
    var c := s.control;
    match op
    case Idle | Claimed(_) => c == Free
    case Init(n, _) => c == Free && (i >= n ==> Retired(s))
    case InitBoot(j, _) => if i == j then BootPlace(c) else c == Free && (i > j ==> Retired(s))
    case ClaimBoot(j) => if i == j then BootPlace(c) else c == Free
    case Convert(j) => if i == j then Converting(c) else c == Free
    case Shutdown(j) => if i == j then Stopping(c) else c == Free
    case DrainBegin(n) => if i < n then c.StopTimed? || Retired(s) else c == Free
    case DrainBegun(n) =>
      if i < n then c.StopTimed? || Retired(s) else if i == n then Beginning(c) else c == Free
    case DrainTimed(n) =>
      if i < n then c.StopFinal? || Retired(s)
      else if i == n then c.StopTimed? || c.StopTimedBlocked? || c.StopFinal? || Retired(s)
      else c.StopTimed? || Retired(s)
    case DrainFinal(n) =>
      if i < n then c.StopReopen? || Retired(s)
      else if i == n then c.StopFinal? || c.StopFinalBlocked? || c.StopReopen? || Retired(s)
      else c.StopFinal? || Retired(s)
    case DrainReopen(n) =>
      if i < n then Retired(s)
      else if i == n then c.StopReopen? || c.StopPublish? || c == Over(Stopped) || Retired(s)
      else c.StopReopen? || Retired(s)
    case InitMain(_, _, _) | DrainPublish | DrainMain | Cleared => Retired(s)
  }

  /** An equation for the same reason as `PhpThread.Inv`. */
  ghost predicate Fitting(op: Op, i: nat, s: Slot) {
    Placement(op, i, s) == true
  }

  ghost predicate Retired(s: Slot) {
    s.control == Free && s.cell.current == Reserved && s.pthread == Absent
  }

  ghost predicate BootPlace(c: Control) {
    c.BootReserved? || c.BootAsked? || c.BootHandler? || c.BootClose? || c.BootReopen? || c.BootLaunch?
    || c.BootUndo? || c.BootWait? || c.BootBlocked? || c == Over(Booted) || c == Over(BootFailed)
  }

  ghost predicate Asking(c: Control, stop: bool) {
    (c.Ask? || c.AskWait? || c.AskBlocked?) && (c.p == ToShutdown <==> stop)
  }

  ghost predicate Converting(c: Control) {
    Asking(c, false) || c.SwapClose? || c.SwapWait? || c.SwapBlocked? || c.SwapReplace? || c.SwapReopen?
    || c.SwapPublish? || c == Over(ConvertRefused) || (c.Over? && c.result.Converted?)
  }

  ghost predicate Beginning(c: Control) {
    Asking(c, true) || c.StopRefused? || c.StopClose? || c.StopTimed? || c == Over(Stopped)
  }

  ghost predicate Stopping(c: Control) {
    Beginning(c) || c.StopTimedBlocked? || c.StopFinal? || c.StopFinalBlocked? || c.StopReopen? || c.StopPublish?
  }

  /** The main pthread's state follows the drain, and an operation on a slot
      names one. */
  ghost predicate OpFits(op: Op, main: State, size: nat) {
    match op
    case DrainMain => main in {Done, Reserved}
    case Cleared => main == Reserved
    case InitMain(_, _, _) => main in {Reserved, Ready}
    case DrainPublish => main == ShuttingDown
    case DrainBegun(i) => main == ShuttingDown && i < size
    case InitBoot(i, _) => main == Ready && i < size
    case Claimed(i) => main == Ready && i < size
    case ClaimBoot(i) => main == Ready && i < size
    case Convert(i) => main == Ready && i < size
    case Shutdown(i) => main == Ready && i < size
    case _ => if Draining(op) then main == ShuttingDown else main == Ready
  }

  ghost predicate SlotsFit(p: Pool) {
    (forall i :: 0 <= i < |p.slots| ==> Inv(p.slots[i]) && Fitting(p.op, i, p.slots[i])) == true
  }

  /** A slot holds only requests that were delivered to it. */
  ghost predicate HoldsDelivered(p: Pool) {
    forall i :: 0 <= i < |p.slots| && Held(p.slots[i]).Some? ==>
      var r := Held(p.slots[i]).value;
      && r < |p.requests|
      && Delivered(p.requests[r].dispatch) && p.requests[r].dispatch.slot == i
  }

  /** Slot `i` holds `r` and has not closed it. */
  predicate OpenIn(p: Pool, r: nat, i: nat) {
    i < |p.slots| && Held(p.slots[i]) == Some(r) && !ClosedIn(p.slots[i])
  }

  /** A request's signal has fired exactly if a thread has taken the request and
      has closed or cleared its context; it never fires twice. */
  ghost predicate FiresOnce(p: Pool) {
    forall r :: 0 <= r < |p.requests| ==>
      var d := p.requests[r].dispatch;
      && p.requests[r].script != []
      && p.requests[r].fired == if Delivered(d) && !OpenIn(p, r, d.slot) then 1 else 0
  }

  predicate Queued(d: Dispatch) {
    d.Sending? || d.Lowering?
  }

  function CountQueued(rs: seq<Request>): nat {
    if rs == [] then 0 else
    CountQueued(rs[..|rs| - 1]) + if Queued(rs[|rs| - 1].dispatch) then 1 else 0
  }

  ghost predicate PoolInv(p: Pool) {
    SlotsFit(p) && OpFits(p.op, p.main, |p.slots|) && RequestsTracked(p)
  }

  // ---- Every event keeps it -----------------------------------------------

  /** A pthread step keeps the request it holds until its context is closed. */
  lemma HeldAfterPthread(s: Slot, m: Move)
    requires Inv(s) && PthreadEnabled(s, m)
    ensures var n := PthreadStep(s, m);
            && (Held(n) == Held(s) || (Held(n) == None && ClosedIn(s)))
            && (ClosedIn(s) && Held(n) == Held(s) ==> ClosedIn(n))
            && (ClosedIn(n) ==> Held(n) == Held(s) == Some(n.context.value.request))
  {
  }

  lemma HeldAfterControl(s: Slot, ch: Choice, whole: bool)
    requires Inv(s) && ControlEnabled(s, ch)
    ensures var n := ControlStep(s, ch, whole); Held(n) == Held(s) && ClosedIn(n) == ClosedIn(s)
    ensures var n := ControlStep(s, ch, whole); n.pthread == s.pthread || (s.control.BootLaunch? && n.pthread == Starting)
  {
  }

  lemma OneSlotChanges(p: Pool, i: nat, n: Slot)
    requires SlotsFit(p) && i < |p.slots| && Inv(n) && Fitting(p.op, i, n)
    ensures SlotsFit(SetSlot(p, i, n))
  {
  }

  /** A slot whose pthread is alive fits by its control alone. */
  lemma FittingByControl(op: Op, i: nat, s: Slot, n: Slot)
    requires Fitting(op, i, s) && s.pthread != Absent && n.control == s.control
    ensures Fitting(op, i, n)
  {
  }

  lemma TurnKeepsSlots(p: Pool, i: nat, m: Move)
    requires SlotsFit(p) && i < |p.slots| && PthreadEnabled(p.slots[i], m)
    ensures SlotsFit(PthreadEvent(p, i, m))
  {
    var n := PthreadStep(p.slots[i], m);
    PthreadKeepsInv(p.slots[i], m);
    assert n.control == p.slots[i].control;
    FittingByControl(p.op, i, p.slots[i], n);
    OneSlotChanges(p, i, n);
    assert PthreadEvent(p, i, m).slots == SetSlot(p, i, n).slots;
  }

  lemma BootStepFits(s: Slot, ch: Choice)
    requires BootPlace(s.control) && ControlEnabled(s, ch)
    ensures BootPlace(ControlStep(s, ch, false).control)
  {
  }

  lemma ConvertStepFits(s: Slot, ch: Choice)
    requires Converting(s.control) && ControlEnabled(s, ch)
    ensures Converting(ControlStep(s, ch, false).control)
  {
  }

  lemma StopStepFits(s: Slot, ch: Choice, whole: bool)
    requires Stopping(s.control) && ControlEnabled(s, ch)
    ensures Stopping(ControlStep(s, ch, whole).control)
    ensures Beginning(s.control) && !s.control.StopTimed? ==> Beginning(ControlStep(s, ch, whole).control)
  {
  }

  lemma FocusStepFits(op: Op, s: Slot, ch: Choice)
    requires Focus(op).Some? && Inv(s) && Fitting(op, Focus(op).value, s)
    requires !Advances(op, s.control) && ControlEnabled(s, ch)
    ensures Fitting(op, Focus(op).value, ControlStep(s, ch, Draining(op)))
  {
    if op.InitBoot? || op.ClaimBoot? {
      BootStepFits(s, ch);
    } else if op.Convert? {
      ConvertStepFits(s, ch);
    } else if op.Shutdown? || op.DrainBegun? {
      StopStepFits(s, ch, Draining(op));
    }
  }

  /** New slots, or none but new ones, are retired. */
  lemma FreshSlotsFit(p: Pool, size: nat, op: Op)
    requires op.Init? || op.InitMain?
    ensures SlotsFit(p.(slots := Slots(size), op := op))
  {
  }

  /** Beginning, or passing on, the work of a slot between operations. */
  lemma UnfocusedKeepsSlots(p: Pool)
    requires SlotsFit(p) && OpFits(p.op, p.main, |p.slots|) && Focus(p.op) == None && ControlEventEnabled(p, Proceed)
    ensures SlotsFit(ControlEvent(p, Proceed)) && OpFits(ControlEvent(p, Proceed).op, ControlEvent(p, Proceed).main, |ControlEvent(p, Proceed).slots|)
  {
    match p.op {
      case InitMain(size, count, _) => FreshSlotsFit(p, size, Init(0, count));
      case Init(_, _) => NextBoot(p);
      case DrainBegin(_) => NextShutdown(p);
      case _ =>
    }
  }

  lemma NextBoot(p: Pool)
    requires SlotsFit(p) && p.op.Init?
    ensures SlotsFit(ControlEvent(p, Proceed))
  {
    if p.op.next < |p.slots| {
      var s := p.slots[p.op.next];
      assert Fitting(p.op, p.op.next, s);
      BeginKeepsInv(s, BootReserved);
      NextKeepsSlots(p, p.op.next, s.(control := BootReserved), InitBoot(p.op.next, p.op.count));
    }
  }

  /** A loop over the registry takes up its next slot. */
  lemma NextKeepsSlots(p: Pool, i: nat, n: Slot, op: Op)
    requires SlotsFit(p) && i < |p.slots| && Inv(n) && Fitting(op, i, n)
    requires (p.op.Init? && p.op.next == i && op == InitBoot(i, p.op.count)) || (p.op == DrainBegin(i) && op == DrainBegun(i))
    ensures SlotsFit(SetSlot(p, i, n).(op := op))
  {
  }

  lemma NextShutdown(p: Pool)
    requires SlotsFit(p) && p.op.DrainBegin?
    ensures SlotsFit(ControlEvent(p, Proceed))
  {
    if p.op.next < |p.slots| {
      var s := p.slots[p.op.next];
      assert Fitting(p.op, p.op.next, s);
      BeginKeepsInv(s, Ask(ToShutdown));
      NextKeepsSlots(p, p.op.next, s.(control := Ask(ToShutdown)), DrainBegun(p.op.next));
    }
  }

  lemma AdvanceKeepsSlots(p: Pool, i: nat)
    requires SlotsFit(p) && OpFits(p.op, p.main, |p.slots|) && Focus(p.op) == Some(i) && i < |p.slots|
    requires Advances(p.op, p.slots[i].control)
    ensures SlotsFit(ControlAdvance(p, i)) && OpFits(ControlAdvance(p, i).op, ControlAdvance(p, i).main, |ControlAdvance(p, i).slots|)
  {
    var s := p.slots[i];
    var q := ControlAdvance(p, i);
    if s.control.Over? {
      BeginKeepsInv(s, Free);
    }
    assert s.control == Over(Stopped) ==> Retired(s.(control := Free));
    forall j | 0 <= j < |q.slots|
      ensures Inv(q.slots[j]) && Fitting(q.op, j, q.slots[j])
    {
      assert Fitting(p.op, j, p.slots[j]);
    }
  }

  lemma ControlTurnKeepsSlots(p: Pool, ch: Choice)
    requires SlotsFit(p) && OpFits(p.op, p.main, |p.slots|) && ControlEventEnabled(p, ch)
    ensures SlotsFit(ControlEvent(p, ch)) && OpFits(ControlEvent(p, ch).op, ControlEvent(p, ch).main, |ControlEvent(p, ch).slots|)
  {
    match Focus(p.op) {
      case None => UnfocusedKeepsSlots(p);
      case Some(i) =>
        if i < |p.slots| {
          if Advances(p.op, p.slots[i].control) {
            AdvanceKeepsSlots(p, i);
          } else {
            ControlKeepsInv(p.slots[i], ch, Draining(p.op));
            FocusStepFits(p.op, p.slots[i], ch);
            OneSlotChanges(p, i, ControlStep(p.slots[i], ch, Draining(p.op)));
          }
        }
    }
  }

  /** An operation acquires SCALING and begins on slot `i`. */
  lemma BeginKeepsSlots(p: Pool, i: nat, n: Slot, op: Op)
    requires SlotsFit(p) && (p.op == Idle || p.op.Claimed?) && i < |p.slots|
    requires Inv(n) && Fitting(op, i, n) && op in {ClaimBoot(i), Convert(i), Shutdown(i)}
    ensures SlotsFit(SetSlot(p, i, n).(op := op))
  {
  }

  lemma AskKeepsSlots(p: Pool, i: nat, purpose: Purpose, op: Op)
    requires SlotsFit(p) && (p.op == Idle || p.op.Claimed?) && i < |p.slots|
    requires op == if purpose == ToShutdown then Shutdown(i) else Convert(i)
    ensures SlotsFit(SetControl(p, i, Ask(purpose)).(op := op))
  {
    assert Fitting(p.op, i, p.slots[i]);
    BeginKeepsInv(p.slots[i], Ask(purpose));
    BeginKeepsSlots(p, i, p.slots[i].(control := Ask(purpose)), op);
  }

  /** Where all slots are free, the holder of SCALING may come and go. */
  lemma IdleKeepsSlots(p: Pool, op: Op)
    requires SlotsFit(p) && (p.op == Idle || p.op.Claimed?)
    requires op == Idle || op.Claimed? || op == DrainBegin(0)
    ensures SlotsFit(p.(op := op))
  {
  }

  lemma AcquireKeepsSlots(p: Pool, a: Acquisition)
    requires SlotsFit(p) && OpFits(p.op, p.main, |p.slots|) && AcquireEnabled(p, a)
    ensures SlotsFit(AcquireStep(p, a)) && OpFits(AcquireStep(p, a).op, AcquireStep(p, a).main, |AcquireStep(p, a).slots|)
  {
    match a {
      case Initialise(size, count, start) => FreshSlotsFit(p, 1, InitMain(size, count, start == Started));
      case MainReady =>
      case FindInactive(i) => IdleKeepsSlots(p, Claimed(i));
      case FindReserved(i) =>
        assert Fitting(p.op, i, p.slots[i]);
        MarkKeepsInv(p.slots[i]);
        BeginKeepsSlots(p, i, MarkedForBoot(p.slots[i]), ClaimBoot(i));
      case Assign(inactive) =>
        AskKeepsSlots(p, p.op.slot, ToHandler(if inactive then InactiveThread else RegularThread(p.channels)), Convert(p.op.slot));
      case DropClaim => IdleKeepsSlots(p, Idle);
      case SetHandler(i, h) => AskKeepsSlots(p, i, ToHandler(h), Convert(i));
      case ShutSlot(i) => AskKeepsSlots(p, i, ToShutdown, Shutdown(i));
      case DrainAll => IdleKeepsSlots(p, DrainBegin(0));
      case MainTeardown =>
      case Attach =>
    }
  }

  // ---- Requests -----------------------------------------------------------

  /** The slots hold what they held. */
  ghost predicate SameHolders(p: Pool, q: Pool) {
    && |q.slots| == |p.slots|
    && forall i :: 0 <= i < |p.slots| ==>
         Held(q.slots[i]) == Held(p.slots[i]) && ClosedIn(q.slots[i]) == ClosedIn(p.slots[i])
  }

  ghost predicate RequestsTracked(p: Pool) {
    (HoldsDelivered(p) && FiresOnce(p) && p.queued == CountQueued(p.requests)) == true
  }

  lemma SameHoldersTracked(p: Pool, q: Pool)
    requires RequestsTracked(p) && SameHolders(p, q) && q.requests == p.requests && q.queued == p.queued
    ensures RequestsTracked(q)
  {
  }

  lemma SlotKeepsRequests(p: Pool, i: nat, n: Slot)
    requires RequestsTracked(p) && i < |p.slots|
    requires Held(n) == Held(p.slots[i]) && ClosedIn(n) == ClosedIn(p.slots[i])
    ensures RequestsTracked(SetSlot(p, i, n))
  {
  }

  /** Retired slots hold nothing, so the signals of all delivered requests have
      fired and new slots may take their place. */
  lemma ReplacedSlotsTracked(p: Pool, q: Pool, size: nat)
    requires SlotsFit(p) && RequestsTracked(p) && (p.op == Cleared || p.op.InitMain?)
    requires q.slots == Slots(size) && q.requests == p.requests && q.queued == p.queued
    ensures RequestsTracked(q)
  {
    forall i | 0 <= i < |p.slots| ensures Held(p.slots[i]) == None {
      assert Fitting(p.op, i, p.slots[i]) && Inv(p.slots[i]);
    }
    assert forall r: nat, i: nat :: !OpenIn(p, r, i) && !OpenIn(q, r, i);
  }

  lemma AdvanceTouchesControl(p: Pool, i: nat)
    requires Focus(p.op) == Some(i) && i < |p.slots|
    ensures var q := ControlAdvance(p, i);
            && q.requests == p.requests && q.queued == p.queued
            && q.slots == if p.slots[i].control.Over? then p.slots[i := p.slots[i].(control := Free)] else p.slots
  {
  }

  lemma AdvanceKeepsRequests(p: Pool, i: nat)
    requires RequestsTracked(p) && Focus(p.op) == Some(i) && i < |p.slots|
    ensures RequestsTracked(ControlAdvance(p, i))
  {
    AdvanceTouchesControl(p, i);
    var n := p.slots[i].(control := Free);
    assert Held(n) == Held(p.slots[i]) && ClosedIn(n) == ClosedIn(p.slots[i]);
    SameHoldersTracked(p, ControlAdvance(p, i));
  }

  lemma ControlTurnKeepsRequests(p: Pool, ch: Choice)
    requires SlotsFit(p) && RequestsTracked(p) && ControlEventEnabled(p, ch)
    ensures RequestsTracked(ControlEvent(p, ch))
  {
    match Focus(p.op) {
      case None =>
        if p.op.InitMain? && p.op.started {
          ReplacedSlotsTracked(p, ControlEvent(p, ch), p.op.size);
        } else {
          SameHoldersTracked(p, ControlEvent(p, ch));
        }
      case Some(i) =>
        if i >= |p.slots| {
          SameHoldersTracked(p, ControlEvent(p, ch));
        } else if Advances(p.op, p.slots[i].control) {
          AdvanceKeepsRequests(p, i);
        } else {
          HeldAfterControl(p.slots[i], ch, Draining(p.op));
          SlotKeepsRequests(p, i, ControlStep(p.slots[i], ch, Draining(p.op)));
        }
    }
  }

  lemma AcquireTouchesNoRequest(p: Pool, a: Acquisition)
    requires AcquireEnabled(p, a)
    ensures AcquireStep(p, a).requests == p.requests && AcquireStep(p, a).queued == p.queued
  {
  }

  lemma AcquireKeepsHolders(p: Pool, a: Acquisition)
    requires AcquireEnabled(p, a) && !a.Initialise?
    ensures SameHolders(p, AcquireStep(p, a))
  {
  }

  lemma AcquireKeepsRequests(p: Pool, a: Acquisition)
    requires SlotsFit(p) && RequestsTracked(p) && AcquireEnabled(p, a)
    ensures RequestsTracked(AcquireStep(p, a))
  {
    var q := AcquireStep(p, a);
    AcquireTouchesNoRequest(p, a);
    if a.Initialise? {
      if a.start != NotStarted { ReplacedSlotsTracked(p, q, 1); }
    } else {
      AcquireKeepsHolders(p, a);
      SameHoldersTracked(p, q);
    }
  }

  lemma {:induction false} CountAfterUpdate(rs: seq<Request>, r: nat, x: Request)
    requires r < |rs|
    ensures CountQueued(rs[r := x]) ==
            CountQueued(rs) - (if Queued(rs[r].dispatch) then 1 else 0) + (if Queued(x.dispatch) then 1 else 0)
  {
    if r == |rs| - 1 {
      assert rs[r := x][..r] == rs[..r];
    } else {
      CountAfterUpdate(rs[..|rs| - 1], r, x);
      assert rs[r := x][..|rs| - 1] == rs[..|rs| - 1][r := x];
    }
  }

  /** Closing a context fires its request's signal; nothing else does. */
  lemma TurnKeepsRequests(p: Pool, i: nat, m: Move)
    requires SlotsFit(p) && RequestsTracked(p) && i < |p.slots| && PthreadEnabled(p.slots[i], m)
    ensures RequestsTracked(PthreadEvent(p, i, m))
  {
    var s := p.slots[i];
    var n := PthreadStep(s, m);
    var q := PthreadEvent(p, i, m);
    HeldAfterPthread(s, m);
    if Held(s).Some? {
      var r := Held(s).value;
      if ClosedIn(n) && !ClosedIn(s) {
        CountAfterUpdate(p.requests, r, q.requests[r]);
      }
    }
  }

  lemma DispatchKeepsRequests(p: Pool, r: nat, d: Dispatch, queued: int)
    requires RequestsTracked(p) && r < |p.requests|
    requires (!Delivered(p.requests[r].dispatch) && !Delivered(d))
             || (Delivered(p.requests[r].dispatch) && Delivered(d) && d.slot == p.requests[r].dispatch.slot)
    requires queued == p.queued - (if Queued(p.requests[r].dispatch) then 1 else 0) + (if Queued(d) then 1 else 0)
    ensures RequestsTracked(SetDispatch(p, r, d).(queued := queued))
  {
    CountAfterUpdate(p.requests, r, p.requests[r].(dispatch := d));
  }

  /** A rendezvous hands the request over: its slot held nothing before. */
  lemma DeliveryKeepsRequests(p: Pool, r: nat, i: nat, d: Dispatch)
    requires SlotsFit(p) && RequestsTracked(p) && r < |p.requests| && i < |p.slots| && p.slots[i].pthread.Parked?
    requires !Delivered(p.requests[r].dispatch) && Delivered(d) && d.slot == i
    requires Queued(p.requests[r].dispatch) == Queued(d)
    ensures RequestsTracked(DeliverTo(p, r, i, d))
    ensures SlotsFit(DeliverTo(p, r, i, d))
  {
    var n := Deliver(p.slots[i], r, true);
    DeliverKeepsInv(p.slots[i], r);
    FittingByControl(p.op, i, p.slots[i], n);
    OneSlotChanges(p, i, n);
    PhpThreadProgress.ParkedSeesDrain(p.slots[i]);
    HandOver(p, r, i, n, d);
  }

  lemma HandOver(p: Pool, r: nat, i: nat, n: Slot, d: Dispatch)
    requires RequestsTracked(p) && r < |p.requests| && i < |p.slots|
    requires Held(p.slots[i]) == None && Held(n) == Some(r) && !ClosedIn(n)
    requires !Delivered(p.requests[r].dispatch) && Delivered(d) && d.slot == i
    requires Queued(p.requests[r].dispatch) == Queued(d)
    ensures RequestsTracked(SetDispatch(SetSlot(p, i, n), r, d))
  {
    CountAfterUpdate(p.requests, r, p.requests[r].(dispatch := d));
  }

  lemma AppendKeepsRequests(p: Pool, script: Bytes.bytes)
    requires RequestsTracked(p) && script != []
    ensures RequestsTracked(p.(requests := p.requests + [Request(script, Submitted, 0)]))
  {
  }

  /** A dispatcher's own steps touch no slot. */
  lemma OwnStepTouchesNoSlot(p: Pool, r: nat, d: DispatchEvent)
    requires DispatchEnabled(p, r, d) && !d.Rendezvous? && !(d.TrySend? && d.taken)
    ensures DispatchStep(p, r, d).slots == p.slots && DispatchStep(p, r, d).op == p.op
  {
  }

  lemma OwnStepKeepsRequests(p: Pool, r: nat, d: DispatchEvent)
    requires RequestsTracked(p) && DispatchEnabled(p, r, d)
    requires !d.Rendezvous? && !(d.TrySend? && d.taken)
    ensures RequestsTracked(DispatchStep(p, r, d))
  {
    var at := p.requests[r].dispatch;
    match d {
      case LoadCounter => DispatchKeepsRequests(p, r, if p.queued == 0 then Scanning(0) else Raising, p.queued);
      case TrySend(_) => DispatchKeepsRequests(p, r, if at.entry < |p.registry| then Scanning(at.entry + 1) else Raising, p.queued);
      case Raise => DispatchKeepsRequests(p, r, Sending, p.queued + 1);
      case Rendezvous(_) =>
      case Lower => DispatchKeepsRequests(p, r, Returned(at.slot), p.queued - 1);
    }
  }

  lemma DispatchTouchesNoOp(p: Pool, r: nat, d: DispatchEvent)
    requires DispatchEnabled(p, r, d)
    ensures DispatchStep(p, r, d).op == p.op && DispatchStep(p, r, d).main == p.main
    ensures |DispatchStep(p, r, d).slots| == |p.slots|
  {
  }

  lemma DispatchEventKeepsRequests(p: Pool, r: nat, d: DispatchEvent)
    requires SlotsFit(p) && RequestsTracked(p) && DispatchEnabled(p, r, d)
    ensures RequestsTracked(DispatchStep(p, r, d)) && SlotsFit(DispatchStep(p, r, d))
  {
    match d {
      case TrySend(taken) =>
        if taken {
          var i := p.registry[p.requests[r].dispatch.entry].slot;
          DeliveryKeepsRequests(p, r, i, Returned(i));
        } else {
          OwnStepKeepsRequests(p, r, d);
          OwnStepTouchesNoSlot(p, r, d);
        }
      case Rendezvous(i) => DeliveryKeepsRequests(p, r, i, Lowering(i));
      case _ => OwnStepKeepsRequests(p, r, d); OwnStepTouchesNoSlot(p, r, d);
    }
  }

  /** Every event keeps the invariant of the registry and of every request. */
  lemma StepKeepsPoolInv(p: Pool, e: Event)
    requires PoolInv(p) && Enabled(p, e)
    ensures PoolInv(Step(p, e))
  {
    match e {
      case Turn(i, m) => TurnKeepsSlots(p, i, m); TurnKeepsRequests(p, i, m);
      case ControlTurn(ch) => ControlTurnKeepsSlots(p, ch); ControlTurnKeepsRequests(p, ch);
      case Outside(a) => AcquireKeepsSlots(p, a); AcquireKeepsRequests(p, a);
      case Dispatching(r, d) => DispatchEventKeepsRequests(p, r, d); DispatchTouchesNoOp(p, r, d);
      case Submit(root, path) => AppendKeepsRequests(p, CgiPath.RequestScript(root, path));
    }
  }
}
