/** One PHP-thread slot: its pthread (`thread_inactive.rs`, `thread_regular.rs`,
    the callbacks) and the controller holding SCALING (`thread.rs`), each with a
    program counter, sharing the state cell, the drain channel, the handler
    slot and the context slot. Every critical section is one step; reading the
    state and publishing the next one are separate steps. */
module PhpThread {
  import opened StateCell
  import opened Wrappers
  import opened DrainChannel

  /** A regular handler is identified by its directed request channel. */
  datatype Handler = InactiveThread | RegularThread(channel: nat)

  /** The request installed in the slot of `CONTEXT_SLOTS`. */
  datatype Context = Context(request: nat, closed: bool)

  /** Where the pthread is. */
  datatype Pthread =
    | Absent
    | Starting                                        // C startup before the first callback
    | Enter                                           // about to clone the handler
    | Top(h: Handler)                                 // about to read the state
    | Rebooted(h: Handler)
    | Stray(h: Handler) | StrayBlocked(h: Handler, token: nat)
    | IdlePublish | IdleWait | IdleBlocked(token: nat)
    | ReadyPublish(channel: nat)
    | Fetch(channel: nat)                             // read Ready, no drain receiver yet
    | Parked(channel: nat, epoch: nat)
    | Dequeued(channel: nat, request: nat, named: bool)
    | Script(channel: nat)
    | After(channel: nat)                             // script over, about to clone the handler
    | CloseContext(channel: nat) | ClearContext(channel: nat)
    | Detach(channel: nat, toHandler: bool)
    | Acknowledge | CompleteWait | CompleteBlocked(token: nat)
    | Leave | Depart(last: State)

  datatype Purpose = ToHandler(h: Handler) | ToShutdown

  datatype Result = Booted | BootFailed | Converted(h: Handler) | ConvertRefused | Stopped

  /** Where the holder of SCALING is with this slot, and the ticket it owes. */
  datatype Control =
    | Free
    | BootReserved | BootAsked | BootHandler | BootClose | BootReopen(ticket: nat)
    | BootLaunch | BootUndo | BootWait | BootBlocked(token: nat)
    | Ask(p: Purpose) | AskWait(p: Purpose) | AskBlocked(p: Purpose, token: nat)
    | SwapClose(h: Handler) | SwapWait(h: Handler, ticket: nat)
    | SwapBlocked(h: Handler, ticket: nat, token: nat)
    | SwapReplace(h: Handler, ticket: nat) | SwapReopen(h: Handler, ticket: nat) | SwapPublish(h: Handler)
    | StopRefused | StopClose
    | StopTimed(ticket: nat) | StopTimedBlocked(ticket: nat, token: nat)
    | StopFinal(ticket: nat) | StopFinalBlocked(ticket: nat, token: nat)
    | StopReopen(ticket: nat) | StopPublish
    | Over(result: Result)

  datatype Slot = Slot(
    cell: Cell,
    drain: Drain,
    handler: Option<Handler>,
    pthread: Pthread,
    control: Control,
    context: Option<Context>)

  const NEW_SLOT := Slot(NEW_CELL, NEW_DRAIN, None, Absent, Free, None)

  const IDLE_WAKES := {TransitionRequested, ShuttingDown, Rebooting, ForceRebooting}
  const IDLE_STRAY_WAKES := {Booting, TransitionRequested, TransitionComplete, Inactive, ShuttingDown,
                             Rebooting, ForceRebooting, RebootReady}
  const REGULAR_STRAY_WAKES := {TransitionRequested, TransitionComplete, Ready, Rebooting, ForceRebooting,
                                RebootReady, ShuttingDown}
  const SETTLED := {Ready, Inactive, State.Reserved}

  // ---- The pthread ------------------------------------------------------

  /** A running script either ends or calls `fastcgi_finish_request()`. */
  datatype Move = Go | FinishRequest

  predicate PthreadEnabled(s: Slot, m: Move) {
    match s.pthread
    case Absent => false
    case StrayBlocked(_, t) => m == Go && Awaits(s.cell.subs, t) == None
    case IdleBlocked(t) => m == Go && Awaits(s.cell.subs, t) == None
    case CompleteBlocked(t) => m == Go && Awaits(s.cell.subs, t) == None
    case Parked(_, e) => m == Go && Disconnected(s.drain, e)
    case Script(_) => true
    case _ => m == Go
  }

  /** `close_context`: idempotent. */
  function Closed(c: Option<Context>): Option<Context> {
    match c case Some(x) => Some(x.(closed := true)) case None => None
  }

  function AtTop(s: Slot, h: Handler): Pthread {
    match h
    case InactiveThread => (
      match s.cell.current
      case TransitionRequested => Acknowledge
      case Booting | TransitionComplete | Inactive => IdlePublish
      case Rebooting | ForceRebooting | ShuttingDown => Leave
      case RebootReady => Rebooted(h)
      case _ => Stray(h))
    case RegularThread(c) => (
      match s.cell.current
      case TransitionRequested => Detach(c, true)
      case TransitionComplete => ReadyPublish(c)
      case Ready => Fetch(c)
      case Rebooting | ForceRebooting => Leave
      case RebootReady => Rebooted(h)
      case ShuttingDown => Detach(c, false)
      case _ => Stray(h))
  }

  /** Check-and-subscribe, then continue at `now` or block on the new token. */
  function Wait(s: Slot, states: set<State>, now: Pthread, blocked: Pthread): Slot {
    var (cell, token) := Subscribe(s.cell, states);
    s.(cell := cell, pthread := match token case None => now case Some(_) => blocked)
  }

  function PthreadStep(s: Slot, m: Move): Slot
    requires PthreadEnabled(s, m)
  {
    match s.pthread
    case Starting => s.(pthread := Enter)
    case Enter => s.(pthread := match s.handler case None => Leave case Some(h) => Top(h))
    case Top(h) => s.(pthread := AtTop(s, h))
    case Rebooted(h) => s.(cell := Publish(s.cell, if h == InactiveThread then Inactive else Ready), pthread := Top(h))
    case Stray(h) =>
      Wait(s, if h == InactiveThread then IDLE_STRAY_WAKES else REGULAR_STRAY_WAKES, Top(h), StrayBlocked(h, s.cell.issued))
    case StrayBlocked(h, _) => s.(pthread := Top(h))
    case IdlePublish => s.(cell := Publish(s.cell, Inactive), pthread := IdleWait)
    case IdleWait => Wait(s, IDLE_WAKES, Top(InactiveThread), IdleBlocked(s.cell.issued))
    case IdleBlocked(_) => s.(pthread := Top(InactiveThread))
    case ReadyPublish(c) => s.(cell := Publish(s.cell, Ready), pthread := Top(RegularThread(c)))
    case Fetch(c) => s.(pthread := Parked(c, s.drain.epoch))
    case Parked(c, _) => s.(pthread := Top(RegularThread(c)))
    case Dequeued(c, r, named) =>
      s.(context := Some(Context(r, false)), pthread := if named then Script(c) else Leave)
    case Script(c) =>
      if m == FinishRequest then s.(context := Closed(s.context)) else s.(pthread := After(c))
    case After(_) =>
      s.(pthread := match s.handler case Some(RegularThread(c)) => CloseContext(c) case _ => Enter)
    case CloseContext(c) => s.(context := Closed(s.context), pthread := ClearContext(c))
    case ClearContext(_) => s.(context := None, pthread := Enter)
    case Detach(_, toHandler) => s.(pthread := if toHandler then Acknowledge else Leave)
    case Acknowledge => s.(cell := Publish(s.cell, TransitionInProgress), pthread := CompleteWait)
    case CompleteWait => Wait(s, {TransitionComplete}, Enter, CompleteBlocked(s.cell.issued))
    case CompleteBlocked(_) => s.(pthread := Enter)
    case Leave =>
      s.(pthread := match s.cell.current
                    case Rebooting => Depart(RebootReady)
                    case ForceRebooting => Depart(YieldingForReboot)
                    case _ => Depart(Done))
    case Depart(last) => s.(cell := Publish(s.cell, last), pthread := Absent)
  }

  /** A dispatcher completes the rendezvous with a parked handler. The select may
      still take a request although the drain arm has become ready. */
  function Deliver(s: Slot, request: nat, named: bool): Slot
    requires s.pthread.Parked?
  {
    s.(pthread := Dequeued(s.pthread.channel, request, named))
  }

  // ---- The controller ---------------------------------------------------

  datatype Choice = Proceed | TimesOut | LaunchFails

  predicate ControlEnabled(s: Slot, ch: Choice) {
    match s.control
    case Free | Over(_) => false
    case BootLaunch => ch != TimesOut
    case BootBlocked(t) => ch == Proceed && Awaits(s.cell.subs, t) == None
    case AskBlocked(_, t) => ch == Proceed && Awaits(s.cell.subs, t) == None
    case SwapBlocked(_, _, t) => ch == Proceed && Awaits(s.cell.subs, t) == None
    case StopTimedBlocked(_, t) => ch == TimesOut || (ch == Proceed && Awaits(s.cell.subs, t) == None)
    case StopFinalBlocked(_, t) => ch == Proceed && Awaits(s.cell.subs, t) == None
    case _ => ch == Proceed
  }

  function ControlWait(s: Slot, states: set<State>, now: Control, blocked: Control): Slot {
    var (cell, token) := Subscribe(s.cell, states);
    s.(cell := cell, control := match token case None => now case Some(_) => blocked)
  }

  /** One step of the controller. `whole` tells a registry drain, which looks at
      Done again after its timed wait, from the shutdown of a single slot. */
  function ControlStep(s: Slot, ch: Choice, whole: bool): Slot
    requires ControlEnabled(s, ch)
  {
    match s.control
    // boot
    case BootReserved =>
      if s.cell.current == State.Reserved
      then s.(cell := Swap(s.cell, State.Reserved, Booting), control := BootHandler)
      else s.(control := BootAsked)
    case BootAsked =>
      if s.cell.current == BootRequested
      then s.(cell := Swap(s.cell, BootRequested, Booting), control := BootHandler)
      else s.(control := Over(BootFailed))
    case BootHandler => s.(handler := Some(InactiveThread), control := BootClose)
    case BootClose =>
      var (drain, ticket) := Close(s.drain);
      s.(drain := drain, control := match ticket case Some(t) => BootReopen(t) case None => BootLaunch)
    case BootReopen(t) => s.(drain := Reopen(s.drain, t), control := BootLaunch)
    case BootLaunch =>
      if ch == LaunchFails then s.(control := BootUndo) else s.(pthread := Starting, control := BootWait)
    case BootUndo => s.(cell := Publish(s.cell, State.Reserved), control := Over(BootFailed))
    case BootWait => ControlWait(s, {Inactive}, Over(Booted), BootBlocked(s.cell.issued))
    case BootBlocked(_) => s.(control := Over(Booted))
    // request_safe_state_change
    case Ask(p) =>
      var target := if p == ToShutdown then ShuttingDown else TransitionRequested;
      var (cell, verdict) := Request(s.cell, target);
      s.(cell := cell,
         control := match (verdict, p)
                    case (Granted, ToHandler(h)) => SwapClose(h)
                    case (Granted, ToShutdown) => StopClose
                    case (Refused, ToHandler(h)) => Over(ConvertRefused)
                    case (Refused, ToShutdown) => StopRefused
                    case (Retry, _) => AskWait(p))
    case AskWait(p) => ControlWait(s, SETTLED, Ask(p), AskBlocked(p, s.cell.issued))
    case AskBlocked(p, _) => s.(control := Ask(p))
    // set_handler_locked
    case SwapClose(h) =>
      var (drain, ticket) := Close(s.drain);
      s.(drain := drain, control := match ticket case Some(t) => SwapWait(h, t) case None => Over(ConvertRefused))
    case SwapWait(h, k) => ControlWait(s, {TransitionInProgress}, SwapReplace(h, k), SwapBlocked(h, k, s.cell.issued))
    case SwapBlocked(h, k, _) => s.(control := SwapReplace(h, k))
    case SwapReplace(h, k) => s.(handler := Some(h), control := SwapReopen(h, k))
    case SwapReopen(h, k) => s.(drain := Reopen(s.drain, k), control := SwapPublish(h))
    case SwapPublish(h) => s.(cell := Publish(s.cell, TransitionComplete), control := Over(Converted(h)))
    // begin_shutdown, shutdown_locked, drain_generation, finish_shutdown
    case StopRefused => s.(cell := Swap(s.cell, Done, State.Reserved), control := Over(Stopped))
    case StopClose =>
      var (drain, ticket) := Close(s.drain);
      s.(drain := drain, control := match ticket case Some(t) => StopTimed(t) case None => Over(Stopped))
    case StopTimed(k) =>
      ControlWait(s, {Done}, if whole then StopFinal(k) else StopReopen(k), StopTimedBlocked(k, s.cell.issued))
    case StopTimedBlocked(k, t) =>
      if ch == TimesOut then s.(cell := Expire(s.cell, t), control := StopFinal(k))
      else s.(control := if whole then StopFinal(k) else StopReopen(k))
    case StopFinal(k) => ControlWait(s, {Done}, StopReopen(k), StopFinalBlocked(k, s.cell.issued))
    case StopFinalBlocked(k, _) => s.(control := StopReopen(k))
    case StopReopen(k) => s.(drain := Reopen(s.drain, k), control := StopPublish)
    case StopPublish => s.(cell := Publish(s.cell, State.Reserved), control := Over(Stopped))
  }

  // ---- The invariant of one slot ------------------------------------------

  /** The pcs of a regular handler that serves requests. */
  ghost predicate ServingAt(s: Slot, c: nat) {
    match s.pthread
    case Enter => true
    case Top(h) => h == RegularThread(c)
    case Fetch(d) => d == c
    case Parked(d, e) => d == c && e == s.drain.epoch
    case Dequeued(d, _, named) => d == c && named
    case Script(d) => d == c
    case After(d) => d == c
    case CloseContext(d) => d == c
    case ClearContext(d) => d == c
    case _ => false
  }

  ghost predicate Launching(s: Slot) {
    s.handler == Some(InactiveThread)
    && (s.pthread in {Starting, Enter, IdlePublish} || s.pthread == Top(InactiveThread))
  }

  ghost predicate Dozing(s: Slot) {
    s.handler == Some(InactiveThread)
    && (s.pthread == IdleWait
        || (s.pthread.IdleBlocked? && Awaits(s.cell.subs, s.pthread.token) == Some(IDLE_WAKES)))
  }

  ghost predicate Serving(s: Slot) {
    s.handler.Some? && s.handler.value.RegularThread? && ServingAt(s, s.handler.value.channel)
  }

  /** The new handler is installed but has not published its first state. */
  ghost predicate Settling(s: Slot) {
    match s.pthread
    case CompleteWait => s.handler.Some?
    case CompleteBlocked(t) => s.handler.Some? && Awaits(s.cell.subs, t) == None
    case Enter => s.handler.Some?
    case Top(h) => s.handler == Some(h)
    case IdlePublish => s.handler == Some(InactiveThread)
    case ReadyPublish(c) => s.handler == Some(RegularThread(c))
    case _ => false
  }

  /** A request is published that the pthread has not answered; `answering` are
      the pcs from which it does. */
  ghost predicate Leaving(s: Slot, toHandler: bool) {
    match s.pthread
    case IdleWait => s.handler == Some(InactiveThread)
    case IdleBlocked(t) => s.handler == Some(InactiveThread) && Awaits(s.cell.subs, t) == None
    case Top(h) => s.handler == Some(h)
    case Detach(c, b) => s.handler == Some(RegularThread(c)) && b == toHandler
    case Acknowledge => toHandler
    case Leave => !toHandler
    case Depart(last) => !toHandler && last == Done
    case _ => Serving(s)
  }

  ghost predicate Acknowledged(s: Slot) {
    s.pthread == CompleteWait
    || (s.pthread.CompleteBlocked? && Awaits(s.cell.subs, s.pthread.token) == Some({TransitionComplete}))
  }

  /** The pthread is at a place that fits the published state. */
  ghost predicate Fits(s: Slot) {
    Placed(s) == true
  }

  ghost predicate Placed(s: Slot) {
    match s.cell.current
    case Reserved | BootRequested | Done => s.pthread == Absent
    case Booting => s.pthread == Absent || Launching(s)
    case Inactive => Dozing(s)
    case Ready => Serving(s)
    case TransitionComplete => Settling(s)
    case TransitionRequested => Leaving(s, true)
    case ShuttingDown => Leaving(s, false)
    case TransitionInProgress => Acknowledged(s)
    case _ => false
  }

  /** What the place of the controller allows the state to be, and when its own
      subscription (`awaits`) is still stored. `live` says that a pthread runs. */
  ghost predicate Phase(c: Control, current: State, live: bool, handler: Option<Handler>, awaits: Option<set<State>>) {
    match c
    case Free => current in {State.Reserved, Inactive, Ready, TransitionComplete}
    case BootReserved => current in {State.Reserved, BootRequested}
    case BootAsked => current == BootRequested
    case BootHandler => current == Booting && !live
    case BootClose | BootReopen(_) | BootLaunch | BootUndo => current == Booting && !live && handler == Some(InactiveThread)
    case BootWait => live && current in {Booting, Inactive}
    case BootBlocked(_) => live && Pending(current, Booting, Inactive, awaits, {Inactive})
    case Ask(_) => current in {State.Reserved, Inactive, Ready, TransitionComplete}
    case AskWait(_) => current in {Inactive, Ready, TransitionComplete}
    case AskBlocked(_, _) =>
      Pending(current, TransitionComplete, if handler == Some(InactiveThread) then Inactive else Ready, awaits, SETTLED)
    case SwapClose(_) | SwapWait(_, _) => current in {TransitionRequested, TransitionInProgress}
    case SwapBlocked(_, _, _) =>
      Pending(current, TransitionRequested, TransitionInProgress, awaits, {TransitionInProgress})
    case SwapReplace(_, _) => current == TransitionInProgress
    case SwapReopen(h, _) => current == TransitionInProgress && handler == Some(h)
    case SwapPublish(h) => current == TransitionInProgress && handler == Some(h)
    case StopRefused => current == State.Reserved
    case StopClose | StopTimed(_) | StopFinal(_) => current in {ShuttingDown, Done}
    case StopTimedBlocked(_, _) => Pending(current, ShuttingDown, Done, awaits, {Done})
    case StopFinalBlocked(_, _) => Pending(current, ShuttingDown, Done, awaits, {Done})
    case StopReopen(_) | StopPublish => current == Done
    case Over(Booted) => current == Inactive
    case Over(BootFailed) => current == State.Reserved
    case Over(Converted(h)) => current in {TransitionComplete, Inactive, Ready} && handler == Some(h)
    case Over(ConvertRefused) => current == State.Reserved
    case Over(Stopped) => current == State.Reserved
  }

  /** Either the pthread has not answered and the controller's entry is stored,
      or it has answered and the entry is gone. */
  ghost predicate Pending(current: State, asked: State, answer: State, awaits: Option<set<State>>, wanted: set<State>) {
    (current == asked && awaits == Some(wanted)) || (current == answer && awaits == None)
  }

  /** The ticket of a closed drain generation, where the controller holds one. */
  function Ticket(c: Control): Option<nat> {
    match c
    case BootReopen(k) => Some(k)
    case SwapWait(_, k) => Some(k)
    case SwapBlocked(_, k, _) => Some(k)
    case SwapReplace(_, k) => Some(k)
    case SwapReopen(_, k) => Some(k)
    case StopTimed(k) => Some(k)
    case StopTimedBlocked(k, _) => Some(k)
    case StopFinal(k) => Some(k)
    case StopFinalBlocked(k, _) => Some(k)
    case StopReopen(k) => Some(k)
    case _ => None
  }

  function PthreadToken(p: Pthread): Option<nat> {
    match p
    case StrayBlocked(_, t) => Some(t)
    case IdleBlocked(t) => Some(t)
    case CompleteBlocked(t) => Some(t)
    case _ => None
  }

  function ControlToken(c: Control): Option<nat> {
    match c
    case BootBlocked(t) => Some(t)
    case AskBlocked(_, t) => Some(t)
    case SwapBlocked(_, _, t) => Some(t)
    case StopTimedBlocked(_, t) => Some(t)
    case StopFinalBlocked(_, t) => Some(t)
    case _ => None
  }

  ghost function AwaitsToken(cell: Cell, token: Option<nat>): Option<set<State>> {
    match token case None => None case Some(t) => Awaits(cell.subs, t)
  }

  ghost predicate TokensIssued(s: Slot) {
    && (PthreadToken(s.pthread).Some? ==> PthreadToken(s.pthread).value < s.cell.issued)
    && (ControlToken(s.control).Some? ==> ControlToken(s.control).value < s.cell.issued)
  }

  ghost predicate DrainTracked(c: Control, drain: Drain) {
    match Ticket(c)
    case Some(k) => !drain.open && k == Tag(drain)
    case None => drain.open
  }

  ghost predicate ContextTracked(s: Slot) {
    && (s.context.Some? <==> s.pthread.Script? || s.pthread.After? || s.pthread.CloseContext? || s.pthread.ClearContext?)
    && (s.pthread.ClearContext? ==> s.context.value.closed)
  }

  ghost predicate PhaseHolds(s: Slot) {
    Phase(s.control, s.cell.current, s.pthread != Absent, s.handler, AwaitsToken(s.cell, ControlToken(s.control)))
  }

  ghost predicate Consistent(s: Slot) {
    && Valid(s.cell) && TokensIssued(s) && ContextTracked(s)
    && DrainTracked(s.control, s.drain)
    && Fits(s) && PhaseHolds(s)
  }

  /** The invariant of a slot. An equation, because the verifier would split a
      bare call into its many leaves at every use. */
  ghost predicate Inv(s: Slot) {
    Consistent(s) == true
  }

  // ---- Every step keeps it ------------------------------------------------

  /** `d` is `c` after `next` was published. */
  ghost predicate Published(c: Cell, next: State, d: Cell) {
    && Valid(d) && d.current == next && d.issued == c.issued
    && forall t: nat :: Awaits(d.subs, t) ==
         match Awaits(c.subs, t) case Some(w) => (if next in w then None else Some(w)) case None => None
  }

  /** `d` is `c` after a wait for `states`, which blocked if `added`. */
  ghost predicate Subscribed(c: Cell, states: set<State>, d: Cell, added: bool) {
    && Valid(d) && d.current == c.current
    && (added <==> c.current !in states)
    && d.issued == (if added then c.issued + 1 else c.issued)
    && forall t: nat :: Awaits(d.subs, t) ==
         if added && t == c.issued then Some(states) else Awaits(c.subs, t)
  }

  /** The edges a pthread publishes. */
  predicate PthreadEdge(a: State, b: State) {
    (a, b) in {(Booting, Inactive), (TransitionComplete, Inactive), (TransitionComplete, Ready),
               (TransitionRequested, TransitionInProgress), (ShuttingDown, Done)}
  }

  /** The controller's phase survives whatever the pthread publishes. */
  lemma PhaseSurvivesPthread(c: Control, a: State, b: State, live: bool, handler: Option<Handler>, wa: Option<set<State>>)
    requires Phase(c, a, true, handler, wa) && PthreadEdge(a, b)
    requires b == Inactive ==> handler == Some(InactiveThread)
    requires b == Ready ==> handler.Some? && handler.value.RegularThread?
    requires live <==> b != Done
    ensures Phase(c, b, live, handler, match wa case Some(w) => (if b in w then None else Some(w)) case None => None)
  {
  }

  lemma PthreadPublishes(s: Slot, d: Cell, next: Pthread)
    requires Inv(s)
    requires match s.pthread
             case IdlePublish => Published(s.cell, Inactive, d) && next == IdleWait
             case ReadyPublish(c) => Published(s.cell, Ready, d) && next == Top(RegularThread(c))
             case Acknowledge => Published(s.cell, TransitionInProgress, d) && next == CompleteWait
             case Depart(last) => Published(s.cell, last, d) && next == Absent
             case _ => false
    ensures Inv(s.(cell := d, pthread := next))
    ensures PthreadEdge(s.cell.current, d.current)
  {
    assert PthreadEdge(s.cell.current, d.current);
    PhaseSurvivesPthread(s.control, s.cell.current, d.current, next != Absent, s.handler,
                         AwaitsToken(s.cell, ControlToken(s.control)));
  }

  lemma PthreadWaits(s: Slot, d: Cell, added: bool, next: Pthread)
    requires Inv(s)
    requires match s.pthread
             case IdleWait =>
               Subscribed(s.cell, IDLE_WAKES, d, added)
               && next == (if added then IdleBlocked(s.cell.issued) else Top(InactiveThread))
             case CompleteWait =>
               Subscribed(s.cell, {TransitionComplete}, d, added)
               && next == (if added then CompleteBlocked(s.cell.issued) else Enter)
             case _ => false
    ensures Inv(s.(cell := d, pthread := next))
  {
  }

  /** The pthread changes nothing but its own place and its context slot. */
  lemma PthreadStays(s: Slot, next: Pthread, context: Option<Context>)
    requires Inv(s)
    requires var n := s.(pthread := next, context := context);
             Fits(n) && ContextTracked(n) && PthreadToken(next) == None && next != Absent && s.pthread != Absent
    ensures Inv(s.(pthread := next, context := context))
  {
  }

  ghost predicate Publishing(p: Pthread) {
    p.IdlePublish? || p.ReadyPublish? || p.Acknowledge? || p.Depart?
  }

  /** Reading the state never finds a value the handler does not expect. */
  lemma TopFits(s: Slot)
    requires Inv(s) && s.pthread.Top?
    ensures Fits(s.(pthread := AtTop(s, s.pthread.h)))
    ensures AtTop(s, s.pthread.h) in {IdlePublish, Acknowledge, Leave}
            || AtTop(s, s.pthread.h).Detach? || AtTop(s, s.pthread.h).ReadyPublish? || AtTop(s, s.pthread.h).Fetch?
  {
  }

  /** The other steps that leave the state cell alone. */
  lemma MoveFits(s: Slot, m: Move)
    requires Inv(s) && PthreadEnabled(s, m)
    requires !Publishing(s.pthread) && !s.pthread.IdleWait? && !s.pthread.CompleteWait? && !s.pthread.Top?
    ensures var n := PthreadStep(s, m);
            && n == s.(pthread := n.pthread, context := n.context)
            && PthreadToken(n.pthread) == None && n.pthread != Absent
            && ContextTracked(n)
            && Fits(n)
  {
  }

  lemma PthreadKeepsInv(s: Slot, m: Move)
    requires Inv(s) && PthreadEnabled(s, m)
    ensures Inv(PthreadStep(s, m))
    ensures var n := PthreadStep(s, m);
            n.cell.current == s.cell.current || PthreadEdge(s.cell.current, n.cell.current)
  {
    var n := PthreadStep(s, m);
    if Publishing(s.pthread) {
      PublishWakes(s.cell, n.cell.current);
      PthreadPublishes(s, n.cell, n.pthread);
    } else if s.pthread.IdleWait? {
      SubscribeAdds(s.cell, IDLE_WAKES);
      PthreadWaits(s, n.cell, s.cell.current !in IDLE_WAKES, n.pthread);
    } else if s.pthread.CompleteWait? {
      SubscribeAdds(s.cell, {TransitionComplete});
      PthreadWaits(s, n.cell, s.cell.current != TransitionComplete, n.pthread);
    } else if s.pthread.Top? {
      TopFits(s);
      PthreadStays(s, n.pthread, n.context);
    } else {
      MoveFits(s, m);
      PthreadStays(s, n.pthread, n.context);
    }
  }

  lemma DeliverKeepsInv(s: Slot, request: nat)
    requires Inv(s) && s.pthread.Parked?
    ensures Inv(Deliver(s, request, true))
    ensures Deliver(s, request, true).cell == s.cell
  {
  }

  /** The edges the controller publishes. */
  predicate ControlEdge(a: State, b: State) {
    || (a in {State.Reserved, BootRequested} && b == Booting)
    || (a == State.Reserved && b == BootRequested)
    || (a in {Booting, Done} && b == State.Reserved)
    || (a in {Inactive, Ready} && b in {TransitionRequested, ShuttingDown})
    || (a == TransitionInProgress && b == TransitionComplete)
  }

  /** The pthread's place fits whatever the controller publishes. */
  lemma FitsAfterControl(s: Slot, d: Cell)
    requires Fits(s) && Published(s.cell, d.current, d) && ControlEdge(s.cell.current, d.current)
    requires s.cell.current == Booting ==> s.pthread == Absent
    requires s.cell.current == TransitionInProgress ==> s.handler.Some?
    ensures Fits(s.(cell := d))
  {
  }

  /** Nor does a subscription or a timeout of the controller disturb it. */
  lemma FitsAfterControlWait(s: Slot, d: Cell, control: Control)
    requires Fits(s) && TokensIssued(s) && d.current == s.cell.current
    requires PthreadToken(s.pthread).Some? ==>
               Awaits(d.subs, PthreadToken(s.pthread).value) == Awaits(s.cell.subs, PthreadToken(s.pthread).value)
    ensures Fits(s.(cell := d, control := control))
  {
  }

  lemma FitsIgnoresControl(s: Slot, control: Control)
    requires Fits(s)
    ensures Fits(s.(control := control))
  {
  }

  ghost predicate Announcing(c: Control) {
    c.BootReserved? || c.BootAsked? || c.BootUndo? || c.Ask? || c.SwapPublish? || c.StopPublish? || c.StopRefused?
  }

  /** The states a control place is about to wait for. */
  function Wanted(c: Control): set<State> {
    match c
    case BootWait => {Inactive}
    case AskWait(_) => SETTLED
    case SwapWait(_, _) => {TransitionInProgress}
    case StopTimed(_) => {Done}
    case StopFinal(_) => {Done}
    case _ => {}
  }

  ghost predicate Released(c: Control) {
    c.BootBlocked? || c.AskBlocked? || c.SwapBlocked? || c.StopTimedBlocked? || c.StopFinalBlocked?
  }

  /** The part of `Consistent` a controller step can break, on plain values. */
  ghost predicate ControlHolds(c: Control, current: State, live: bool, handler: Option<Handler>,
                               drain: Drain, issued: nat, awaits: Option<set<State>>)
  {
    && Phase(c, current, live, handler, awaits)
    && DrainTracked(c, drain)
    && (ControlToken(c).Some? ==> ControlToken(c).value < issued)
  }

  lemma Assemble(s: Slot)
    requires Valid(s.cell) && Fits(s) && ContextTracked(s)
    requires PthreadToken(s.pthread).Some? ==> PthreadToken(s.pthread).value < s.cell.issued
    requires ControlHolds(s.control, s.cell.current, s.pthread != Absent, s.handler, s.drain, s.cell.issued,
                          AwaitsToken(s.cell, ControlToken(s.control)))
    ensures Inv(s)
  {
  }

  lemma ControlAnnounces(s: Slot, d: Cell, n: Slot, ch: Choice, whole: bool)
    requires Inv(s) && ControlEnabled(s, ch) && Announcing(s.control)
    requires n == ControlStep(s, ch, whole) && Published(s.cell, n.cell.current, Publish(s.cell, n.cell.current))
    ensures Inv(n)
    ensures n.cell == s.cell || ControlEdge(s.cell.current, n.cell.current)
  {
    assert n == s.(cell := n.cell, control := n.control);
    assert n.cell == s.cell || n.cell == Publish(s.cell, n.cell.current);
    assert n.cell == s.cell || ControlEdge(s.cell.current, n.cell.current);
    if n.cell != s.cell {
      FitsAfterControl(s, n.cell);
    }
    FitsIgnoresControl(s.(cell := n.cell), n.control);
    Assemble(n);
  }

  lemma ControlSubscribes(s: Slot, n: Slot, added: bool)
    requires Inv(s) && Wanted(s.control) != {}
    requires n == s.(cell := n.cell, control := n.control)
    requires Subscribed(s.cell, Wanted(s.control), n.cell, added)
    requires match s.control
             case BootWait => n.control == (if added then BootBlocked(s.cell.issued) else Over(Booted))
             case AskWait(p) => n.control == (if added then AskBlocked(p, s.cell.issued) else Ask(p))
             case SwapWait(h, k) => n.control == (if added then SwapBlocked(h, k, s.cell.issued) else SwapReplace(h, k))
             case StopTimed(k) =>
               if added then n.control == StopTimedBlocked(k, s.cell.issued) else n.control in {StopFinal(k), StopReopen(k)}
             case StopFinal(k) => n.control == (if added then StopFinalBlocked(k, s.cell.issued) else StopReopen(k))
             case _ => false
    ensures Inv(n)
  {
    FitsAfterControlWait(s, n.cell, n.control);
    Assemble(n);
  }

  lemma ControlReleases(s: Slot, n: Slot)
    requires Inv(s) && Released(s.control) && Awaits(s.cell.subs, ControlToken(s.control).value) == None
    requires n == s.(control := n.control)
    requires match s.control
             case BootBlocked(_) => n.control == Over(Booted)
             case AskBlocked(p, _) => n.control == Ask(p)
             case SwapBlocked(h, k, _) => n.control == SwapReplace(h, k)
             case StopTimedBlocked(k, _) => n.control in {StopFinal(k), StopReopen(k)}
             case StopFinalBlocked(k, _) => n.control == StopReopen(k)
    ensures Inv(n)
  {
    FitsIgnoresControl(s, n.control);
    Assemble(n);
  }

  lemma TimeoutKeepsInv(s: Slot, n: Slot)
    requires Inv(s) && s.control.StopTimedBlocked? && Valid(n.cell)
    requires n == s.(cell := n.cell, control := StopFinal(s.control.ticket))
    requires n.cell.current == s.cell.current && n.cell.issued == s.cell.issued
    requires forall t: nat :: Awaits(n.cell.subs, t) ==
                              if t == s.control.token then None else Awaits(s.cell.subs, t)
    ensures Inv(n)
  {
    FitsAfterControlWait(s, n.cell, n.control);
    Assemble(n);
  }

  /** The steps on the handler slot, the drain channel and the launcher. */
  lemma ControlPrepares(s: Slot, ch: Choice, whole: bool)
    requires Inv(s) && ControlEnabled(s, ch)
    requires !Announcing(s.control) && Wanted(s.control) == {} && !Released(s.control)
    ensures Inv(ControlStep(s, ch, whole))
    ensures ControlStep(s, ch, whole).cell == s.cell
  {
  }

  lemma ControlKeepsInv(s: Slot, ch: Choice, whole: bool)
    requires Inv(s) && ControlEnabled(s, ch)
    ensures Inv(ControlStep(s, ch, whole))
    ensures var n := ControlStep(s, ch, whole);
            n.cell.current == s.cell.current || ControlEdge(s.cell.current, n.cell.current)
  {
    var n := ControlStep(s, ch, whole);
    if Announcing(s.control) {
      PublishWakes(s.cell, n.cell.current);
      ControlAnnounces(s, n.cell, n, ch, whole);
    } else if Wanted(s.control) != {} {
      SubscribeAdds(s.cell, Wanted(s.control));
      ControlSubscribes(s, n, s.cell.current !in Wanted(s.control));
    } else if ch == TimesOut {
      ExpireRemoves(s.cell, s.control.token);
      TimeoutKeepsInv(s, n);
    } else if Released(s.control) {
      ControlReleases(s, n);
    } else {
      ControlPrepares(s, ch, whole);
    }
  }

  /** An operation may begin on a free slot, and its result be taken. */
  lemma BeginKeepsInv(s: Slot, control: Control)
    requires Inv(s)
    requires if s.control.Over? then control == Free
             else s.control == Free && (control.Ask? || (control == BootReserved && s.cell.current == State.Reserved))
    ensures Inv(s.(control := control))
  {
    FitsIgnoresControl(s, control);
    Assemble(s.(control := control));
  }

  /** `get_inactive_php_thread` marks a reserved slot before it boots it. */
  function MarkedForBoot(s: Slot): Slot {
    s.(cell := Swap(s.cell, State.Reserved, BootRequested), control := BootReserved)
  }

  lemma MarkKeepsInv(s: Slot)
    requires Inv(s) && s.control == Free && s.cell.current == State.Reserved
    ensures Inv(MarkedForBoot(s))
  {
    var n := MarkedForBoot(s);
    PublishWakes(s.cell, BootRequested);
    FitsAfterControl(s, n.cell);
    FitsIgnoresControl(s.(cell := n.cell), BootReserved);
    Assemble(n);
  }
}
