/** The lifecycle state cell of `state.rs` as a value: the current state and the
    stored subscribers, with one function per critical section of its mutex.
    The class in `ThreadState.dfy` implements these functions in place; the
    protocol in `PhpThread.dfy` steps through them. */
module StateCell {

  import opened Wrappers

  datatype State =
    | Reserved | Booting | BootRequested | ShuttingDown | Done | Inactive | Ready
    | TransitionRequested | TransitionInProgress | TransitionComplete
    | Rebooting | ForceRebooting | RebootReady | YieldingForReboot

  /** `token` stands for the identity of the subscriber's `Arc<()>`. The stored
      entry owns the only sender, so a receiver is disconnected exactly when the
      entry with its token has left the vector. */
  datatype Subscriber = Subscriber(states: set<State>, token: nat)

  /** `issued` bounds every token handed out so far. */
  datatype Cell = Cell(current: State, subs: seq<Subscriber>, issued: nat)

  const NEW_CELL := Cell(Reserved, [], 0)

  ghost predicate Distinct(subs: seq<Subscriber>) {
    forall i, j :: 0 <= i < j < |subs| ==> subs[i].token != subs[j].token
  }

  /** Nobody stored is interested in the current state, and no token is stored
      twice or was never handed out. */
  ghost predicate Valid(c: Cell) {
    && Distinct(c.subs)
    && forall i :: 0 <= i < |c.subs| ==>
         c.subs[i].token < c.issued && c.current !in c.subs[i].states
  }

  /** The stored subscribers not interested in `s`, in their stored order. */
  function Retain(subs: seq<Subscriber>, s: State): seq<Subscriber> {
    if subs == [] then [] else
    var last := subs[|subs| - 1];
    Retain(subs[..|subs| - 1], s) + if s in last.states then [] else [last]
  }

  function Without(subs: seq<Subscriber>, token: nat): seq<Subscriber> {
    if subs == [] then [] else
    var last := subs[|subs| - 1];
    Without(subs[..|subs| - 1], token) + if last.token == token then [] else [last]
  }

  /** What the holder of `token` is still waiting for; None once disconnected. */
  function Awaits(subs: seq<Subscriber>, token: nat): Option<set<State>> {
    if subs == [] then None else
    var last := subs[|subs| - 1];
    if last.token == token then Some(last.states) else Awaits(subs[..|subs| - 1], token)
  }

  function Publish(c: Cell, s: State): Cell {
    Cell(s, Retain(c.subs, s), c.issued)
  }

  function Swap(c: Cell, expected: State, next: State): Cell {
    if c.current != expected then c else Publish(c, next)
  }

  /** Check and subscribe under one lock; the token is None when the current
      state is already one of `states`. */
  function Subscribe(c: Cell, states: set<State>): (Cell, Option<nat>) {
    if c.current in states then (c, None) else
    (c.(subs := c.subs + [Subscriber(states, c.issued)], issued := c.issued + 1), Some(c.issued))
  }

  function Expire(c: Cell, token: nat): Cell {
    c.(subs := Without(c.subs, token))
  }

  datatype Verdict = Refused | Granted | Retry

  /** One turn of the loop in `request_safe_state_change`. */
  function Request(c: Cell, next: State): (Cell, Verdict) {
    match c.current
    case Reserved | ShuttingDown | Done => (c, Refused)
    case Ready | Inactive => (Publish(c, next), Granted)
    case _ => (c, Retry)
  }

  // ---- What each operation does to every waiter -------------------------

  lemma {:induction false} AwaitsStored(subs: seq<Subscriber>, token: nat)
    requires Distinct(subs)
    ensures Awaits(subs, token) == None <==> forall i :: 0 <= i < |subs| ==> subs[i].token != token
    ensures forall i :: 0 <= i < |subs| && subs[i].token == token ==> Awaits(subs, token) == Some(subs[i].states)
  {
    if subs != [] {
      AwaitsStored(subs[..|subs| - 1], token);
    }
  }

  lemma {:induction false} RetainProperties(subs: seq<Subscriber>, s: State)
    requires Distinct(subs)
    ensures Distinct(Retain(subs, s))
    ensures forall x :: x in Retain(subs, s) <==> x in subs && s !in x.states
    ensures forall t: nat :: Awaits(Retain(subs, s), t) ==
                        match Awaits(subs, t) case Some(w) => (if s in w then None else Some(w)) case None => None
  {
    if subs != [] {
      var init, last := subs[..|subs| - 1], subs[|subs| - 1];
      RetainProperties(init, s);
      assert subs == init + [last];
      var kept := Retain(init, s);
      assert forall x :: x in kept ==> x.token != last.token;
      forall t: nat ensures Awaits(Retain(subs, s), t) ==
                       match Awaits(subs, t) case Some(w) => (if s in w then None else Some(w)) case None => None
      {
        AwaitsStored(kept, t);
        if s !in last.states {
          assert (kept + [last])[..|kept|] == kept;
        } else {
          assert Retain(subs, s) == kept;
        }
      }
    }
  }

  lemma {:induction false} WithoutProperties(subs: seq<Subscriber>, token: nat)
    requires Distinct(subs)
    ensures Distinct(Without(subs, token))
    ensures forall x :: x in Without(subs, token) <==> x in subs && x.token != token
    ensures forall t: nat :: Awaits(Without(subs, token), t) == if t == token then None else Awaits(subs, t)
  {
    if subs != [] {
      var init, last := subs[..|subs| - 1], subs[|subs| - 1];
      WithoutProperties(init, token);
      assert subs == init + [last];
      var kept := Without(init, token);
      assert forall x :: x in kept ==> x.token != last.token;
      forall t: nat ensures Awaits(Without(subs, token), t) == if t == token then None else Awaits(subs, t)
      {
        AwaitsStored(kept, t);
        if last.token != token {
          assert (kept + [last])[..|kept|] == kept;
        } else {
          assert Without(subs, token) == kept;
        }
      }
    }
  }

  /** Publishing `s` wakes exactly the waiters for `s` and nobody else. */
  lemma PublishWakes(c: Cell, s: State)
    requires Valid(c)
    ensures Valid(Publish(c, s)) && Publish(c, s).current == s
    ensures forall t: nat :: Awaits(Publish(c, s).subs, t) ==
                        match Awaits(c.subs, t) case Some(w) => (if s in w then None else Some(w)) case None => None
  {
    RetainProperties(c.subs, s);
    var kept := Retain(c.subs, s);
    forall i | 0 <= i < |kept|
      ensures kept[i].token < c.issued && s !in kept[i].states
    {
      assert kept[i] in kept;
    }
  }

  lemma {:induction false} RetainConcat(a: seq<Subscriber>, b: seq<Subscriber>, s: State)
    ensures Retain(a + b, s) == Retain(a, s) + Retain(b, s)
  {
    if b == [] {
      assert a + b == a;
    } else {
      var init := b[..|b| - 1];
      RetainConcat(a, init, s);
      assert (a + b)[..|a + b| - 1] == a + init;
    }
  }

  /** Of any two parts of the list, what the first keeps stays before what the
      second keeps, and a single waiter is kept or dropped as it asked. */
  lemma PublishKeepsOrder(c: Cell, s: State, a: seq<Subscriber>, b: seq<Subscriber>, x: Subscriber)
    requires c.subs == a + [x] + b
    ensures Publish(c, s).subs == Retain(a, s) + (if s in x.states then [] else [x]) + Retain(b, s)
  {
    RetainConcat(a + [x], b, s);
    RetainConcat(a, [x], s);
    assert [x][..0] == [];
  }

  /** Subscribing adds one fresh waiter and disturbs no other; the waiter is
      stored only if none of its states is current at that moment. */
  lemma SubscribeAdds(c: Cell, states: set<State>)
    requires Valid(c)
    ensures var (d, token) := Subscribe(c, states);
            && Valid(d)
            && d.current == c.current
            && (token == None <==> c.current in states)
            && (token == None ==> d == c)
            && forall t: nat :: Awaits(d.subs, t) ==
                           if token == Some(t) then Some(states) else Awaits(c.subs, t)
  {
  }

  /** A timeout removes its own entry and no other. */
  lemma ExpireRemoves(c: Cell, token: nat)
    requires Valid(c)
    ensures Valid(Expire(c, token))
    ensures forall t: nat :: Awaits(Expire(c, token).subs, t) == if t == token then None else Awaits(c.subs, t)
  {
    WithoutProperties(c.subs, token);
    var kept := Without(c.subs, token);
    forall i | 0 <= i < |kept|
      ensures kept[i].token < c.issued && c.current !in kept[i].states
    {
      assert kept[i] in kept;
    }
  }

  // ---- Every sequence of operations ------------------------------------

  datatype Op =
    | OpSet(next: State)
    | OpSwap(expected: State, next: State)
    | OpSubscribe(states: set<State>)
    | OpExpire(token: nat)
    | OpRequest(next: State)

  function Apply(c: Cell, op: Op): Cell {
    match op
    case OpSet(s) => Publish(c, s)
    case OpSwap(e, s) => Swap(c, e, s)
    case OpSubscribe(w) => Subscribe(c, w).0
    case OpExpire(t) => Expire(c, t)
    case OpRequest(s) => Request(c, s).0
  }

  function Run(c: Cell, ops: seq<Op>): Cell {
    if ops == [] then c else Apply(Run(c, ops[..|ops| - 1]), ops[|ops| - 1])
  }

  lemma {:induction false} RunKeepsValid(c: Cell, ops: seq<Op>)
    requires Valid(c)
    ensures Valid(Run(c, ops))
    ensures Run(c, ops).issued >= c.issued
  {
    if ops != [] {
      RunKeepsValid(c, ops[..|ops| - 1]);
      var d := Run(c, ops[..|ops| - 1]);
      match ops[|ops| - 1] {
        case OpSet(s) => PublishWakes(d, s);
        case OpSwap(e, s) => PublishWakes(d, s);
        case OpSubscribe(w) => SubscribeAdds(d, w);
        case OpExpire(t) => ExpireRemoves(d, t);
        case OpRequest(s) => PublishWakes(d, s);
      }
    }
  }

  /** What a publication of `s` leaves of one wait. */
  function Kept(w: Option<set<State>>, s: State): Option<set<State>> {
    if w.Some? && s in w.value then None else w
  }

  lemma PublishKeeps(c: Cell, s: State, token: nat)
    requires Valid(c)
    ensures Awaits(Publish(c, s).subs, token) == Kept(Awaits(c.subs, token), s)
  {
    PublishWakes(c, s);
  }

  /** No stored wait is interested in the current state. */
  lemma ValidKeeps(c: Cell, token: nat)
    requires Valid(c)
    ensures Kept(Awaits(c.subs, token), c.current) == Awaits(c.subs, token)
  {
    AwaitsStored(c.subs, token);
  }

  /** One operation releases a stored waiter exactly if it leaves the cell in a
      state the waiter asked for; no operation but its own timeout else touches it. */
  lemma ApplyWakes(c: Cell, op: Op, token: nat)
    requires Valid(c) && token < c.issued && op != OpExpire(token)
    ensures Awaits(Apply(c, op).subs, token) == Kept(Awaits(c.subs, token), Apply(c, op).current)
  {
    ValidKeeps(c, token);
    match op {
      case OpSet(s) => PublishKeeps(c, s, token);
      case OpSwap(x, s) => PublishKeeps(c, s, token);
      case OpSubscribe(w) => SubscribeAdds(c, w);
      case OpExpire(t) => ExpireRemoves(c, t);
      case OpRequest(s) => PublishKeeps(c, s, token);
    }
  }

  /** The cell holds one of `states` at some moment of the run, its ends included. */
  ghost predicate Seen(c: Cell, ops: seq<Op>, states: set<State>) {
    Run(c, ops).current in states || (ops != [] && Seen(c, ops[..|ops| - 1], states))
  }

  /** A blocked `wait_for(states)` is released by a run of operations if and only
      if the cell holds one of `states` after some operation of that run: no
      wake-up is lost, however briefly the state was current, and none is
      spurious. */
  lemma {:induction false} WaitReleasedIffSeen(c: Cell, states: set<State>, ops: seq<Op>)
    requires Valid(c) && c.current !in states
    requires forall k :: 0 <= k < |ops| ==> ops[k] != OpExpire(c.issued)
    ensures var d := Subscribe(c, states).0;
            Awaits(Run(d, ops).subs, c.issued) == if Seen(d, ops, states) then None else Some(states)
  {
    var d := Subscribe(c, states).0;
    SubscribeAdds(c, states);
    if ops != [] {
      var init := ops[..|ops| - 1];
      WaitReleasedIffSeen(c, states, init);
      RunKeepsValid(d, init);
      ApplyWakes(Run(d, init), ops[|ops| - 1], c.issued);
    }
  }

  /** A safe state change is granted only out of Ready or Inactive, in the same
      step, and refused only in Reserved, ShuttingDown or Done. */
  lemma RequestIsSafe(c: Cell, next: State)
    requires Valid(c)
    ensures var (d, v) := Request(c, next);
            && Valid(d)
            && (v == Granted <==> c.current in {Ready, Inactive})
            && (v == Refused <==> c.current in {Reserved, ShuttingDown, Done})
            && d.current == (if v == Granted then next else c.current)
            && (v != Granted ==> d == c)
  {
    PublishWakes(c, next);
  }

  // ---- The whole retry loop ---------------------------------------------------

  const STABLE: set<State> := {Ready, Inactive}
  const CLOSING: set<State> := {Reserved, ShuttingDown, Done}

  /** A call of `request_safe_state_change`: turn after turn, with `gaps[k]` what
      happens to the cell, its own wait included, between turns k and k + 1. */
  function RequestLoop(c: Cell, next: State, gaps: seq<seq<Op>>): (Cell, Verdict)
    decreases |gaps|
  {
    var (d, v) := Request(c, next);
    if v != Retry || gaps == [] then (d, v) else RequestLoop(Run(d, gaps[0]), next, gaps[1..])
  }

  /** The cell as turn `k` finds it, if the turns before it did not settle. */
  function AtTurn(c: Cell, gaps: seq<seq<Op>>, k: nat): Cell
    requires k <= |gaps|
    decreases k
  {
    if k == 0 then c else AtTurn(Run(c, gaps[0]), gaps[1..], k - 1)
  }

  /** Turn `k` is the first to find a settled state. */
  ghost predicate Settles(c: Cell, gaps: seq<seq<Op>>, k: nat) {
    && k <= |gaps|
    && AtTurn(c, gaps, k).current in STABLE + CLOSING
    && forall j: nat :: j < k ==> AtTurn(c, gaps, j).current !in STABLE + CLOSING
  }

  /** However the cell changes between its turns: if some turn finds a settled
      state, the first one decides. The call returns true if and only if that turn
      found Ready or Inactive, and made the change in that very step; false if and
      only if it found Reserved, ShuttingDown or Done, and then it changed nothing.
      If no turn finds one, the call is still in its loop. */
  lemma {:induction false} RequestLoopIsSafe(c: Cell, next: State, gaps: seq<seq<Op>>) returns (settled: bool, k: nat)
    ensures k <= |gaps|
    ensures if settled then Settles(c, gaps, k)
            else k == |gaps| && forall j: nat :: j <= k ==> AtTurn(c, gaps, j).current !in STABLE + CLOSING
    ensures var (d, v) := RequestLoop(c, next, gaps);
            var found := AtTurn(c, gaps, k);
            && (v == Granted <==> settled && found.current in STABLE)
            && (v == Refused <==> settled && found.current in CLOSING)
            && d == if v == Granted then Publish(found, next) else found
    decreases |gaps|
  {
    if c.current in STABLE + CLOSING {
      settled, k := true, 0;
    } else if gaps == [] {
      settled, k := false, 0;
    } else {
      var d, rest := Run(c, gaps[0]), gaps[1..];
      settled, k := RequestLoopIsSafe(d, next, rest);
      forall j: nat | 0 < j <= |gaps| ensures AtTurn(c, gaps, j) == AtTurn(d, rest, j - 1) {
      }
      k := k + 1;
    }
  }
}
