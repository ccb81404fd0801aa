/** The rolling pool of `cmd_run` in `loop.py`: the claim loop and its workers,
    interleaved step by step. */
module RunPool {
  import opened Wrappers

  /** Every worker ever submitted; `inflight` names those not yet reaped, and
      `released` says that the worker took fr:claimed off its issue. */
  datatype Worker = Worker(issue: nat, running: bool, released: bool)

  /** Where the claim loop is. `Checking` is inside `claim`, between the edit of
      the labels and reading them back. */
  datatype Pc =
    | Top | Sweep | Pending | Budget
    | Claiming(queue: seq<nat>, busy: set<nat>, budget: nat, batch: seq<nat>)
    | Checking(issue: nat, queue: seq<nat>, busy: set<nat>, budget: nat, batch: seq<nat>)
    | Submitting(batch: seq<nat>)
    | Idle
    | Stopped | Restarted | Drained

  /** How a pass over an idle queue ended. */
  datatype Poll = Claimed | Waiting | Empty

  /** A label edit that landed, and whether `claim` then returned True. */
  datatype Landing = Landing(issue: nat, won: bool)

  /** `parallel` and `confirmations` are the operator's settings; `excluding` is
      whether issues in flight are skipped, and `current` whether the queue that
      is fetched lists only issues that carry fr:ready. */
  datatype Pool = Pool(
    pc: Pc,
    workers: seq<Worker>,
    inflight: set<nat>,
    ready: set<nat>,       // issues carrying fr:ready
    labelled: set<nat>,    // issues carrying fr:claimed
    unowned: set<nat>,     // labelled by this loop, and no worker submitted since
    landings: seq<Landing>,
    empty: nat,
    polls: seq<Poll>,
    parallel: nat, confirmations: int, excluding: bool, current: bool)

  datatype Event =
    | Proceed                       // the loop's only way on
    | Quit                          // wallclock spent or no agent left
    | Reap(done: set<nat>)
    | UpdatePending(yes: bool)
    | Fetch(queue: seq<nat>)
    | Edit(landed: bool, ok: bool)  // the edit's effect, and what gh reports
    | ReadBack(won: bool)
    | Ask(remaining: bool)          // is anything ready though not claimable
    | Requeue(w: nat)               // a running worker re-scopes its own issue
    | Park(w: nat)                  // or takes fr:claimed off it otherwise
    | Finish(w: nat)
    | Relabel(issue: nat, on: bool) // anyone else edits fr:ready

  predicate Distinct(s: seq<nat>) {
    forall i, j :: 0 <= i < j < |s| ==> s[i] != s[j]
  }

  function Initial(ready: set<nat>, parallel: nat, confirmations: int, excluding: bool, current: bool): Pool {
    Pool(Top, [], {}, ready, {}, {}, [], 0, [], parallel, confirmations, excluding, current)
  }

  function Busy(p: Pool): set<nat> {
    set w | w in p.inflight && w < |p.workers| :: p.workers[w].issue
  }

  predicate MainEnabled(p: Pool, e: Event) {
    match p.pc
    case Top => e == Proceed || e == Quit
    case Sweep => e.Reap? && forall w :: w in e.done ==> w in p.inflight && w < |p.workers| && !p.workers[w].running
    case Pending => e.UpdatePending?
    case Budget =>
      if |p.inflight| < p.parallel
      then e.Fetch? && Distinct(e.queue) && (p.current ==> forall k :: 0 <= k < |e.queue| ==> e.queue[k] in p.ready)
      else e == Proceed
    case Claiming(queue, busy, budget, batch) =>
      if queue == [] || |batch| >= budget || queue[0] in busy then e == Proceed
      else e.Edit? && (e.ok ==> e.landed)
    case Checking(_, _, _, _, _) => e.ReadBack?
    case Submitting(_) => e == Proceed
    case Idle => if p.inflight != {} then e == Proceed else e.Ask?
    case Stopped | Restarted | Drained => false
  }

  /** `batch` is done being claimed. */
  function Batched(p: Pool, batch: seq<nat>): Pool {
    if batch == [] then p.(pc := Idle) else p.(pc := Submitting(batch), empty := 0, polls := p.polls + [Claimed])
  }

  function LabelEdited(p: Pool, x: nat): Pool {
    p.(ready := p.ready - {x}, labelled := p.labelled + {x}, unowned := p.unowned + {x})
  }

  function Submitted(p: Pool, x: nat): Pool {
    p.(workers := p.workers + [Worker(x, true, false)], inflight := p.inflight + {|p.workers|}, unowned := p.unowned - {x})
  }

  function MainStep(p: Pool, e: Event): Pool
    requires MainEnabled(p, e)
  {
    match p.pc
    case Top => if e == Quit then p.(pc := Stopped) else p.(pc := Sweep)
    case Sweep => p.(inflight := p.inflight - e.done, pc := Pending)
    case Pending =>
      if !e.yes then p.(pc := Budget)
      else if p.inflight != {} then p.(pc := Top)
      else p.(pc := Restarted)
    case Budget =>
      if e.Fetch? then p.(pc := Claiming(e.queue, if p.excluding then Busy(p) else {}, p.parallel - |p.inflight|, []))
      else Batched(p, [])
    case Claiming(queue, busy, budget, batch) =>
      if queue == [] || |batch| >= budget then Batched(p, batch)
      else if e == Proceed || !e.landed then p.(pc := Claiming(queue[1..], busy, budget, batch))
      else if !e.ok then
        LabelEdited(p, queue[0]).(pc := Claiming(queue[1..], busy, budget, batch), landings := p.landings + [Landing(queue[0], false)])
      else LabelEdited(p, queue[0]).(pc := Checking(queue[0], queue[1..], busy, budget, batch))
    case Checking(x, queue, busy, budget, batch) =>
      p.(pc := Claiming(queue, busy, budget, if e.won then batch + [x] else batch), landings := p.landings + [Landing(x, e.won)])
    case Submitting(batch) =>
      if batch == [] then p.(pc := Top) else Submitted(p, batch[0]).(pc := Submitting(batch[1..]))
    case Idle =>
      if e == Proceed then p.(pc := Top)
      else if e.remaining then p.(pc := Top, empty := 0, polls := p.polls + [Waiting])
      else p.(pc := if p.empty + 1 >= p.confirmations then Drained else Top, empty := p.empty + 1, polls := p.polls + [Empty])
    case Stopped | Restarted | Drained => p
  }

  function Released(p: Pool, w: nat): Pool
    requires w < |p.workers|
  {
    p.(workers := p.workers[w := p.workers[w].(released := true)], labelled := p.labelled - {p.workers[w].issue})
  }

  predicate ByWorld(e: Event) {
    e.Requeue? || e.Park? || e.Finish? || e.Relabel?
  }

  predicate Enabled(p: Pool, e: Event) {
    match e
    case Requeue(w) => w < |p.workers| && p.workers[w].running
    case Park(w) => w < |p.workers| && p.workers[w].running
    case Finish(w) => w < |p.workers| && p.workers[w].running
    case Relabel(_, _) => true
    case _ => MainEnabled(p, e)
  }

  function Step(p: Pool, e: Event): Pool
    requires Enabled(p, e)
  {
    match e
    case Requeue(w) => Released(p, w).(ready := p.ready + {p.workers[w].issue})
    case Park(w) => Released(p, w)
    case Finish(w) => p.(workers := p.workers[w := p.workers[w].(running := false)])
    case Relabel(i, on) => p.(ready := if on then p.ready + {i} else p.ready - {i})
    case _ => MainStep(p, e)
  }

  // ---- The invariant ----------------------------------------------------------

  function Elements(s: seq<nat>): set<nat> {
    set x | x in s
  }

  /** The issues won in this pass and not yet submitted. */
  function InHand(pc: Pc): seq<nat> {
    match pc
    case Claiming(_, _, _, batch) => batch
    case Checking(_, _, _, _, batch) => batch
    case Submitting(batch) => batch
    case _ => []
  }

  /** And the one whose labels are being read back. */
  function Held(pc: Pc): set<nat> {
    Elements(InHand(pc)) + if pc.Checking? then {pc.issue} else {}
  }

  function Queue(pc: Pc): seq<nat> {
    match pc
    case Claiming(queue, _, _, _) => queue
    case Checking(_, queue, _, _, _) => queue
    case _ => []
  }

  /** How the last edit that landed on `x` ended. */
  function LastLanding(ls: seq<Landing>, x: nat): Option<bool> {
    if ls == [] then None
    else if ls[|ls| - 1].issue == x then Some(ls[|ls| - 1].won)
    else LastLanding(ls[..|ls| - 1], x)
  }

  ghost predicate Bounded(p: Pool) {
    && (forall w :: w in p.inflight ==> w < |p.workers|)
    && (forall w :: 0 <= w < |p.workers| && p.workers[w].running ==> w in p.inflight)
    && |p.inflight| + |InHand(p.pc)| <= p.parallel
    && (p.pc.Claiming? || p.pc.Checking? ==> p.pc.budget == p.parallel - |p.inflight|)
    && (p.pc.Checking? ==> |p.pc.batch| < p.pc.budget)
  }

  /** The last `empty` polls found nothing, and nothing has run since. */
  ghost predicate Confirming(p: Pool) {
    && p.empty <= |p.polls|
    && (forall k :: |p.polls| - p.empty <= k < |p.polls| ==> p.polls[k] == Empty)
    && (p.empty > 0 ==> p.inflight == {} && !p.pc.Submitting?)
    && (p.pc.Restarted? || p.pc.Drained? ==> p.inflight == {})
    && (p.pc.Drained? ==> p.empty >= p.confirmations && p.empty > 0)
  }

  /** Issues in flight are distinct. */
  ghost predicate Apart(p: Pool) {
    forall v, w :: v in p.inflight && w in p.inflight && v < w < |p.workers| ==> p.workers[v].issue != p.workers[w].issue
  }

  /** What is held and what is queued are distinct, and nobody's. */
  ghost predicate HandFits(p: Pool) {
    && Distinct(InHand(p.pc)) && Distinct(Queue(p.pc))
    && (forall k :: 0 <= k < |Queue(p.pc)| ==> Queue(p.pc)[k] !in Held(p.pc))
    && (p.pc.Checking? ==> p.pc.issue !in p.pc.batch)
    && (p.pc.Claiming? || p.pc.Checking? ==> p.pc.busy == Busy(p))
  }

  /** Who carries fr:claimed without a worker: what the loop holds, and whatever
      the last edit that landed did not win. */
  ghost predicate Tracked(p: Pool) {
    && (forall x: nat :: x in p.unowned <==> x in Held(p.pc) || LastLanding(p.landings, x) == Some(false))
    && (forall x: nat :: x in InHand(p.pc) ==> LastLanding(p.landings, x) == Some(true))
    && p.unowned <= p.labelled
    && p.unowned !! Busy(p)
  }

  /** What holds with or without the exclusion. */
  ghost predicate Basic(p: Pool) {
    (Bounded(p) && Confirming(p)) == true
  }

  /** An equation, so that a proof of it is not taken apart. */
  ghost predicate Inv(p: Pool) {
    p.excluding && (Basic(p) && Apart(p) && HandFits(p) && Tracked(p)) == true
  }

  // ---- With or without the exclusion --------------------------------------------

  lemma Fewer(a: set<nat>, b: set<nat>)
    requires a <= b
    ensures |a| <= |b|
  {
    assert b == a + (b - a);
  }

  lemma WorldKeepsBasic(p: Pool, e: Event)
    requires Basic(p) && Enabled(p, e) && ByWorld(e)
    ensures Basic(Step(p, e))
  {
  }

  lemma ClaimKeepsBasic(p: Pool, e: Event)
    requires Basic(p) && MainEnabled(p, e) && (p.pc.Claiming? || p.pc.Checking?)
    ensures Basic(MainStep(p, e))
  {
  }

  lemma SubmitBounded(p: Pool, x: nat, rest: seq<nat>)
    requires Bounded(p) && p.pc == Submitting([x] + rest)
    ensures Bounded(Submitted(p, x).(pc := Submitting(rest)))
  {
    assert |p.workers| !in p.inflight;
    assert |p.inflight + {|p.workers|}| == |p.inflight| + 1;
    var q := Submitted(p, x);
    assert forall w :: 0 <= w < |p.workers| ==> q.workers[w] == p.workers[w];
  }

  lemma SubmitKeepsBasic(p: Pool, e: Event)
    requires Basic(p) && MainEnabled(p, e) && p.pc.Submitting?
    ensures Basic(MainStep(p, e))
  {
    var batch := p.pc.batch;
    if batch != [] {
      assert batch == [batch[0]] + batch[1..];
      SubmitBounded(p, batch[0], batch[1..]);
      SubmitConfirms(p, batch[0], batch[1..]);
    }
  }

  lemma SubmitConfirms(p: Pool, x: nat, rest: seq<nat>)
    requires Confirming(p) && p.pc.Submitting?
    ensures Confirming(Submitted(p, x).(pc := Submitting(rest)))
  {
  }

  lemma SweepKeepsBasic(p: Pool, e: Event)
    requires Basic(p) && MainEnabled(p, e) && p.pc.Sweep?
    ensures Basic(MainStep(p, e))
  {
    Fewer(p.inflight - e.done, p.inflight);
  }

  lemma IdleKeepsBasic(p: Pool, e: Event)
    requires Basic(p) && MainEnabled(p, e) && p.pc.Idle?
    ensures Basic(MainStep(p, e))
  {
  }

  lemma OtherKeepsBasic(p: Pool, e: Event)
    requires Basic(p) && MainEnabled(p, e) && (p.pc.Top? || p.pc.Pending? || p.pc.Budget?)
    ensures Basic(MainStep(p, e))
  {
  }

  lemma StepKeepsBasic(p: Pool, e: Event)
    requires Basic(p) && Enabled(p, e)
    ensures Basic(Step(p, e))
  {
    if ByWorld(e) {
      WorldKeepsBasic(p, e);
    } else {
      match p.pc {
        case Claiming(_, _, _, _) | Checking(_, _, _, _, _) => ClaimKeepsBasic(p, e);
        case Submitting(_) => SubmitKeepsBasic(p, e);
        case Sweep => SweepKeepsBasic(p, e);
        case Idle => IdleKeepsBasic(p, e);
        case _ => OtherKeepsBasic(p, e);
      }
    }
  }

  // ---- With it ----------------------------------------------------------------------

  lemma LandingAppends(ls: seq<Landing>, l: Landing, x: nat)
    ensures LastLanding(ls + [l], x) == if l.issue == x then Some(l.won) else LastLanding(ls, x)
  {
    assert (ls + [l])[..|ls|] == ls;
  }

  /** Nothing changes for the pool but who runs and who carries which label. */
  lemma WorldKeepsInv(p: Pool, e: Event)
    requires Inv(p) && Enabled(p, e) && ByWorld(e)
    ensures Inv(Step(p, e))
  {
    var q := Step(p, e);
    StepKeepsBasic(p, e);
    assert forall w :: 0 <= w < |p.workers| ==> q.workers[w].issue == p.workers[w].issue;
    assert Busy(q) == Busy(p);
    match e {
      case Requeue(w) => assert p.workers[w].issue in Busy(p);
      case Park(w) => assert p.workers[w].issue in Busy(p);
      case _ =>
    }
  }

  lemma SweepKeepsInv(p: Pool, e: Event)
    requires Inv(p) && MainEnabled(p, e) && p.pc == Sweep
    ensures Inv(MainStep(p, e))
  {
    StepKeepsBasic(p, e);
    assert Busy(MainStep(p, e)) <= Busy(p);
  }

  /** A candidate nobody owns is labelled, and is held or lost for this pass. */
  lemma EditTracks(p: Pool, q: Pool, x: nat, rest: seq<nat>, ok: bool)
    requires HandFits(p) && Tracked(p) && Apart(p) && p.pc.Claiming? && p.pc.queue == [x] + rest && x !in Busy(p)
    requires q.workers == p.workers && q.inflight == p.inflight
    requires q.labelled == p.labelled + {x} && q.unowned == p.unowned + {x}
    requires ok ==> q.pc == Checking(x, rest, p.pc.busy, p.pc.budget, p.pc.batch) && q.landings == p.landings
    requires !ok ==> q.pc == Claiming(rest, p.pc.busy, p.pc.budget, p.pc.batch) && q.landings == p.landings + [Landing(x, false)]
    ensures Apart(q) && HandFits(q) && Tracked(q)
  {
    assert p.pc.queue[0] == x && forall k :: 0 <= k < |rest| ==> rest[k] == p.pc.queue[k + 1];
    assert Busy(q) == Busy(p);
    forall y: nat ensures LastLanding(q.landings, y) == if !ok && y == x then Some(false) else LastLanding(p.landings, y) {
      LandingAppends(p.landings, Landing(x, false), y);
    }
  }

  lemma EditKeepsInv(p: Pool, e: Event)
    requires Inv(p) && MainEnabled(p, e) && p.pc.Claiming? && e.Edit? && e.landed
    ensures Inv(MainStep(p, e))
  {
    var x, rest := p.pc.queue[0], p.pc.queue[1..];
    StepKeepsBasic(p, e);
    assert p.pc.queue == [x] + rest;
    EditTracks(p, MainStep(p, e), x, rest, e.ok);
  }

  /** The claim loop moves on without an edit that lands. */
  lemma SkipKeepsInv(p: Pool, e: Event)
    requires Inv(p) && MainEnabled(p, e) && p.pc.Claiming? && !(e.Edit? && e.landed)
    ensures Inv(MainStep(p, e))
  {
    var q := MainStep(p, e);
    StepKeepsBasic(p, e);
    assert Busy(q) == Busy(p);
    if !q.pc.Claiming? {
      assert Queue(q.pc) == [] && InHand(q.pc) == p.pc.batch;
      SameHand(p, q);
    } else {
      assert p.pc.queue == [p.pc.queue[0]] + p.pc.queue[1..];
      SameHand(p, q);
    }
  }

  /** Labels and owners are as they were. */
  lemma SameHand(p: Pool, q: Pool)
    requires Apart(p) && HandFits(p) && Tracked(p)
    requires q.workers == p.workers && q.inflight == p.inflight
    requires q.labelled == p.labelled && q.unowned == p.unowned && q.landings == p.landings
    requires InHand(q.pc) == InHand(p.pc) && !p.pc.Checking? && !q.pc.Checking?
    requires Distinct(Queue(q.pc)) && forall k :: 0 <= k < |Queue(q.pc)| ==> Queue(q.pc)[k] in Queue(p.pc)
    requires q.pc.Claiming? ==> q.pc.busy == Busy(p)
    ensures Apart(q) && HandFits(q) && Tracked(q)
  {
    assert Busy(q) == Busy(p) && Held(q.pc) == Held(p.pc);
  }

  lemma ReadBackTracks(p: Pool, q: Pool, x: nat, batch: seq<nat>, won: bool)
    requires HandFits(p) && Tracked(p) && Apart(p)
    requires p.pc.Checking? && p.pc.issue == x && p.pc.batch == batch
    requires q == p.(pc := Claiming(p.pc.queue, p.pc.busy, p.pc.budget, if won then batch + [x] else batch),
                     landings := p.landings + [Landing(x, won)])
    ensures Apart(q) && HandFits(q) && Tracked(q)
  {
    assert Busy(q) == Busy(p) && x in Held(p.pc);
    assert Elements(batch + [x]) == Elements(batch) + {x};
    forall y: nat ensures LastLanding(q.landings, y) == if y == x then Some(won) else LastLanding(p.landings, y) {
      LandingAppends(p.landings, Landing(x, won), y);
    }
  }

  lemma ReadBackKeepsInv(p: Pool, e: Event)
    requires Inv(p) && MainEnabled(p, e) && p.pc.Checking?
    ensures Inv(MainStep(p, e))
  {
    StepKeepsBasic(p, e);
    ReadBackTracks(p, MainStep(p, e), p.pc.issue, p.pc.batch, e.won);
  }

  /** The first of the batch gets a worker of its own. */
  lemma SubmitBusy(p: Pool, x: nat)
    requires (forall w :: w in p.inflight ==> w < |p.workers|) && Apart(p) && x !in Busy(p)
    ensures Busy(Submitted(p, x)) == Busy(p) + {x} && Apart(Submitted(p, x))
  {
    var q := Submitted(p, x);
    assert forall w :: 0 <= w < |p.workers| ==> q.workers[w] == p.workers[w];
    assert q.workers[|p.workers|].issue == x;
    forall w | w in p.inflight ensures p.workers[w].issue != x {
      assert p.workers[w].issue in Busy(p);
    }
  }

  /** And is no longer unowned; the rest of the batch still is. */
  lemma SubmitTracks(p: Pool, q: Pool, x: nat, rest: seq<nat>)
    requires HandFits(p) && Tracked(p) && p.pc == Submitting([x] + rest)
    requires q.pc == Submitting(rest) && q.unowned == p.unowned - {x} && q.labelled == p.labelled
    requires q.landings == p.landings && Busy(q) == Busy(p) + {x}
    ensures HandFits(q) && Tracked(q)
  {
    var batch := [x] + rest;
    assert x == batch[0] && forall k :: 0 <= k < |rest| ==> rest[k] == batch[k + 1];
    assert Elements(batch) == {x} + Elements(rest);
  }

  lemma SubmitKeepsInv(p: Pool, e: Event)
    requires Inv(p) && MainEnabled(p, e) && p.pc.Submitting?
    ensures Inv(MainStep(p, e))
  {
    var q, batch := MainStep(p, e), p.pc.batch;
    StepKeepsBasic(p, e);
    if batch == [] {
      SameHand(p, q);
    } else {
      assert batch == [batch[0]] + batch[1..];
      assert batch[0] in p.unowned;
      SubmitBusy(p, batch[0]);
      SubmitTracks(p, q, batch[0], batch[1..]);
    }
  }

  lemma OtherKeepsInv(p: Pool, e: Event)
    requires Inv(p) && MainEnabled(p, e) && (p.pc.Top? || p.pc.Pending? || p.pc.Idle?)
    ensures Inv(MainStep(p, e))
  {
    StepKeepsBasic(p, e);
    SameHand(p, MainStep(p, e));
  }

  lemma FetchKeepsInv(p: Pool, e: Event)
    requires Inv(p) && MainEnabled(p, e) && p.pc.Budget?
    ensures Inv(MainStep(p, e))
  {
    var q := MainStep(p, e);
    StepKeepsBasic(p, e);
    assert Busy(q) == Busy(p) && Held(q.pc) == Held(p.pc) == {};
  }

  lemma StepKeepsInv(p: Pool, e: Event)
    requires Inv(p) && Enabled(p, e)
    ensures Inv(Step(p, e))
  {
    if ByWorld(e) {
      WorldKeepsInv(p, e);
    } else {
      match p.pc {
        case Sweep => SweepKeepsInv(p, e);
        case Claiming(_, _, _, _) => if e.Edit? && e.landed { EditKeepsInv(p, e); } else { SkipKeepsInv(p, e); }
        case Checking(_, _, _, _, _) => ReadBackKeepsInv(p, e);
        case Submitting(_) => SubmitKeepsInv(p, e);
        case Budget => FetchKeepsInv(p, e);
        case _ => OtherKeepsInv(p, e);
      }
    }
  }

  // ---- Runs ---------------------------------------------------------------------

  predicate Possible(p: Pool, es: seq<Event>)
    decreases |es|
  {
    es != [] ==> Enabled(p, es[0]) && Possible(Step(p, es[0]), es[1..])
  }

  function Outcome(p: Pool, es: seq<Event>): Pool
    requires Possible(p, es)
    decreases |es|
  {
    if es == [] then p else Outcome(Step(p, es[0]), es[1..])
  }

  predicate SameSettings(p: Pool, q: Pool) {
    q.parallel == p.parallel && q.confirmations == p.confirmations && q.excluding == p.excluding && q.current == p.current
  }

  lemma StepKeepsSettings(p: Pool, e: Event)
    requires Enabled(p, e)
    ensures SameSettings(p, Step(p, e))
  {
  }

  lemma {:induction false} RunKeepsSettings(p: Pool, es: seq<Event>)
    requires Possible(p, es)
    ensures SameSettings(p, Outcome(p, es))
    decreases |es|
  {
    if es != [] {
      StepKeepsSettings(p, es[0]);
      RunKeepsSettings(Step(p, es[0]), es[1..]);
    }
  }

  lemma {:induction false} RunKeepsBasic(p: Pool, es: seq<Event>)
    requires Basic(p) && Possible(p, es)
    ensures Basic(Outcome(p, es))
    decreases |es|
  {
    if es != [] {
      StepKeepsBasic(p, es[0]);
      RunKeepsBasic(Step(p, es[0]), es[1..]);
    }
  }

  lemma {:induction false} RunKeepsInv(p: Pool, es: seq<Event>)
    requires Inv(p) && Possible(p, es)
    ensures Inv(Outcome(p, es))
    decreases |es|
  {
    if es != [] {
      StepKeepsInv(p, es[0]);
      RunKeepsInv(Step(p, es[0]), es[1..]);
    }
  }

  lemma InitialInv(ready: set<nat>, parallel: nat, confirmations: int, current: bool)
    ensures Inv(Initial(ready, parallel, confirmations, true, current))
  {
  }

  /** For any settings and in every run: at most `parallel` in flight, no issue
      has two workers that run, and restart and drain find nothing running. */
  lemma PoolIsSafe(ready: set<nat>, parallel: nat, confirmations: int, current: bool, es: seq<Event>)
    requires Possible(Initial(ready, parallel, confirmations, true, current), es)
    ensures var p := Outcome(Initial(ready, parallel, confirmations, true, current), es);
            && |p.inflight| <= parallel
            && (forall v, w :: 0 <= v < w < |p.workers| && p.workers[v].running && p.workers[w].running ==>
                  p.workers[v].issue != p.workers[w].issue)
            && (p.pc.Restarted? || p.pc.Drained? ==> forall w :: 0 <= w < |p.workers| ==> !p.workers[w].running)
  {
    InitialInv(ready, parallel, confirmations, current);
    RunKeepsInv(Initial(ready, parallel, confirmations, true, current), es);
    RunKeepsSettings(Initial(ready, parallel, confirmations, true, current), es);
  }

  // ---- Stranded claims ------------------------------------------------------------

  /** Whenever a pass is over, no worker has been submitted for an issue since an
      edit of its labels last landed exactly if that edit was not won: gh reported
      it as failed, or reading the labels back failed. Such an issue carries
      fr:claimed and has no worker that runs. */
  lemma UnownedIffNotWon(ready: set<nat>, parallel: nat, confirmations: int, current: bool, es: seq<Event>, x: nat)
    requires Possible(Initial(ready, parallel, confirmations, true, current), es)
    ensures var p := Outcome(Initial(ready, parallel, confirmations, true, current), es);
            && (AtRest(p.pc) ==> (x in p.unowned <==> LastLanding(p.landings, x) == Some(false)))
            && (x in p.unowned ==> x in p.labelled && !Attended(p, x))
  {
    InitialInv(ready, parallel, confirmations, current);
    RunKeepsInv(Initial(ready, parallel, confirmations, true, current), es);
    if x in Outcome(Initial(ready, parallel, confirmations, true, current), es).unowned {
      UnownedIsUnattended(Outcome(Initial(ready, parallel, confirmations, true, current), es), x);
    }
  }

  /** Nothing is in the loop's hands. */
  predicate AtRest(pc: Pc) {
    !pc.Claiming? && !pc.Checking? && !pc.Submitting?
  }

  /** Some worker runs on `x`. */
  predicate Attended(p: Pool, x: nat) {
    exists w :: 0 <= w < |p.workers| && p.workers[w].running && p.workers[w].issue == x
  }

  lemma UnownedIsUnattended(p: Pool, x: nat)
    requires Inv(p) && x in p.unowned
    ensures !Attended(p, x) && x in p.labelled
  {
    forall w | 0 <= w < |p.workers| && p.workers[w].running ensures p.workers[w].issue != x {
      assert p.workers[w].issue in Busy(p);
    }
  }

  // ---- Who carries fr:claimed -----------------------------------------------------

  /** The worker submitted last for `x`. */
  function LastWorker(ws: seq<Worker>, x: nat): Option<Worker> {
    if ws == [] then None
    else if ws[|ws| - 1].issue == x then Some(ws[|ws| - 1])
    else LastWorker(ws[..|ws| - 1], x)
  }

  /** Only the last worker of an issue can run. */
  ghost predicate Newest(ws: seq<Worker>) {
    forall v, w :: 0 <= v < w < |ws| && ws[v].issue == ws[w].issue ==> !ws[v].running
  }

  /** The last edit was won, and the worker it led to has not taken the label off. */
  predicate Kept(ls: seq<Landing>, ws: seq<Worker>, x: nat) {
    LastLanding(ls, x) == Some(true) && LastWorker(ws, x).Some? && !LastWorker(ws, x).value.released
  }

  ghost predicate LabelsTracked(p: Pool) {
    (Newest(p.workers)
     && forall x: nat :: x in p.labelled <==>
          x in Held(p.pc) || LastLanding(p.landings, x) == Some(false) || Kept(p.landings, p.workers, x)) == true
  }

  lemma WorkerAppends(ws: seq<Worker>, n: Worker, x: nat)
    ensures LastWorker(ws + [n], x) == if n.issue == x then Some(n) else LastWorker(ws, x)
  {
    assert (ws + [n])[..|ws|] == ws;
  }

  /** A worker of its issue that runs is the last one, and what becomes of it is
      what becomes of that. */
  lemma {:induction false} WorkerUpdates(ws: seq<Worker>, w: nat, n: Worker, x: nat)
    requires w < |ws| && n.issue == ws[w].issue
    requires forall v :: w < v < |ws| ==> ws[v].issue != n.issue
    ensures LastWorker(ws, ws[w].issue) == Some(ws[w])
    ensures LastWorker(ws[w := n], x) == if n.issue == x then Some(n) else LastWorker(ws, x)
  {
    var last := |ws| - 1;
    if w == last {
      assert ws[w := n][..last] == ws[..last];
    } else {
      WorkerUpdates(ws[..last], w, n, x);
      assert ws[w := n][..last] == ws[..last][w := n];
    }
  }

  lemma {:induction false} LastWorkerAt(ws: seq<Worker>, x: nat) returns (w: nat)
    ensures LastWorker(ws, x).Some? ==>
              w < |ws| && ws[w] == LastWorker(ws, x).value && ws[w].issue == x && forall v :: w < v < |ws| ==> ws[v].issue != x
    ensures LastWorker(ws, x).None? ==> forall v :: 0 <= v < |ws| ==> ws[v].issue != x
  {
    w := 0;
    if ws != [] {
      var init := ws[..|ws| - 1];
      w := LastWorkerAt(init, x);
      assert forall v :: 0 <= v < |init| ==> ws[v] == init[v];
      if ws[|ws| - 1].issue == x { w := |ws| - 1; }
    }
  }

  /** The running worker `w` is the last of its issue. */
  lemma RunningIsLast(p: Pool, w: nat, n: Worker)
    requires Newest(p.workers) && w < |p.workers| && p.workers[w].running && n.issue == p.workers[w].issue
    requires !n.running || n.running == p.workers[w].running
    ensures LastWorker(p.workers, n.issue) == Some(p.workers[w])
    ensures forall x: nat :: LastWorker(p.workers[w := n], x) == if n.issue == x then Some(n) else LastWorker(p.workers, x)
    ensures Newest(p.workers[w := n])
  {
    forall x: nat ensures LastWorker(p.workers[w := n], x) == if n.issue == x then Some(n) else LastWorker(p.workers, x) {
      WorkerUpdates(p.workers, w, n, x);
    }
    WorkerUpdates(p.workers, w, n, n.issue);
  }

  lemma ReleaseTracks(p: Pool, w: nat)
    requires Inv(p) && LabelsTracked(p) && w < |p.workers| && p.workers[w].running
    ensures LabelsTracked(Released(p, w))
  {
    assert p.workers[w].issue in Busy(p);
    RunningIsLast(p, w, p.workers[w].(released := true));
  }

  lemma FinishTracks(p: Pool, w: nat)
    requires LabelsTracked(p) && w < |p.workers| && p.workers[w].running
    ensures LabelsTracked(Step(p, Finish(w)))
  {
    RunningIsLast(p, w, p.workers[w].(running := false));
  }

  lemma EditLabels(p: Pool, q: Pool, x: nat, ok: bool)
    requires LabelsTracked(p) && p.pc.Claiming? && q.workers == p.workers && q.labelled == p.labelled + {x}
    requires InHand(q.pc) == InHand(p.pc)
    requires ok ==> q.pc.Checking? && q.pc.issue == x && q.landings == p.landings
    requires !ok ==> q.pc.Claiming? && q.landings == p.landings + [Landing(x, false)]
    ensures LabelsTracked(q)
  {
    forall y: nat ensures LastLanding(q.landings, y) == if !ok && y == x then Some(false) else LastLanding(p.landings, y) {
      LandingAppends(p.landings, Landing(x, false), y);
    }
  }

  lemma ReadBackLabels(p: Pool, q: Pool, x: nat, won: bool)
    requires LabelsTracked(p) && p.pc.Checking? && p.pc.issue == x && q.workers == p.workers && q.labelled == p.labelled
    requires q.pc.Claiming? && q.pc.batch == (if won then p.pc.batch + [x] else p.pc.batch)
    requires q.landings == p.landings + [Landing(x, won)]
    ensures LabelsTracked(q)
  {
    assert Elements(p.pc.batch + [x]) == Elements(p.pc.batch) + {x};
    forall y: nat ensures LastLanding(q.landings, y) == if y == x then Some(won) else LastLanding(p.landings, y) {
      LandingAppends(p.landings, Landing(x, won), y);
    }
  }

  /** The won issue's worker, the only one that runs on it, is the last one now. */
  lemma SubmitLabels(p: Pool, q: Pool, x: nat, rest: seq<nat>, n: Worker)
    requires LabelsTracked(p) && p.pc == Submitting([x] + rest) && Distinct([x] + rest)
    requires LastLanding(p.landings, x) == Some(true) && !Attended(p, x)
    requires q.pc == Submitting(rest) && q.workers == p.workers + [n] && n == Worker(x, true, false)
    requires q.labelled == p.labelled && q.landings == p.landings
    ensures LabelsTracked(q)
  {
    assert ([x] + rest)[0] == x && forall k :: 0 <= k < |rest| ==> rest[k] == ([x] + rest)[k + 1];
    assert Held(p.pc) == {x} + Held(q.pc) && x !in Held(q.pc);
    forall y: nat ensures LastWorker(q.workers, y) == if y == x then Some(n) else LastWorker(p.workers, y) {
      WorkerAppends(p.workers, n, y);
    }
    assert Newest(q.workers);
  }

  /** Labels, workers and landings are as they were. */
  lemma SameLabels(p: Pool, q: Pool)
    requires LabelsTracked(p) && Held(q.pc) == Held(p.pc)
    requires q.workers == p.workers && q.labelled == p.labelled && q.landings == p.landings
    ensures LabelsTracked(q)
  {
  }

  lemma ClaimTracksLabels(p: Pool, e: Event)
    requires LabelsTracked(p) && MainEnabled(p, e) && p.pc.Claiming?
    ensures LabelsTracked(MainStep(p, e))
  {
    if e.Edit? && e.landed {
      EditLabels(p, MainStep(p, e), p.pc.queue[0], e.ok);
    } else {
      assert InHand(MainStep(p, e).pc) == InHand(p.pc);
      SameLabels(p, MainStep(p, e));
    }
  }

  lemma SubmitTracksLabels(p: Pool, e: Event)
    requires Inv(p) && LabelsTracked(p) && MainEnabled(p, e) && p.pc.Submitting?
    ensures LabelsTracked(MainStep(p, e))
  {
    var batch := p.pc.batch;
    if batch == [] {
      SameLabels(p, MainStep(p, e));
    } else {
      assert batch == [batch[0]] + batch[1..];
      assert batch[0] in InHand(p.pc) && batch[0] in p.unowned;
      UnownedIsUnattended(p, batch[0]);
      SubmitLabels(p, MainStep(p, e), batch[0], batch[1..], Worker(batch[0], true, false));
    }
  }

  lemma OtherHoldsNothing(p: Pool, e: Event)
    requires MainEnabled(p, e) && AtRest(p.pc)
    ensures var q := MainStep(p, e);
            && InHand(q.pc) == [] && !q.pc.Checking?
            && q.workers == p.workers && q.labelled == p.labelled && q.landings == p.landings
  {
  }

  lemma OtherTracksLabels(p: Pool, e: Event)
    requires LabelsTracked(p) && MainEnabled(p, e) && AtRest(p.pc)
    ensures LabelsTracked(MainStep(p, e))
  {
    OtherHoldsNothing(p, e);
    NothingHeld(p, MainStep(p, e));
  }

  lemma NothingHeld(p: Pool, q: Pool)
    requires LabelsTracked(p) && AtRest(p.pc) && InHand(q.pc) == [] && !q.pc.Checking?
    requires q.workers == p.workers && q.labelled == p.labelled && q.landings == p.landings
    ensures LabelsTracked(q)
  {
    assert Held(q.pc) == Held(p.pc);
    SameLabels(p, q);
  }

  lemma MainTracksLabels(p: Pool, e: Event)
    requires Inv(p) && LabelsTracked(p) && MainEnabled(p, e)
    ensures LabelsTracked(MainStep(p, e))
  {
    match p.pc {
      case Claiming(_, _, _, _) => ClaimTracksLabels(p, e);
      case Checking(x, _, _, _, _) => ReadBackLabels(p, MainStep(p, e), x, e.won);
      case Submitting(_) => SubmitTracksLabels(p, e);
      case _ => OtherTracksLabels(p, e);
    }
  }

  lemma StepTracksLabels(p: Pool, e: Event)
    requires Inv(p) && LabelsTracked(p) && Enabled(p, e)
    ensures LabelsTracked(Step(p, e))
  {
    match e {
      case Requeue(w) => ReleaseTracks(p, w); SameLabels(Released(p, w), Step(p, e));
      case Park(w) => ReleaseTracks(p, w);
      case Finish(w) => FinishTracks(p, w);
      case Relabel(_, _) => SameLabels(p, Step(p, e));
      case _ => MainTracksLabels(p, e);
    }
  }

  lemma {:induction false} RunTracksLabels(p: Pool, es: seq<Event>)
    requires Inv(p) && LabelsTracked(p) && Possible(p, es)
    ensures LabelsTracked(Outcome(p, es))
    decreases |es|
  {
    if es != [] {
      StepKeepsInv(p, es[0]);
      StepTracksLabels(p, es[0]);
      RunTracksLabels(Step(p, es[0]), es[1..]);
    }
  }

  lemma LastRuns(p: Pool, x: nat)
    requires LabelsTracked(p)
    ensures Attended(p, x) <==> LastWorker(p.workers, x).Some? && LastWorker(p.workers, x).value.running
  {
    var w := LastWorkerAt(p.workers, x);
  }

  /** Whenever a pass is over, an issue carries fr:claimed and no worker runs on it
      exactly if the last edit of its labels that landed was not won, or it was won
      and the worker it led to has finished without taking the label off. */
  lemma UnattendedExactly(ready: set<nat>, parallel: nat, confirmations: int, current: bool, es: seq<Event>, x: nat)
    requires Possible(Initial(ready, parallel, confirmations, true, current), es)
    requires AtRest(Outcome(Initial(ready, parallel, confirmations, true, current), es).pc)
    ensures var p := Outcome(Initial(ready, parallel, confirmations, true, current), es);
            x in p.labelled && !Attended(p, x) <==>
              || LastLanding(p.landings, x) == Some(false)
              || (LastLanding(p.landings, x) == Some(true)
                  && match LastWorker(p.workers, x) case Some(w) => !w.running && !w.released case None => false)
  {
    var start := Initial(ready, parallel, confirmations, true, current);
    var p := Outcome(start, es);
    InitialInv(ready, parallel, confirmations, current);
    RunKeepsInv(start, es);
    RunTracksLabels(start, es);
    LastRuns(p, x);
    if x in p.unowned { UnownedIsUnattended(p, x); }
  }

  /** Out of fr:ready, without a worker, and not on its way into a batch. */
  predicate Stranded(p: Pool, x: nat) {
    (x in p.unowned && x !in p.ready && Absent(p.pc, x)) == true
  }

  predicate Absent(pc: Pc, x: nat) {
    x !in InHand(pc) && x !in Queue(pc) && (pc.Checking? ==> pc.issue != x)
  }

  lemma StrandedClaimStep(p: Pool, e: Event, x: nat)
    requires Stranded(p, x) && MainEnabled(p, e) && p.pc.Claiming?
    ensures Stranded(MainStep(p, e), x)
  {
    if p.pc.queue != [] {
      assert p.pc.queue == [p.pc.queue[0]] + p.pc.queue[1..];
    }
  }

  lemma StrandedCheckStep(p: Pool, e: Event, x: nat)
    requires Stranded(p, x) && MainEnabled(p, e) && p.pc.Checking?
    ensures Stranded(MainStep(p, e), x)
  {
  }

  lemma StrandedSubmitStep(p: Pool, e: Event, x: nat)
    requires Stranded(p, x) && MainEnabled(p, e) && p.pc.Submitting?
    ensures Stranded(MainStep(p, e), x)
  {
    if p.pc.batch != [] {
      assert p.pc.batch == [p.pc.batch[0]] + p.pc.batch[1..];
    }
  }

  lemma StrandedOtherStep(p: Pool, e: Event, x: nat)
    requires p.current && Stranded(p, x) && MainEnabled(p, e) && !p.pc.Claiming? && !p.pc.Checking? && !p.pc.Submitting?
    ensures Stranded(MainStep(p, e), x)
  {
  }

  lemma StrandedWorldStep(p: Pool, e: Event, x: nat)
    requires Inv(p) && Stranded(p, x) && Enabled(p, e) && ByWorld(e) && e != Relabel(x, true)
    ensures Stranded(Step(p, e), x)
  {
    if e.Requeue? { assert p.workers[e.w].issue in Busy(p); }
  }

  lemma StrandedStep(p: Pool, e: Event, x: nat)
    requires Inv(p) && p.current && Stranded(p, x) && Enabled(p, e) && e != Relabel(x, true)
    ensures Stranded(Step(p, e), x)
  {
    if ByWorld(e) {
      StrandedWorldStep(p, e, x);
    } else {
      assert Step(p, e) == MainStep(p, e);
      match p.pc {
        case Claiming(_, _, _, _) => StrandedClaimStep(p, e, x);
        case Checking(_, _, _, _, _) => StrandedCheckStep(p, e, x);
        case Submitting(_) => StrandedSubmitStep(p, e, x);
        case _ => StrandedOtherStep(p, e, x);
      }
    }
  }

  /** And there it stays: while the fetched queue lists only what carries
      fr:ready, nothing but someone else's relabelling brings it back. */
  lemma {:induction false} StrandedStays(p: Pool, es: seq<Event>, x: nat)
    requires Inv(p) && p.current && Stranded(p, x) && Possible(p, es)
    requires forall k :: 0 <= k < |es| ==> es[k] != Relabel(x, true)
    ensures x in Outcome(p, es).unowned && x in Outcome(p, es).labelled
    decreases |es|
  {
    if es != [] {
      StrandedStep(p, es[0], x);
      StepKeepsSettings(p, es[0]);
      StepKeepsInv(p, es[0]);
      StrandedStays(Step(p, es[0]), es[1..], x);
    }
  }

  // ---- Draining -------------------------------------------------------------------

  /** The queue is called drained only when the last `confirmations` polls, and at
      least one, all found nothing claimable, nothing waiting and nothing in
      flight. */
  lemma DrainIsConfirmed(ready: set<nat>, parallel: nat, confirmations: int, excluding: bool, current: bool, es: seq<Event>)
    requires Possible(Initial(ready, parallel, confirmations, excluding, current), es)
    requires Outcome(Initial(ready, parallel, confirmations, excluding, current), es).pc.Drained?
    ensures var p := Outcome(Initial(ready, parallel, confirmations, excluding, current), es);
            var n := if confirmations < 1 then 1 else confirmations;
            && |p.polls| >= n
            && forall k :: |p.polls| - n <= k < |p.polls| ==> p.polls[k] == Empty
  {
    RunKeepsBasic(Initial(ready, parallel, confirmations, excluding, current), es);
    RunKeepsSettings(Initial(ready, parallel, confirmations, excluding, current), es);
  }

  // ---- Submitting -------------------------------------------------------------------

  function MainSteps(es: seq<Event>): nat {
    if es == [] then 0 else (if ByWorld(es[0]) then 0 else 1) + MainSteps(es[1..])
  }

  function Issues(ws: seq<Worker>): seq<nat> {
    seq(|ws|, k requires 0 <= k < |ws| => ws[k].issue)
  }

  lemma WorldSubmitsNothing(p: Pool, e: Event)
    requires Enabled(p, e) && ByWorld(e)
    ensures Step(p, e).pc == p.pc && Step(p, e).unowned == p.unowned && Issues(Step(p, e).workers) == Issues(p.workers)
  {
  }

  lemma SubmitsOne(p: Pool, x: nat, rest: seq<nat>)
    requires p.pc == Submitting([x] + rest)
    ensures MainEnabled(p, Proceed)
    ensures var q := MainStep(p, Proceed);
            q.pc == Submitting(rest) && q.unowned == p.unowned - {x} && Issues(q.workers) == Issues(p.workers) + [x]
  {
    assert ([x] + rest)[0] == x && ([x] + rest)[1..] == rest;
  }

  lemma SubmitsFirst(p: Pool)
    requires p.pc.Submitting? && p.pc.batch != []
    ensures MainEnabled(p, Proceed) && MainStep(p, Proceed).pc == Submitting(p.pc.batch[1..])
  {
  }

  /** `q` is back at the top with one new worker for each issue of `batch`, in
      order, and none of them is unowned any longer. */
  predicate AllSubmitted(p: Pool, batch: seq<nat>, q: Pool) {
    (&& q.pc == Top
     && Issues(q.workers) == Issues(p.workers) + batch
     && q.unowned == p.unowned - Elements(batch)) == true
  }

  lemma OneAndRest(p: Pool, m: Pool, q: Pool, x: nat, rest: seq<nat>)
    requires m.unowned == p.unowned - {x} && Issues(m.workers) == Issues(p.workers) + [x]
    requires AllSubmitted(m, rest, q)
    ensures AllSubmitted(p, [x] + rest, q)
  {
    assert Issues(p.workers) + [x] + rest == Issues(p.workers) + ([x] + rest);
    assert forall y :: y in [x] + rest <==> y == x || y in rest;
  }

  lemma OneSubmitted(p: Pool, q: Pool)
    requires p.pc.Submitting? && p.pc.batch != []
    requires AllSubmitted(MainStep(p, Proceed), p.pc.batch[1..], q)
    ensures AllSubmitted(p, p.pc.batch, q)
  {
    var x, rest := p.pc.batch[0], p.pc.batch[1..];
    assert p.pc.batch == [x] + rest;
    SubmitsOne(p, x, rest);
    OneAndRest(p, MainStep(p, Proceed), q, x, rest);
  }

  lemma NoneLeft(p: Pool, q: Pool)
    requires q.pc == Top && q.unowned == p.unowned && Issues(q.workers) == Issues(p.workers)
    ensures AllSubmitted(p, [], q)
  {
    assert Issues(p.workers) + [] == Issues(p.workers);
  }

  /** A claimed batch is submitted in one more loop step than it is long, whatever
      the workers do in between. */
  lemma {:induction false} BatchIsSubmitted(p: Pool, es: seq<Event>)
    requires p.pc.Submitting? && Possible(p, es) && MainSteps(es) == |p.pc.batch| + 1
    ensures AllSubmitted(p, p.pc.batch, Outcome(p, es))
    decreases |es|
  {
    var m, q := Step(p, es[0]), Outcome(p, es);
    assert q == Outcome(m, es[1..]);
    if ByWorld(es[0]) {
      WorldSubmitsNothing(p, es[0]);
      BatchIsSubmitted(m, es[1..]);
      SameStart(p, m, q, p.pc.batch);
    } else if p.pc.batch == [] {
      NothingMore(m, es[1..]);
      NoneLeft(p, q);
    } else {
      SubmitsFirst(p);
      BatchIsSubmitted(m, es[1..]);
      OneSubmitted(p, q);
    }
  }

  lemma SameStart(p: Pool, m: Pool, q: Pool, batch: seq<nat>)
    requires m.unowned == p.unowned && Issues(m.workers) == Issues(p.workers) && AllSubmitted(m, batch, q)
    ensures AllSubmitted(p, batch, q)
  {
  }

  lemma {:induction false} NothingMore(p: Pool, es: seq<Event>)
    requires Possible(p, es) && MainSteps(es) == 0
    ensures var q := Outcome(p, es);
            q.pc == p.pc && q.unowned == p.unowned && Issues(q.workers) == Issues(p.workers)
    decreases |es|
  {
    if es != [] {
      WorldSubmitsNothing(p, es[0]);
      NothingMore(Step(p, es[0]), es[1..]);
    }
  }

  // ---- Concrete runs ------------------------------------------------------------------

  lemma First(p: Pool, e: Event, es: seq<Event>)
    requires Enabled(p, e) && Possible(Step(p, e), es)
    ensures Possible(p, [e] + es) && Outcome(p, [e] + es) == Outcome(Step(p, e), es)
  {
  }

  lemma PassToBudget(p: Pool, es: seq<Event>) returns (q: Pool)
    requires p.pc == Top
    ensures q == p.(pc := Budget)
    ensures Possible(q, es) ==>
              var all := [Proceed] + ([Reap({})] + ([UpdatePending(false)] + es));
              Possible(p, all) && Outcome(p, all) == Outcome(q, es)
  {
    var p1 := Step(p, Proceed);
    var p2 := Step(p1, Reap({}));
    assert p2 == p.(pc := Pending);
    q := Step(p2, UpdatePending(false));
    if Possible(q, es) {
      First(p2, UpdatePending(false), es);
      First(p1, Reap({}), [UpdatePending(false)] + es);
      First(p, Proceed, [Reap({})] + ([UpdatePending(false)] + es));
    }
  }

  /** From the top of a pass to an edit that lands and is reported so. */
  lemma PassToEdit(p: Pool, n: nat, es: seq<Event>) returns (q: Pool)
    requires (p.excluding ==> p.inflight == {}) && p.pc == Top && n in p.ready && |p.inflight| < p.parallel
    ensures q == LabelEdited(p, n).(pc := Checking(n, [], {}, p.parallel - |p.inflight|, []))
    ensures Possible(q, es) ==>
              var all := [Proceed] + ([Reap({})] + ([UpdatePending(false)] + ([Fetch([n])] + ([Edit(true, true)] + es))));
              Possible(p, all) && Outcome(p, all) == Outcome(q, es)
  {
    var start := PassToBudget(p, [Fetch([n])] + ([Edit(true, true)] + es));
    assert p.excluding ==> Busy(start) == {};
    var listed := Step(start, Fetch([n]));
    q := Step(listed, Edit(true, true));
    assert [n][1..] == [];
    if Possible(q, es) {
      First(listed, Edit(true, true), es);
      First(start, Fetch([n]), [Edit(true, true)] + es);
    }
  }

  /** The label edit lands, the read-back fails, and the pass ends with the only
      issue in fr:claimed, out of fr:ready and without a worker; the pool may even
      take its queue for drained. */
  lemma StrandingRun(n: nat, parallel: nat, confirmations: int) returns (es: seq<Event>)
    requires parallel > 0
    ensures var start := Initial({n}, parallel, confirmations, true, true);
            && Possible(start, es)
            && var p := Outcome(start, es);
               && p.pc == (if confirmations <= 1 then Drained else Top)
               && n in p.labelled && Stranded(p, n) && p.workers == []
  {
    var start := Initial({n}, parallel, confirmations, true, true);
    var last := [ReadBack(false)] + ([Proceed] + ([Ask(false)] + []));
    es := [Proceed] + ([Reap({})] + ([UpdatePending(false)] + ([Fetch([n])] + ([Edit(true, true)] + last))));
    var p := PassToEdit(start, n, last);
    NotReadBack(p, n);
  }

  /** From the edit to the end of the pass, without reading the labels back. */
  lemma NotReadBack(p: Pool, n: nat)
    requires p.pc.Checking? && p.pc == Checking(n, [], {}, p.pc.budget, []) && p.inflight == {}
    ensures var last := [ReadBack(false)] + ([Proceed] + ([Ask(false)] + []));
            && Possible(p, last)
            && Outcome(p, last) == p.(pc := if p.empty + 1 >= p.confirmations then Drained else Top,
                                      landings := p.landings + [Landing(n, false)], empty := p.empty + 1, polls := p.polls + [Empty])
  {
    var p2 := Step(p, ReadBack(false));
    var p3 := Step(p2, Proceed);
    First(p3, Ask(false), []);
    First(p2, Proceed, [Ask(false)] + []);
    First(p, ReadBack(false), [Proceed] + ([Ask(false)] + []));
  }

  // ---- What the exclusion is for --------------------------------------------------------

  /** Two workers run on one issue. */
  predicate Doubled(p: Pool) {
    exists v, w :: 0 <= v < w < |p.workers| && p.workers[v].running && p.workers[w].running && p.workers[v].issue == p.workers[w].issue
  }

  /** After a pass that claims and submits one issue. */
  function Served(p: Pool, n: nat): Pool {
    Submitted(LabelEdited(p, n), n).(landings := p.landings + [Landing(n, true)], empty := 0, polls := p.polls + [Claimed])
  }

  lemma FromReadBack(p: Pool, n: nat, es: seq<Event>) returns (q: Pool)
    requires p.pc.Checking? && p.pc == Checking(n, [], {}, p.pc.budget, []) && p.pc.budget > 0
    ensures q == Submitted(p, n).(pc := Top, landings := p.landings + [Landing(n, true)], empty := 0, polls := p.polls + [Claimed])
    ensures Possible(q, es) ==>
              var all := [ReadBack(true)] + ([Proceed] + ([Proceed] + ([Proceed] + es)));
              Possible(p, all) && Outcome(p, all) == Outcome(q, es)
  {
    var p1 := Step(p, ReadBack(true));
    assert [] + [n] == [n] && [n][1..] == [];
    var p2 := Step(p1, Proceed);
    var p3 := Step(p2, Proceed);
    q := Step(p3, Proceed);
    if Possible(q, es) {
      First(p3, Proceed, es);
      First(p2, Proceed, [Proceed] + es);
      First(p1, Proceed, [Proceed] + ([Proceed] + es));
      First(p, ReadBack(true), [Proceed] + ([Proceed] + ([Proceed] + es)));
    }
  }

  lemma ClaimingPass(p: Pool, n: nat, es: seq<Event>) returns (all: seq<Event>)
    requires (p.excluding ==> p.inflight == {}) && p.pc == Top && n in p.ready && |p.inflight| < p.parallel
    ensures Possible(Served(p, n), es) ==> Possible(p, all) && Outcome(p, all) == Outcome(Served(p, n), es)
  {
    var back := [ReadBack(true)] + ([Proceed] + ([Proceed] + ([Proceed] + es)));
    var middle := PassToEdit(p, n, back);
    var q := FromReadBack(middle, n, es);
    assert q == Served(p, n);
    all := [Proceed] + ([Reap({})] + ([UpdatePending(false)] + ([Fetch([n])] + ([Edit(true, true)] + back))));
  }

  /** A worker that finishes without a label edit that lands leaves its issue in
      fr:claimed as well. */
  lemma LeftBehindRun(n: nat, parallel: nat, confirmations: int) returns (es: seq<Event>)
    requires parallel > 0
    ensures var start := Initial({n}, parallel, confirmations, true, true);
            && Possible(start, es)
            && var p := Outcome(start, es);
               p.pc == Top && n in p.labelled && !Attended(p, n) && LastLanding(p.landings, n) == Some(true)
  {
    var start := Initial({n}, parallel, confirmations, true, true);
    var served := Served(start, n);
    var left := Step(served, Finish(0));
    First(served, Finish(0), []);
    es := ClaimingPass(start, n, [Finish(0)] + []);
    assert left.workers == [Worker(n, false, false)] && left.landings == [Landing(n, true)];
  }

  /** Without the exclusion, a worker that re-scopes its own issue and is not yet
      through gets a second worker beside it. */
  lemma DoublingRun(n: nat, parallel: nat, confirmations: int) returns (es: seq<Event>)
    requires parallel >= 2
    ensures Possible(Initial({n}, parallel, confirmations, false, true), es)
    ensures Doubled(Outcome(Initial({n}, parallel, confirmations, false, true), es))
  {
    var start := Initial({n}, parallel, confirmations, false, true);
    var one := Served(start, n);
    var asked := Step(one, Requeue(0));
    var again := ClaimingPass(asked, n, []);
    var two := Served(asked, n);
    assert two.workers[0] == Worker(n, true, true) && two.workers[1] == Worker(n, true, false);
    First(one, Requeue(0), again);
    es := ClaimingPass(start, n, [Requeue(0)] + again);
  }

  lemma OneAtATime(p: Pool)
    requires Basic(p) && p.parallel <= 1
    ensures !Doubled(p)
  {
    if v, w :| 0 <= v < w < |p.workers| && p.workers[v].running && p.workers[w].running {
      Fewer({v, w}, p.inflight);
    }
  }

  ghost predicate CanDouble(n: nat, parallel: nat, confirmations: int, es: seq<Event>) {
    var start := Initial({n}, parallel, confirmations, false, true);
    Possible(start, es) && Doubled(Outcome(start, es))
  }

  /** Skipping the issues in flight is what keeps them apart, as soon as more than
      one worker is allowed, and only then. */
  lemma ExclusionIsNeeded(n: nat, parallel: nat, confirmations: int)
    ensures (exists es :: CanDouble(n, parallel, confirmations, es)) <==> parallel >= 2
  {
    var start := Initial({n}, parallel, confirmations, false, true);
    if parallel >= 2 {
      var es := DoublingRun(n, parallel, confirmations);
      assert CanDouble(n, parallel, confirmations, es);
    }
    forall es | CanDouble(n, parallel, confirmations, es) ensures parallel >= 2 {
      RunKeepsBasic(start, es);
      RunKeepsSettings(start, es);
      if parallel < 2 { OneAtATime(Outcome(start, es)); }
    }
  }
}
