/** The review verdicts and the attempt machine of `loop.py`: what has to have
    happened before anything is merged. */
module Review {
  import opened Wrappers

  datatype Verdict = Block | Pass | Silent

  /** A reviewer's text, and which of the two markers occur in it. */
  datatype Transcript = Transcript(text: string, saysBlock: bool, saysPass: bool)

  const SILENCE := Transcript("", false, false)

  function VerdictOf(t: Transcript): Verdict {
    if t.saysBlock then Block else if t.saysPass then Pass else Silent
  }

  /** What each reviewer said, and what it amounts to. */
  type Results = map<nat, Transcript>

  datatype Blocking = Findings(who: set<nat>) | SilentReview

  function Verdicts(results: Results): map<nat, Verdict> {
    map i | i in results :: VerdictOf(results[i])
  }

  function By(results: Results, v: Verdict): set<nat> {
    set i | i in results && VerdictOf(results[i]) == v
  }

  /** Blockers first; without one, silence is no consent. */
  function Outcome(results: Results): Option<Blocking> {
    if By(results, Block) != {} then Some(Findings(By(results, Block)))
    else if By(results, Pass) == {} then Some(SilentReview)
    else None
  }

  /** Nobody objects and somebody has read it. */
  predicate Approved(results: Results) {
    && (forall i :: i in results ==> VerdictOf(results[i]) != Block)
    && (exists i :: i in results && VerdictOf(results[i]) == Pass)
  }

  lemma OutcomeIsApproval(results: Results)
    ensures Outcome(results) == None <==> Approved(results)
    ensures forall i :: i in results && VerdictOf(results[i]) == Block ==>
              Outcome(results).Some? && Outcome(results).value.Findings? && i in Outcome(results).value.who
  {
    forall i, v | i in results && VerdictOf(results[i]) == v ensures i in By(results, v) {
    }
    if Outcome(results) == None {
      var i :| i in By(results, Pass);
      assert i in results && VerdictOf(results[i]) == Pass;
    }
  }

  // ---- One review stage -----------------------------------------------------

  /** A round's replies; a reviewer that raised has none. */
  type Replies = map<nat, Option<Transcript>>

  function Heard(results: Results, asked: set<nat>, replies: Replies): Results {
    map i | i in results ::
      if i in asked && i in replies && replies[i].Some? then replies[i].value else results[i]
  }

  function Nothing(roster: set<nat>): Results {
    map i | i in roster :: SILENCE
  }

  datatype Reviews = Reviews(first: Replies, retry: Replies)

  /** The results of the stage's last round: the silent are asked once more, but
      only while nobody has blocked. */
  function Final(roster: set<nat>, r: Reviews): Results {
    var results := Heard(Nothing(roster), roster, r.first);
    if By(results, Silent) != {} && By(results, Block) == {}
    then Heard(results, By(results, Silent), r.retry) else results
  }

  /** A verdict once given survives the retry, and a block in either round
      blocks. */
  lemma VerdictsSurviveRetry(roster: set<nat>, r: Reviews, i: nat)
    requires i in roster
    ensures var first := Heard(Nothing(roster), roster, r.first);
            var final := Final(roster, r);
            && i in final
            && (VerdictOf(first[i]) != Silent ==> final[i] == first[i])
            && (VerdictOf(first[i]) == Block || VerdictOf(final[i]) == Block ==>
                  Outcome(final).Some? && Outcome(final).value.Findings? && i in Outcome(final).value.who)
  {
    var first := Heard(Nothing(roster), roster, r.first);
    OutcomeIsApproval(Final(roster, r));
  }

  /** A reviewer that answers in neither round cannot make a merge. */
  lemma SilenceIsNoConsent(roster: set<nat>, r: Reviews)
    requires forall i :: i in r.first && r.first[i].Some? ==> VerdictOf(r.first[i].value) == Silent
    requires forall i :: i in r.retry && r.retry[i].Some? ==> VerdictOf(r.retry[i].value) == Silent
    ensures Outcome(Final(roster, r)) == Some(SilentReview)
  {
  }
}

module Attempt {
  import IssueLife
  import Scanning
  import opened Wrappers
  import opened Review

  /** A working tree; `changed` is whether its diff against main is non-blank. */
  datatype Tree = Tree(id: nat, changed: bool)

  datatype Merge = Merge(rebased: bool, onto: Tree, regated: bool, forwarded: bool)

  /** Everything outside the loop's control in one attempt. */
  datatype Luck = Luck(built: Tree, gate: bool, review: Reviews,
                       repaired: Tree, fixGate: bool, postReview: Reviews, merge: Merge)

  /** What the loop does to the worktree and to main, in order. */
  datatype Event =
    | Wrote(tree: Tree)            // an implementer or a fixer is through
    | Gate(ok: bool)
    | Round(results: Results)      // the last round of a review stage
    | Submit                       // the worktree is handed to `merge_worktree`
    | Rebased(tree: Tree)
    | Landed                       // fast-forwarded into main

  datatype Failure = GateFailed | NothingChanged | FixBrokeGate | StillBlocked(b: Blocking) | FixRemoved | MergeFailed

  datatype Result = Merged(attempts: nat, verdicts: map<nat, Verdict>) | Blocked(why: Option<Failure>) | Dropped(how: Fate)

  /** What becomes of an issue that the critic questions. */
  datatype Fate = Overruled | Closed | Requeued | Questioned

  // ---- An observer of the events --------------------------------------------

  /** What is known of the tree as it stands: writing or rebasing voids the gate,
      writing voids the review, and a hand-over waits for its own rebase. */
  datatype Facts = Facts(tree: Tree, gated: bool, results: Option<Results>, submitted: bool, rebased: bool)

  function Watch(f: Facts, e: Event): Facts {
    match e
    case Wrote(t) => Facts(t, false, None, false, false)
    case Gate(ok) => f.(gated := ok)
    case Round(r) => f.(results := Some(r))
    case Rebased(t) => f.(tree := t, gated := false, rebased := true)
    case Submit => f.(submitted := true, rebased := false)
    case Landed => f
  }

  function Watched(start: Tree, events: seq<Event>): Facts {
    if events == [] then Facts(start, false, None, false, false)
    else Watch(Watched(start, events[..|events| - 1]), events[|events| - 1])
  }

  predicate Reviewed(f: Facts) {
    f.results.Some? && Approved(f.results.value)
  }

  /** Only a changed tree that passed the gate and whose last round approved it
      is handed to the merge; only its rebase, gated again, reaches main. What has
      been handed over is not reviewed again. */
  predicate Warranted(f: Facts, e: Event) {
    match e
    case Round(_) => !f.submitted
    case Rebased(_) => f.submitted
    case Submit => f.tree.changed && f.gated && Reviewed(f)
    case Landed => f.submitted && f.rebased && f.gated && Reviewed(f)
    case _ => true
  }

  predicate Sound(start: Tree, events: seq<Event>) {
    events != [] ==>
      Sound(start, events[..|events| - 1]) && Warranted(Watched(start, events[..|events| - 1]), events[|events| - 1])
  }

  lemma Extend(start: Tree, events: seq<Event>, e: Event)
    requires Sound(start, events) && Warranted(Watched(start, events), e)
    ensures Sound(start, events + [e]) && Watched(start, events + [e]) == Watch(Watched(start, events), e)
  {
  }

  // ---- What an attempt comes to -----------------------------------------------

  predicate MergesWell(m: Merge) {
    m.rebased && m.regated && m.forwarded
  }

  /** The verdicts a merge of this attempt rests on: the first review's, or the
      one after the fix if the first blocked. */
  function Deciding(l: Luck, roster: set<nat>): Results {
    if Outcome(Final(roster, l.review)) == None then Final(roster, l.review) else Final(roster, l.postReview)
  }

  function RepairFailure(roster: set<nat>, l: Luck): Option<Failure> {
    if !l.fixGate then Some(FixBrokeGate)
    else if !l.repaired.changed then Some(FixRemoved)
    else match Outcome(Final(roster, l.postReview)) case None => None case Some(b) => Some(StillBlocked(b))
  }

  function PrepareFailure(roster: set<nat>, l: Luck): Option<Failure> {
    if !l.gate then Some(GateFailed)
    else if !l.built.changed then Some(NothingChanged)
    else if Outcome(Final(roster, l.review)) == None then None
    else RepairFailure(roster, l)
  }

  /** Why an attempt fails, or None. */
  function Shortfall(roster: set<nat>, l: Luck): Option<Failure> {
    var unfit := PrepareFailure(roster, l);
    if unfit.Some? then unfit else if MergesWell(l.merge) then None else Some(MergeFailed)
  }

  /** `attempts` is the operator's setting; below one there is none. */
  function Count(attempts: int): nat {
    if attempts < 0 then 0 else attempts
  }

  /** None of the first `n` attempts is merged. */
  predicate NoneMerges(roster: set<nat>, luck: nat -> Luck, n: nat) {
    n > 0 ==> NoneMerges(roster, luck, n - 1) && Shortfall(roster, luck(n - 1)).Some?
  }

  /** The first attempt that falls short of nothing is merged, and if each falls
      short the last one's shortfall is reported, if there was an attempt. */
  predicate Expected(roster: set<nat>, attempts: int, luck: nat -> Luck, r: Result) {
    var n := Count(attempts);
    match r
    case Merged(m, verdicts) =>
      && 1 <= m <= n
      && NoneMerges(roster, luck, m - 1)
      && Shortfall(roster, luck(m - 1)) == None
      && verdicts == Verdicts(Deciding(luck(m - 1), roster))
    case Blocked(why) =>
      && NoneMerges(roster, luck, n)
      && why == if n == 0 then None else Shortfall(roster, luck(n - 1))
    case Dropped(_) => false
  }

  // ---- The machine ----------------------------------------------------------------

  method Note(start: Tree, events: seq<Event>, e: Event) returns (r: seq<Event>)
    requires Sound(start, events) && Warranted(Watched(start, events), e)
    ensures r == events + [e] && Sound(start, r) && Watched(start, r) == Watch(Watched(start, events), e)
  {
    Extend(start, events, e);
    r := events + [e];
  }

  /** Two reviewers on the diff; an empty diff is not reviewed at all. */
  method ReviewStage(roster: set<nat>, start: Tree, events: seq<Event>, tree: Tree, r: Reviews)
    returns (blocking: Option<Blocking>, verdicts: map<nat, Verdict>, log: seq<Event>)
    requires Sound(start, events) && Watched(start, events).tree == tree && !Watched(start, events).submitted
    ensures Sound(start, log)
    ensures !tree.changed ==> blocking == None && verdicts == map[] && log == events
    ensures |log| >= |events| && log[..|events|] == events
    ensures tree.changed ==>
              && blocking == Outcome(Final(roster, r)) && verdicts == Verdicts(Final(roster, r))
              && Watched(start, log) == Watched(start, events).(results := Some(Final(roster, r)))
              && (blocking == None ==> Reviewed(Watched(start, log)))
              && |log| == |events| + 1 && log[|log| - 1].Round?
  {
    OutcomeIsApproval(Final(roster, r));
    if !tree.changed {
      return None, map[], events;
    }
    var results := Heard(Nothing(roster), roster, r.first);
    blocking, verdicts := Outcome(results), Verdicts(results);
    var silent := By(results, Silent);
    if silent != {} && By(results, Block) == {} {
      results := Heard(results, silent, r.retry);
      blocking, verdicts := Outcome(results), Verdicts(results);
    }
    log := Note(start, events, Round(results));
  }

  method MergeWorktree(start: Tree, events: seq<Event>, m: Merge) returns (merged: bool, log: seq<Event>)
    requires Sound(start, events) && Warranted(Watched(start, events), Submit)
    ensures Sound(start, log) && merged == MergesWell(m)
    ensures log != [] && (merged <==> log[|log| - 1] == Landed)
    ensures Watched(start, log).results == Watched(start, events).results
  {
    log := Note(start, events, Submit);
    if !m.rebased {
      return false, log;
    }
    log := Note(start, log, Rebased(m.onto));
    log := Note(start, log, Gate(m.regated));
    if !m.regated || !m.forwarded {
      return false, log;
    }
    log := Note(start, log, Landed);
    merged := true;
  }

  /** Ready for the merge on the strength of these results. */
  predicate Cleared(start: Tree, log: seq<Event>, results: Results) {
    Warranted(Watched(start, log), Submit) && Watched(start, log).results == Some(results)
  }

  /** The fixer answers the findings; its tree passes the gate, the reviewers and
      the guard against an empty diff. */
  method Repair(roster: set<nat>, start: Tree, events: seq<Event>, l: Luck)
    returns (failure: Option<Failure>, verdicts: map<nat, Verdict>, log: seq<Event>)
    requires Sound(start, events)
    ensures Sound(start, log) && log != [] && log[|log| - 1] != Landed
    ensures failure == RepairFailure(roster, l)
    ensures failure == None ==>
              Cleared(start, log, Final(roster, l.postReview)) && verdicts == Verdicts(Final(roster, l.postReview))
  {
    verdicts := map[];
    log := Note(start, events, Wrote(l.repaired));
    log := Note(start, log, Gate(l.fixGate));
    if !l.fixGate {
      return Some(FixBrokeGate), verdicts, log;
    }
    var blocking: Option<Blocking>;
    blocking, verdicts, log := ReviewStage(roster, start, log, l.repaired, l.postReview);
    if blocking.Some? {
      return Some(StillBlocked(blocking.value)), verdicts, log;
    }
    if !l.repaired.changed {
      return Some(FixRemoved), verdicts, log;
    }
    failure := None;
  }

  /** The implementer's tree passes the gate, the guard against an empty diff and
      the reviewers, or is handed to the fixer. */
  method Prepare(roster: set<nat>, start: Tree, events: seq<Event>, l: Luck)
    returns (failure: Option<Failure>, verdicts: map<nat, Verdict>, log: seq<Event>)
    requires Sound(start, events)
    ensures Sound(start, log) && log != [] && log[|log| - 1] != Landed
    ensures failure == PrepareFailure(roster, l)
    ensures failure == None ==> Cleared(start, log, Deciding(l, roster)) && verdicts == Verdicts(Deciding(l, roster))
  {
    verdicts := map[];
    log := Note(start, events, Wrote(l.built));
    log := Note(start, log, Gate(l.gate));
    if !l.gate {
      return Some(GateFailed), verdicts, log;
    }
    if !l.built.changed {
      return Some(NothingChanged), verdicts, log;
    }
    var blocking: Option<Blocking>;
    blocking, verdicts, log := ReviewStage(roster, start, log, l.built, l.review);
    if blocking.Some? {
      failure, verdicts, log := Repair(roster, start, log, l);
    } else {
      failure := None;
    }
  }

  /** Ends in a merge exactly if nothing falls short, and the verdicts returned
      are those of the last round on the tree that was merged. */
  method One(roster: set<nat>, start: Tree, events: seq<Event>, l: Luck)
    returns (failure: Option<Failure>, verdicts: map<nat, Verdict>, log: seq<Event>)
    requires Sound(start, events)
    ensures Sound(start, log) && log != [] && (failure == None <==> log[|log| - 1] == Landed)
    ensures failure == Shortfall(roster, l)
    ensures failure == None ==>
              Watched(start, log).results == Some(Deciding(l, roster)) && verdicts == Verdicts(Deciding(l, roster))
  {
    failure, verdicts, log := Prepare(roster, start, events, l);
    if failure.Some? {
      return;
    }
    var merged: bool;
    merged, log := MergeWorktree(start, log, l.merge);
    if !merged {
      failure := Some(MergeFailed);
    }
  }

  /** Up to `attempts` attempts, the first merge ending them. */
  method Attempts(roster: set<nat>, start: Tree, attempts: int, luck: nat -> Luck)
    returns (result: Result, events: seq<Event>)
    ensures Sound(start, events)
    ensures Expected(roster, attempts, luck, result)
    ensures result.Merged? <==> events != [] && events[|events| - 1] == Landed
    ensures result.Merged? ==>
              && Watched(start, events).results.Some?
              && result.verdicts == Verdicts(Watched(start, events).results.value)
  {
    events := [];
    var failure: Option<Failure> := None;
    for k := 0 to Count(attempts)
      invariant Sound(start, events)
      invariant events == [] || events[|events| - 1] != Landed
      invariant NoneMerges(roster, luck, k)
      invariant failure == if k == 0 then None else Shortfall(roster, luck(k - 1))
    {
      var verdicts: map<nat, Verdict>;
      failure, verdicts, events := One(roster, start, events, luck(k));
      if failure == None {
        return Merged(k + 1, verdicts), events;
      }
    }
    result := Blocked(failure);
  }

  // ---- The critic's stage -----------------------------------------------------------

  /** Which decisions occur in the resolver's answer. */
  datatype Answer = Answer(saysProceed: bool, saysClose: bool, saysRewrite: bool)

  /** What a requeue came to: the counter stamped, the labels changed, and what
      `requeue` returned. */
  datatype Requeue = Requeue(stamped: bool, relabelled: bool, ok: bool)

  predicate Plausible(r: Requeue) {
    (r.ok ==> r.relabelled) && (r.relabelled ==> r.stamped)
  }

  /** The body read again and stamped. */
  method Stamp(u: Scanning.Unicode, body: string, n: nat) returns (stamped: string)
    ensures IssueLife.Revisions(u, stamped) >= n && IssueLife.Recoveries(u, stamped) == IssueLife.Recoveries(u, body)
  {
    IssueLife.RevisionStamp(u, body, n);
    stamped := IssueLife.StampRevision(u, body, n);
  }

  /** A requeue that returns the issue to the queue has stamped the next revision. */
  method TryRequeue(u: Scanning.Unicode, i: IssueLife.Issue, r: Requeue) returns (after: IssueLife.Issue)
    requires i.worker.Some? && Plausible(r)
    ensures after.ready == (i.ready || r.relabelled)
    ensures r.stamped ==> after.revised == i.worker.value.rounds + 1 <= IssueLife.Revisions(u, after.body)
    ensures !r.stamped ==> after.body == i.body && after.revised == i.revised
    ensures after.worker.Some? && after.closed == i.closed && after.claims == i.claims
  {
    var written: Option<string> := None;
    if r.stamped {
      var b := Stamp(u, i.body, i.worker.value.rounds + 1);
      written := Some(b);
    }
    after := IssueLife.Step(i, IssueLife.Event.Requeue(written, r.relabelled));
  }

  /** The first decision found counts, and a rewrite needs a unit of the budget. An
      issue is back in the queue afterwards only if a rewrite was tried, and that
      has spent the unit; an objection that does not hold leaves it as it was, and
      an issue that is neither overruled, closed nor requeued is out of its worker's
      hands. */
  method ResolveQuestion(u: Scanning.Unicode, i: IssueLife.Issue, a: Answer, max: IssueLife.Budget, r: Requeue)
    returns (fate: Fate, after: IssueLife.Issue)
    requires i.worker.Some? && !i.worker.value.requeued && Plausible(r)
    ensures fate == Overruled <==> a.saysProceed
    ensures fate == Closed <==> a.saysClose && !a.saysProceed
    ensures fate == Requeued ==> a.saysRewrite && after.ready && after.worker.Some?
    ensures after.ready && !i.ready ==>
              && a.saysRewrite && i.worker.value.rounds < max.revisions
              && after.revised == i.worker.value.rounds + 1 <= IssueLife.Revisions(u, after.body)
    ensures fate == Overruled ==> after == i
    ensures fate == Closed ==> after == i.(closed := true)
    ensures fate == Questioned ==> after.worker == None && after.closed == i.closed
    ensures a.saysRewrite && i.worker.value.rounds >= max.revisions ==> fate != Requeued && after.body == i.body
    ensures after.claims == i.claims
  {
    if a.saysProceed {
      return Overruled, i;
    }
    if a.saysClose {
      return Closed, IssueLife.Step(i, IssueLife.Close);
    }
    after := i;
    if a.saysRewrite && i.worker.value.rounds < max.revisions {
      after := TryRequeue(u, i, r);
      if r.ok {
        return Requeued, after;
      }
    }
    fate, after := Questioned, IssueLife.Step(after, IssueLife.Question);
  }

  /** An objection that is not overruled ends the work before anything is
      written; otherwise the attempts decide. */
  method Work(roster: set<nat>, start: Tree, saysRevise: bool,
              u: Scanning.Unicode, i: IssueLife.Issue, a: Answer, max: IssueLife.Budget, r: Requeue,
              attempts: int, luck: nat -> Luck)
    returns (result: Result, events: seq<Event>, after: IssueLife.Issue)
    requires i.worker.Some? && !i.worker.value.requeued && Plausible(r)
    ensures Sound(start, events)
    ensures if saysRevise && !a.saysProceed then result.Dropped? && result.how != Overruled && events == []
            else Expected(roster, attempts, luck, result) && after == i
    ensures after.ready && !i.ready ==> saysRevise && i.worker.value.rounds < max.revisions
  {
    after := i;
    if saysRevise {
      var fate: Fate;
      fate, after := ResolveQuestion(u, i, a, max, r);
      if fate != Overruled {
        return Dropped(fate), [], after;
      }
    }
    result, events := Attempts(roster, start, attempts, luck);
  }

  // ---- What a sound history means --------------------------------------------------

  /** Still true at `k`: the round at `r` is the last, the gate at `g` has passed,
      the tree handed over at `s` is the one in the worktree or its rebase. */
  predicate RoundStands(events: seq<Event>, r: nat, k: nat) {
    r < k <= |events| && events[r].Round? && forall j :: r < j < k ==> !events[j].Wrote? && !events[j].Round?
  }

  predicate GateStands(events: seq<Event>, g: nat, k: nat) {
    && g < k <= |events| && events[g] == Gate(true)
    && forall j :: g < j < k ==> !events[j].Wrote? && !events[j].Gate? && !events[j].Rebased?
  }

  predicate HandOverStands(events: seq<Event>, s: nat, k: nat) {
    s < k <= |events| && events[s] == Submit && forall j :: s < j < k ==> !events[j].Wrote? && !events[j].Submit?
  }

  predicate RebaseStands(events: seq<Event>, b: nat, k: nat) {
    b < k <= |events| && events[b].Rebased? && forall j :: b < j < k ==> !events[j].Wrote? && !events[j].Submit?
  }

  lemma WatchedNext(start: Tree, events: seq<Event>, k: nat)
    requires k < |events|
    ensures Watched(start, events[..k + 1]) == Watch(Watched(start, events[..k]), events[k])
  {
    assert events[..k + 1][..k] == events[..k];
  }

  lemma {:induction false} ReviewBefore(start: Tree, events: seq<Event>, k: nat) returns (r: nat)
    requires k <= |events| && Watched(start, events[..k]).results.Some?
    ensures RoundStands(events, r, k) && events[r].results == Watched(start, events[..k]).results.value
  {
    WatchedNext(start, events, k - 1);
    if events[k - 1].Round? {
      r := k - 1;
    } else {
      r := ReviewBefore(start, events, k - 1);
    }
  }

  lemma {:induction false} GateBefore(start: Tree, events: seq<Event>, k: nat) returns (g: nat)
    requires k <= |events| && Watched(start, events[..k]).gated
    ensures GateStands(events, g, k)
  {
    WatchedNext(start, events, k - 1);
    if events[k - 1].Gate? {
      g := k - 1;
    } else {
      g := GateBefore(start, events, k - 1);
    }
  }

  lemma {:induction false} HandOverBefore(start: Tree, events: seq<Event>, k: nat) returns (s: nat)
    requires k <= |events| && Watched(start, events[..k]).submitted
    ensures HandOverStands(events, s, k)
  {
    WatchedNext(start, events, k - 1);
    if events[k - 1].Submit? {
      s := k - 1;
    } else {
      s := HandOverBefore(start, events, k - 1);
    }
  }

  lemma {:induction false} RebaseBefore(start: Tree, events: seq<Event>, k: nat) returns (b: nat)
    requires k <= |events| && Watched(start, events[..k]).rebased
    ensures RebaseStands(events, b, k)
  {
    WatchedNext(start, events, k - 1);
    if events[k - 1].Rebased? {
      b := k - 1;
    } else {
      b := RebaseBefore(start, events, k - 1);
    }
  }

  lemma {:induction false} StaysSubmitted(start: Tree, events: seq<Event>, s: nat, k: nat)
    requires HandOverStands(events, s, k)
    ensures Watched(start, events[..k]).submitted
  {
    WatchedNext(start, events, k - 1);
    if s < k - 1 {
      StaysSubmitted(start, events, s, k - 1);
    }
  }

  lemma {:induction false} SoundEverywhere(start: Tree, events: seq<Event>, k: nat)
    requires Sound(start, events) && k < |events|
    ensures Warranted(Watched(start, events[..k]), events[k])
    decreases |events|
  {
    var init := events[..|events| - 1];
    if k < |init| {
      SoundEverywhere(start, init, k);
      assert init[..k] == events[..k];
    }
  }

  /** Nothing is reviewed between a hand-over and the merge it leads to. */
  lemma RoundPrecedesHandOver(start: Tree, events: seq<Event>, r: nat, s: nat, k: nat)
    requires Sound(start, events) && RoundStands(events, r, k) && HandOverStands(events, s, k)
    ensures r < s
  {
    if r > s {
      StaysSubmitted(start, events, s, r);
      SoundEverywhere(start, events, r);
    }
  }

  /** Whenever anything reaches main, an approving review round stands; then what
      was handed over had a diff and had passed the gate as it was; and only then,
      after its rebase, came the last gate to pass. */
  lemma MergeIsSound(start: Tree, events: seq<Event>, k: nat) returns (r: nat, s: nat, b: nat, g: nat)
    requires Sound(start, events) && k < |events| && events[k] == Landed
    ensures r < s < b < g < k
    ensures RoundStands(events, r, k) && Approved(events[r].results)
    ensures HandOverStands(events, s, k)
    ensures Watched(start, events[..s]).tree.changed && Watched(start, events[..s]).gated
    ensures RebaseStands(events, b, k)
    ensures GateStands(events, g, k)
  {
    SoundEverywhere(start, events, k);
    r := ReviewBefore(start, events, k);
    s := HandOverBefore(start, events, k);
    g := GateBefore(start, events, k);
    b := RebaseBefore(start, events, k);
    SoundEverywhere(start, events, s);
    RoundPrecedesHandOver(start, events, r, s, k);
  }
}
