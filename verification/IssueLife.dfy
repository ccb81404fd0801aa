/** How often one issue can be claimed in one process life: every return to
    `fr:ready` by the resolver or the unblocker spends one unit of its counter. */
module IssueLife {
  import opened Wrappers
  import opened IssueBody
  import opened Scanning

  const REVISIONS := "revisions:"
  const REVISIONS_CAPTION := "Revisions:"
  const RECOVERIES := "recoveries:"
  const RECOVERIES_CAPTION := "Recoveries:"

  lemma KeysAreKeys(u: Unicode)
    ensures Captions(u, REVISIONS_CAPTION, REVISIONS) && Captions(u, RECOVERIES_CAPTION, RECOVERIES)
    ensures Differ(REVISIONS, RECOVERIES) && Differ(RECOVERIES, REVISIONS)
  {
    assert REVISIONS[2] == 'v' && RECOVERIES[2] == 'c';
  }

  function Revisions(u: Unicode, body: string): nat { Counter(u, body, REVISIONS) }

  function Recoveries(u: Unicode, body: string): nat { Counter(u, body, RECOVERIES) }

  function StampRevision(u: Unicode, body: string, n: nat): string {
    Stamped(u, body, REVISIONS, REVISIONS_CAPTION, n)
  }

  function StampRecovery(u: Unicode, body: string, n: nat): string {
    Stamped(u, body, RECOVERIES, RECOVERIES_CAPTION, n)
  }

  /** A stamp reaches its number, goes no higher than that or what was there, and
      leaves the other counter alone. */
  lemma RevisionStamp(u: Unicode, body: string, n: nat)
    ensures var t := StampRevision(u, body, n);
            n <= Revisions(u, t) <= Max(n, Revisions(u, body)) && Recoveries(u, t) == Recoveries(u, body)
  {
    KeysAreKeys(u);
    StampRaises(u, body, REVISIONS, REVISIONS_CAPTION, REVISIONS, n);
    StampRaises(u, body, REVISIONS, REVISIONS_CAPTION, RECOVERIES, n);
  }

  lemma RecoveryStamp(u: Unicode, body: string, n: nat)
    ensures var t := StampRecovery(u, body, n);
            n <= Recoveries(u, t) <= Max(n, Recoveries(u, body)) && Revisions(u, t) == Revisions(u, body)
  {
    KeysAreKeys(u);
    StampRaises(u, body, RECOVERIES, RECOVERIES_CAPTION, RECOVERIES, n);
    StampRaises(u, body, RECOVERIES, RECOVERIES_CAPTION, REVISIONS, n);
  }

  /** So one stamp above the counter raises it by exactly one. */
  lemma StampAddsOne(u: Unicode, body: string)
    ensures Revisions(u, StampRevision(u, body, Revisions(u, body) + 1)) == Revisions(u, body) + 1
    ensures Recoveries(u, StampRecovery(u, body, Recoveries(u, body) + 1)) == Recoveries(u, body) + 1
  {
    RevisionStamp(u, body, Revisions(u, body) + 1);
    RecoveryStamp(u, body, Recoveries(u, body) + 1);
  }

  // ---- One issue ----------------------------------------------------------------

  /** The operator's budgets. */
  datatype Budget = Budget(revisions: int, recoveries: int)

  /** A worker, with the counter as it was listed; it asks for one requeue. */
  datatype Job = Job(rounds: nat, requeued: bool)

  /** `seen` and `rescue` hold a counter as it was listed; `revised` and
      `recovered` are what was last written back. `lag` adds up what stale lists
      allow: how far the one that led to a stamp was behind what had been written,
      and one for each claim of an issue whose fr:ready was already gone. */
  datatype Issue = Issue(
    body: string, ready: bool, blocked: bool, closed: bool,
    seen: Option<nat>, worker: Option<Job>, rescue: Option<nat>,
    revised: nat, recovered: nat, lag: nat, claims: nat)

  datatype Event =
    | Edit(body: string)                 // an agent rewrites the body
    | List(read: nat)                    // a queue, perhaps a stale one, shows it as ready
    | Claim(won: bool)                   // lost if the labels are not read back
    | Requeue(written: Option<string>, relabelled: bool)
    | Block | Question | Close
    | Return                             // the worker is through
    | Pick(read: nat)                    // the unblocker takes the listed issue up
    | Unblock(written: Option<string>, relabelled: bool)
    | GiveUp

  predicate Enabled(u: Unicode, i: Issue, e: Event, max: Budget) {
    match e
    // Agents do not lower the counters.
    case Edit(b) => Revisions(u, b) >= Revisions(u, i.body) && Recoveries(u, b) >= Recoveries(u, i.body)
    case List(_) => i.worker == None
    case Claim(_) => i.worker == None && i.seen.Some?
    case Requeue(written, relabelled) =>
      && i.worker.Some? && !i.worker.value.requeued && i.worker.value.rounds < max.revisions
      && (written.Some? ==> written.value == StampRevision(u, i.body, i.worker.value.rounds + 1))
      && (relabelled ==> written.Some?)
    case Block => i.worker.Some?
    case Question => i.worker.Some?
    case Close => true
    case Return => i.worker.Some?
    case Pick(read) => i.rescue == None && read < max.recoveries
    case Unblock(written, relabelled) =>
      && i.rescue.Some?
      && (written.Some? ==> written.value == StampRecovery(u, i.body, i.rescue.value + 1))
      && (relabelled ==> written.Some?)
    case GiveUp => i.rescue.Some?
  }

  function Behind(written: nat, read: nat): nat {
    if read < written then written - read else 0
  }

  /** A claim looks at no label but the one it adds, and an unblock at none. The
      counter is read from the list; the body it is stamped on is read again.
      A requeue that fails leaves the issue to be parked, and a worker that
      crashes after one that succeeded blocks an issue that is ready. */
  function Step(i: Issue, e: Event): Issue
    requires e.Claim? ==> i.seen.Some?
    requires e.Requeue? ==> i.worker.Some?
    requires e.Unblock? ==> i.rescue.Some?
  {
    match e
    case Edit(b) => i.(body := b)
    case List(read) => i.(seen := Some(read))
    case Claim(won) =>
      if won then i.(ready := false, worker := Some(Job(i.seen.value, false)), seen := None, claims := i.claims + 1,
                     lag := i.lag + if i.ready then 0 else 1)
      else i.(ready := false, seen := None)
    case Requeue(written, relabelled) =>
      var job := i.worker.value;
      var j := i.(worker := Some(job.(requeued := true)));
      if written == None then j
      else j.(body := written.value, revised := job.rounds + 1, ready := i.ready || relabelled,
              lag := i.lag + Behind(i.revised, job.rounds))
    case Block => i.(blocked := true, worker := None)
    case Question => i.(worker := None)
    case Close => i.(closed := true)
    case Return => i.(worker := None)
    case Pick(read) => i.(rescue := Some(read))
    case Unblock(written, relabelled) =>
      var j := i.(rescue := None);
      if written == None then j
      else j.(body := written.value, recovered := i.rescue.value + 1, ready := i.ready || relabelled,
              blocked := i.blocked && !relabelled, lag := i.lag + Behind(i.recovered, i.rescue.value))
    case GiveUp => i.(rescue := None)
  }

  function Fresh(u: Unicode, body: string): Issue {
    Issue(body, true, false, false, None, None, None, Revisions(u, body), Recoveries(u, body), 0, 0)
  }

  predicate Possible(u: Unicode, i: Issue, es: seq<Event>, max: Budget)
    decreases |es|
  {
    es != [] ==> Enabled(u, i, es[0], max) && Possible(u, Step(i, es[0]), es[1..], max)
  }

  function Outcome(u: Unicode, i: Issue, es: seq<Event>, max: Budget): Issue
    requires Possible(u, i, es, max)
    decreases |es|
  {
    if es == [] then i else Outcome(u, Step(i, es[0]), es[1..], max)
  }

  // ---- The budget ------------------------------------------------------------------
  //
  // For any two counters of a body, whatever they count.

  type Reading = string -> nat

  function ReadRevisions(u: Unicode): Reading { b => Revisions(u, b) }

  function ReadRecoveries(u: Unicode): Reading { b => Recoveries(u, b) }

  function Left(max: int, spent: nat): nat {
    if spent < max then max - spent else 0
  }

  /** What a step needs of the counters: edits do not lower them, and a stamp
      reaches its number without touching the other. */
  predicate Shaped(i: Issue, e: Event, max: Budget, rev: Reading, rec: Reading) {
    match e
    case Edit(b) => rev(b) >= rev(i.body) && rec(b) >= rec(i.body)
    case Claim(_) => i.seen.Some?
    case Requeue(written, relabelled) =>
      && i.worker.Some? && i.worker.value.rounds < max.revisions && (relabelled ==> written.Some?)
      && (written.Some? ==> rev(written.value) >= i.worker.value.rounds + 1 && rec(written.value) == rec(i.body))
    case Pick(read) => read < max.recoveries
    case Unblock(written, relabelled) =>
      && i.rescue.Some? && (relabelled ==> written.Some?)
      && (written.Some? ==> rec(written.value) >= i.rescue.value + 1 && rev(written.value) == rev(i.body))
    case _ => true
  }

  /** The body never falls below what has been written back. */
  predicate Covered(i: Issue, max: Budget, rev: Reading, rec: Reading) {
    && i.revised <= rev(i.body)
    && i.recovered <= rec(i.body)
    && (i.rescue.Some? ==> i.rescue.value < max.recoveries)
  }

  /** Claims made, plus those the labels and the counters still allow. */
  function Charge(i: Issue, max: Budget): nat {
    i.claims + (if i.ready then 1 else 0) + Left(max.revisions, i.revised) + Left(max.recoveries, i.recovered)
  }

  lemma StepSpends(i: Issue, e: Event, max: Budget, rev: Reading, rec: Reading)
    requires Covered(i, max, rev, rec) && Shaped(i, e, max, rev, rec)
    ensures Covered(Step(i, e), max, rev, rec)
    ensures Charge(Step(i, e), max) + i.lag <= Charge(i, max) + Step(i, e).lag
  {
  }

  /** The two counters of the program are such counters. */
  lemma EnabledIsShaped(u: Unicode, i: Issue, e: Event, max: Budget)
    requires Enabled(u, i, e, max)
    ensures Shaped(i, e, max, ReadRevisions(u), ReadRecoveries(u))
  {
    match e {
      case Requeue(_, _) => RevisionStamp(u, i.body, i.worker.value.rounds + 1);
      case Unblock(_, _) => RecoveryStamp(u, i.body, i.rescue.value + 1);
      case _ =>
    }
  }

  lemma {:induction false} RunSpends(u: Unicode, i: Issue, es: seq<Event>, max: Budget)
    requires Covered(i, max, ReadRevisions(u), ReadRecoveries(u)) && Possible(u, i, es, max)
    ensures Charge(Outcome(u, i, es, max), max) + i.lag <= Charge(i, max) + Outcome(u, i, es, max).lag
    decreases |es|
  {
    if es != [] {
      EnabledIsShaped(u, i, es[0], max);
      StepSpends(i, es[0], max, ReadRevisions(u), ReadRecoveries(u));
      RunSpends(u, Step(i, es[0]), es[1..], max);
    }
  }

  /** For any budgets, an issue is claimed at most once, and once more for each
      revision and each recovery its body had left, and for each unit by which the
      lists were behind. */
  lemma ClaimsAreBounded(u: Unicode, body: string, es: seq<Event>, max: Budget)
    requires Possible(u, Fresh(u, body), es, max)
    ensures var i := Outcome(u, Fresh(u, body), es, max);
            i.claims <= 1 + Left(max.revisions, Revisions(u, body)) + Left(max.recoveries, Recoveries(u, body)) + i.lag
  {
    RunSpends(u, Fresh(u, body), es, max);
  }

  // ---- When lists are current ---------------------------------------------------------

  /** Each list shows the label and the counter as they stand. */
  predicate Current(u: Unicode, i: Issue, es: seq<Event>, max: Budget)
    requires Possible(u, i, es, max)
    decreases |es|
  {
    es != [] ==>
      && (es[0].List? ==> i.ready && es[0].read == Revisions(u, i.body))
      && (es[0].Pick? ==> i.blocked && es[0].read == Recoveries(u, i.body))
      && Current(u, Step(i, es[0]), es[1..], max)
  }

  /** What was listed is no older than what was written back. */
  predicate UpToDate(i: Issue) {
    && (i.seen.Some? ==> i.ready && i.worker == None && i.revised <= i.seen.value)
    && (i.worker.Some? && !i.worker.value.requeued ==> i.revised <= i.worker.value.rounds)
    && (i.rescue.Some? ==> i.recovered <= i.rescue.value)
  }

  lemma CurrentStep(i: Issue, e: Event, max: Budget, rev: Reading, rec: Reading)
    requires Covered(i, max, rev, rec) && UpToDate(i) && Shaped(i, e, max, rev, rec)
    requires e.List? ==> i.ready && i.worker == None && e.read == rev(i.body)
    requires e.Claim? ==> i.worker == None
    requires e.Requeue? ==> !i.worker.value.requeued
    requires e.Pick? ==> e.read == rec(i.body)
    ensures UpToDate(Step(i, e)) && Step(i, e).lag == i.lag
  {
  }

  lemma {:induction false} CurrentRun(u: Unicode, i: Issue, es: seq<Event>, max: Budget)
    requires Covered(i, max, ReadRevisions(u), ReadRecoveries(u)) && UpToDate(i) && Possible(u, i, es, max) && Current(u, i, es, max)
    ensures Outcome(u, i, es, max).lag == i.lag
    decreases |es|
  {
    if es != [] {
      EnabledIsShaped(u, i, es[0], max);
      CurrentStep(i, es[0], max, ReadRevisions(u), ReadRecoveries(u));
      StepSpends(i, es[0], max, ReadRevisions(u), ReadRecoveries(u));
      CurrentRun(u, Step(i, es[0]), es[1..], max);
    }
  }

  /** Then nothing lags, and no issue comes back for ever. */
  lemma CurrentListsBoundClaims(u: Unicode, body: string, es: seq<Event>, max: Budget)
    requires Possible(u, Fresh(u, body), es, max) && Current(u, Fresh(u, body), es, max)
    ensures Outcome(u, Fresh(u, body), es, max).claims <=
            1 + Left(max.revisions, Revisions(u, body)) + Left(max.recoveries, Recoveries(u, body))
  {
    ClaimsAreBounded(u, body, es, max);
    CurrentRun(u, Fresh(u, body), es, max);
  }

  // ---- When they are not -----------------------------------------------------------------

  /** A list that never catches up has the same revision stamped again and again:
      there is no bound on the claims without the lag. */
  lemma {:induction false} StaleListsRepeat(u: Unicode, i: Issue, n: nat, max: Budget) returns (es: seq<Event>)
    requires max.revisions > 0 && i.ready && i.worker == None
    ensures Possible(u, i, es, max) && Outcome(u, i, es, max).claims == i.claims + n
    decreases n
  {
    if n == 0 {
      es := [];
    } else {
      var listed := Step(i, List(0));
      var claimed := Step(listed, Claim(true));
      var stamp := Requeue(Some(StampRevision(u, i.body, 1)), true);
      var requeued := Step(claimed, stamp);
      var rest := StaleListsRepeat(u, Step(requeued, Return), n - 1, max);
      First(u, requeued, Return, rest, max);
      First(u, claimed, stamp, [Return] + rest, max);
      First(u, listed, Claim(true), [stamp] + ([Return] + rest), max);
      First(u, i, List(0), [Claim(true)] + ([stamp] + ([Return] + rest)), max);
      es := [List(0)] + ([Claim(true)] + ([stamp] + ([Return] + rest)));
    }
  }

  /** Nor without the label's part of it: blocked again and again before anything
      is written, and listed with the counter as it stands but with a label that is
      gone, an issue is claimed any number of times, whatever the budgets. */
  lemma {:induction false} StaleLabelsRepeat(u: Unicode, i: Issue, n: nat, max: Budget) returns (es: seq<Event>)
    requires i.worker == None
    ensures Possible(u, i, es, max)
    ensures var j := Outcome(u, i, es, max);
            && j.claims == i.claims + n && j.body == i.body
            && j.lag == i.lag + if i.ready && n > 0 then n - 1 else n
    ensures forall k :: 0 <= k < |es| ==> es[k] in {List(Revisions(u, i.body)), Claim(true), Block}
    decreases n
  {
    if n == 0 {
      es := [];
    } else {
      var list := List(Revisions(u, i.body));
      var listed := Step(i, list);
      var claimed := Step(listed, Claim(true));
      var rest := StaleLabelsRepeat(u, Step(claimed, Block), n - 1, max);
      First(u, claimed, Block, rest, max);
      First(u, listed, Claim(true), [Block] + rest, max);
      First(u, i, list, [Claim(true)] + ([Block] + rest), max);
      es := [list] + ([Claim(true)] + ([Block] + rest));
    }
  }

  lemma First(u: Unicode, i: Issue, e: Event, es: seq<Event>, max: Budget)
    requires Enabled(u, i, e, max) && Possible(u, Step(i, e), es, max)
    ensures Possible(u, i, [e] + es, max) && Outcome(u, i, [e] + es, max) == Outcome(u, Step(i, e), es, max)
  {
    assert ([e] + es)[1..] == es;
  }
}
