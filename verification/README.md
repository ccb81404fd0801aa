# FrankenRust: verified model

A Dafny model of the parts of FrankenRust whose correctness no single function
shows: the lifecycle protocol of the PHP threads, the CGI path algebra, the
request context, and the orchestrator that builds the repository.

- **Threads** (`StateCell`, `ThreadState`, `DrainChannel`, `PhpThread`,
  `PhpThreadProgress`, `ThreadPool`, `ThreadPoolSafety`). The state cell and the
  drain channel are classes proved against value-level functions. On top of them
  the controller that holds SCALING, one pthread per slot, the main pthread and
  any number of dispatchers are one transition system; a wait is an atomic
  check-and-subscribe followed by a block, and reading and publishing a state are
  two steps. The theorems range over every run of any number of slots.
- **Paths** (`Bytes`, `CleanPath`, `CgiPath`, `HostPort`). The in-place path
  scanner is a loop that refines a component-stack specification; the join, the
  split search, the directory index and the host parser each have a declarative
  meaning.
- **Request context** (`Headers`, `Utf8`, `Hexadecimal`, `Quote`, `Printable`,
  `LogLine`, `RequestBody`, `ContextSlots`).
- **Orchestrator** (`Attempt`, `RunPool`, `Scanning`, `IssueBody`, `IssueLife`,
  `Journal`, `GitStatus`).
- `Wrappers` and `Sequences` are shared helpers.

Functions that only compute (such as `CleanPath.Cleaned` or `Quote.Escaped`) are
the specifications; the table names the methods proved against them and the
lemmas about them.

Where the code departs from what a reader may expect, the model follows the code
and a lemma says exactly when:

- a bracketed IPv6 address without a port loses its last group to the port
  (`HostPort.BracketedWithoutPort`);
- a claim whose labels are not read back, and a worker that finishes without an
  edit of its labels that lands, leave an issue in fr:claimed without a worker
  (`RunPool.UnattendedExactly`);
- a carriage return in a path is lost in the git status
  (`GitStatus.ReadInvertsPrint`);
- lists that lag behind, in the counter or in the label, allow claims beyond the
  budgets (`IssueLife.ClaimsAreBounded`).

`ContextSlots.UnguardedDeadlocks` and `RunPool.ExclusionIsNeeded` say what two of
the repository's guards are needed for.

## Model

| member | source | states |
|---|---|---|
| StateCell.PublishWakes | crates/frankenrust-core/src/state.rs:127-131 | `set` makes the given state current and drops exactly the stored waits interested in it, and no other |
| StateCell.PublishKeepsOrder | crates/frankenrust-core/src/state.rs:253-262 | whatever stands before or after a wait, the waits kept stay in their order, and each is kept or dropped as it asked |
| StateCell.SubscribeAdds | crates/frankenrust-core/src/state.rs:232-248 | check-and-subscribe stores nothing when the state is already wanted, and otherwise one new wait that no notification has passed by |
| StateCell.ExpireRemoves | crates/frankenrust-core/src/state.rs:146-163 | a timeout removes its own entry at most, and no other wait's |
| StateCell.RunKeepsValid | crates/frankenrust-core/src/state.rs:102-262 | over every operation sequence no stored wait is interested in the current state and tokens stay distinct |
| StateCell.WaitReleasedIffSeen | crates/frankenrust-core/src/state.rs:134-163 | a wait is released exactly if one of its states was current at some moment since it subscribed: no lost wake-up, no spurious one |
| StateCell.RequestLoopIsSafe | crates/frankenrust-core/src/state.rs:165-185 | over any changes between its turns, the retry loop returns true exactly if the first turn to find a settled state found Ready or Inactive, and made the change in that step; false exactly if it found Reserved, ShuttingDown or Done, changing nothing; and loops on exactly if none was found |
| StateCell.RequestIsSafe | crates/frankenrust-core/src/state.rs:167-178 | one turn of that loop, under the lock |
| ThreadState.ThreadState.CompareAndSwap | crates/frankenrust-core/src/state.rs:102-112 | in place: swaps and notifies exactly when the current state is the expected one |
| ThreadState.ThreadState.Set | crates/frankenrust-core/src/state.rs:127-131 | in place: the new cell is the old one with the state published |
| ThreadState.ThreadState.NotifySubscribers | crates/frankenrust-core/src/state.rs:253-262 | the compacting loop keeps exactly the waits not interested in the new state, in order |
| ThreadState.ThreadState.CheckAndSubscribe | crates/frankenrust-core/src/state.rs:232-248 | in place: returns a token exactly when the caller has to block |
| ThreadState.ThreadState.ExpireOwn | crates/frankenrust-core/src/state.rs:146-163 | in place: the retaining loop removes the caller's own entry only |
| ThreadState.ThreadState.TryRequest | crates/frankenrust-core/src/state.rs:165-185 | in place: one turn of the retry loop grants, refuses or asks to wait as the cell's function says |
| DrainChannel.CloseWakesForGood | crates/frankenrust-core/src/thread.rs:203-226 | after a close every receiver handed out so far is disconnected, in every run of closes, reopens and renewals that follows, and the epoch never falls |
| DrainChannel.TicketReopensOnce | crates/frankenrust-core/src/thread.rs:212-217 | over any run of fewer than 2^64 closings the ticket of a close reopens the channel exactly once, if it is presented at all, although tags wrap |
| DrainChannel.TagsComeRound | crates/frankenrust-core/src/thread.rs:212-217 | with 2^64 closings it fits again, so the bound is exact |
| DrainChannel.Channel.CloseCurrent | crates/frankenrust-core/src/thread.rs:203-210 | in place: closes once and hands out the ticket |
| DrainChannel.Channel.ReopenAfter | crates/frankenrust-core/src/thread.rs:212-217 | in place: only the matching ticket reopens |
| DrainChannel.Channel.Renew | crates/frankenrust-core/src/thread.rs:219-226 | a boot starts on a channel of its own |
| PhpThread.PthreadKeepsInv | crates/frankenrust-core/src/thread_regular.rs:93-236 | every step of a pthread, through the inactive and the regular handler and its shutdown, keeps the slot invariant and follows an edge the pthread owns |
| PhpThread.DeliverKeepsInv | crates/frankenrust-core/src/thread_regular.rs:93-114 | a rendezvous with a parked handler keeps the slot invariant |
| PhpThread.ControlKeepsInv | crates/frankenrust-core/src/thread.rs:380-562 | every step of boot, handler swap, shutdown and drain on a slot keeps the slot invariant and follows an edge the controller owns |
| PhpThread.BeginKeepsInv | crates/frankenrust-core/src/thread.rs:413-562 | starting an operation on a free slot keeps the slot invariant |
| PhpThread.MarkKeepsInv | crates/frankenrust-core/src/thread.rs:971-996 | marking a reserved slot for boot while scanning keeps the slot invariant |
| PhpThreadProgress.NothingUnexpected | crates/frankenrust-core/src/thread.rs:418-444 | the "no open drain generation" returns and the unexpected-state branches are dead, and a request stays with the handler that dequeued it |
| PhpThreadProgress.ParkedSeesDrain | crates/frankenrust-core/src/thread_regular.rs:93-114 | a parked handler always selects on the current drain generation, and can be woken by it exactly once the controller is past its close |
| PhpThreadProgress.ControlWaitsItsTurn | crates/frankenrust-core/src/thread.rs:431-463 | while an answer is owed by a live pthread no controller step changes the state |
| PhpThreadProgress.PthreadPublishesInTurn | crates/frankenrust-core/src/thread_inactive.rs:22-37 | a pthread publishes only in a state whose answer it owes, so its get-then-set pair overwrites nothing |
| PhpThreadProgress.RankFalls | crates/frankenrust-core/src/thread_inactive.rs:18-61 | each move of a pthread that owes an answer brings it closer, whatever branch it takes |
| PhpThreadProgress.SomeoneCanStep | crates/frankenrust-core/src/thread.rs:418-562 | in the middle of any operation the controller or the pthread of its slot can step: no deadlock, no lost wake |
| PhpThreadProgress.AskedCanGo | crates/frankenrust-core/src/thread_regular.rs:93-219 | a live pthread that owes an answer can always go on, except while it is parked and the controller is about to close its drain |
| PhpThreadProgress.ReleasedStays | crates/frankenrust-core/src/state.rs:134-143 | once the controller has been released no step of the pthread blocks it again |
| PhpThreadProgress.AnswerIsBounded | crates/frankenrust-core/src/thread.rs:438-441 | however threads interleave, a request is answered before the pthread has made more than twelve moves, so no unbounded wait hangs |
| PhpThreadProgress.AtMostOneLateDelivery | crates/frankenrust-core/src/thread_regular.rs:93-114 | at most one request is delivered after TransitionRequested or ShuttingDown is published, and none unless the handler had already read Ready |
| ThreadPool.StepKeepsPoolInv | crates/frankenrust-core/src/thread.rs:763-1000 | every event of every actor keeps the registry invariant |
| ThreadPool.TurnKeepsRequests | crates/frankenrust-core/src/context.rs:1244-1251 | closing a context fires its request's signal, once, and no other step of a pthread fires any |
| ThreadPool.DeliveryKeepsRequests | crates/frankenrust-core/src/thread_regular.rs:166-194 | a delivery finds the slot empty, and the request is then in that slot alone |
| ThreadPool.DispatchEventKeepsRequests | crates/frankenrust-core/src/thread_regular.rs:347-382 | each step of a dispatcher keeps the queued counter equal to the dispatchers between increment and decrement |
| ThreadPoolSafety.TeardownIsSafe | crates/frankenrust-core/src/thread.rs:763-918 | in every run of any number of registries, one after the other, main Done is published only when every slot is Reserved, no pthread exists, and every request taken has been completed |
| ThreadPoolSafety.NothingUnexpectedAnywhere | crates/frankenrust-core/src/thread.rs:418-575 | the slot facts hold at every slot of every run of the registry |
| ThreadPoolSafety.RequestsAreConserved | crates/frankenrust-core/src/thread_regular.rs:347-382 | in every run, across re-initialisations too, each request is with its dispatcher, in exactly one slot, or done; its signal fires once and never twice |
| ThreadPoolSafety.CompletionIsBounded | crates/frankenrust-core/src/thread_regular.rs:166-236 | in every run from any reachable state, a request that a thread has taken is completed by the fourth of that thread's own moves at the latest, not counting what its script does while it runs, and until then the thread can always move |
| ThreadPoolSafety.EdgesAreChecked | crates/frankenrust-core/src/thread.rs:431-463 | every publication of every run is a legal edge made by the side that owns it, although `set` validates nothing |
| ThreadPoolSafety.NeverStuck | crates/frankenrust-core/src/thread.rs:763-918 | while an operation holds SCALING something that drives it is enabled: a step of its holder, of the pthread it waits for, or of the main pthread |
| ThreadPoolSafety.ControlTurnWorks | crates/frankenrust-core/src/thread.rs:763-931 | each step of the holder of SCALING lowers the work its operation has left |
| ThreadPoolSafety.OthersAddNoWork | crates/frankenrust-core/src/thread.rs:763-931 | nobody else raises it |
| ThreadPoolSafety.EventSpends | crates/frankenrust-core/src/thread.rs:763-931 | whatever drives an operation uses up its budget, and no other event adds to it |
| ThreadPoolSafety.OperationsEnd | crates/frankenrust-core/src/thread.rs:763-931 | in every run until SCALING is next acquired, the steps of its holder together with the awaited moves of the pthreads and of the main pthread are at most linearly many in the number of slots: no initialisation, swap, shutdown or drain hangs |
| CleanPath.Clean | crates/frankenrust-core/src/cgi.rs:173-227 | the scanner with its backtracking write cursor computes the component-stack specification for every byte string, and never the empty path |
| CleanPath.DropTop | crates/frankenrust-core/src/cgi.rs:198-203 | the backward scan bounded by `dotdot` removes exactly the top component |
| CleanPath.Ascend | crates/frankenrust-core/src/cgi.rs:197-210 | a `..` pops, is kept in a leading unrooted run, or is dropped at the root, as the stack says |
| CleanPath.CleanedKeepsMeaning | crates/frankenrust-core/src/cgi.rs:173-227 | cleaning keeps the component stack and the rootedness of every path |
| CleanPath.CleanedIsNormalForm | crates/frankenrust-core/src/cgi.rs:173-227 | two paths clean alike exactly if they mean the same, and cleaning is idempotent |
| CleanPath.SanitizedPathJoin | crates/frankenrust-core/src/cgi.rs:242-256 | the method computes the join of the cleaned rooted request onto the root |
| CleanPath.JoinIsExact | crates/frankenrust-core/src/cgi.rs:242-256 | the join's components are the root's followed by the rooted request's, so no request removes or replaces a root component; only a trailing slash is added |
| CgiPath.SplitPosition | crates/frankenrust-core/src/cgi.rs:92-120 | the nested search loops compute the split specification |
| CgiPath.SplitFromIsFirst | crates/frankenrust-core/src/cgi.rs:92-120 | the split is at the first occurrence of the first entry that occurs, ASCII case-folded, and absent exactly if no entry occurs |
| CgiPath.SplitCgiPathIsACut | crates/frankenrust-core/src/cgi.rs:137-168 | DOCUMENT_URI followed by PATH_INFO is the path when there is a split; otherwise the whole path names the script |
| CgiPath.ScriptStaysUnderRoot | crates/frankenrust-core/src/cgi.rs:137-168 | SCRIPT_FILENAME is never empty and lies under the document root |
| CgiPath.ResolveDirectoryIndex | crates/frankenrust-server/src/server.rs:336-340 | the in-place extension computes the directory-index specification |
| CgiPath.IndexMatchesOnce | crates/frankenrust-server/src/server.rs:336-340 | in a rewritten path `.php`, case-folded, occurs exactly once, at the end |
| CgiPath.DirectoryIndexInjectsNothing | crates/frankenrust-server/src/server.rs:336-340 | a rewritten path splits into itself and an empty PATH_INFO |
| CgiPath.RequestScript | crates/frankenrust-server/src/server.rs:361-392 | the script attached to a request is never empty, so a dequeued request always has a script path |
| HostPort.SplitIsTheGrammar | crates/frankenrust-core/src/cgi.rs:266-296 | `split_host_port` accepts exactly `h:p` (h without colon or brackets) and `[h]:p` (h without brackets), p free of all three, and returns that pair |
| HostPort.SplitBare | crates/frankenrust-core/src/cgi.rs:266-296 | it inverts the bare join |
| HostPort.SplitBracketed | crates/frankenrust-core/src/cgi.rs:266-296 | it inverts the bracketed join |
| HostPort.RemoteAddrKeepsAll | crates/frankenrust-core/src/cgi.rs:303-322 | the lenient split is total and loses nothing but the last colon and one bracket pair; without a colon the port is empty |
| HostPort.BracketedWithoutPort | crates/frankenrust-core/src/cgi.rs:308-319 | a bracketed host without a port is recognised exactly if it has no colon |
| HostPort.LoopbackWithoutPort | crates/frankenrust-core/src/cgi.rs:308-319 | `[::1]` comes apart into the host `[:` and the port `1]` |
| HostPort.ServerNameAndPort | crates/frankenrust-core/src/cgi.rs:329-363 | the pair agrees with its two single-value forms on every input, returns the halves of any well-formed authority, and falls back to Host and the scheme's port for anything else |
| HeaderName.CanonicalName | crates/frankenrust-core/src/cgi.rs:521-538 | the loop with its one-bit state computes the positional specification, and returns a malformed name unchanged |
| HeaderName.CanonicalDecides | crates/frankenrust-core/src/context.rs:181-201 | two names have one canonical form exactly if they are equal, or both well formed and equal but for ASCII case |
| HeaderName.CanonicalIsIdempotent | crates/frankenrust-core/src/cgi.rs:521-538 | canonical names are fixed points |
| Headers.InsertedValues | crates/frankenrust-core/src/context.rs:89-96 | an insert appends to one name's values, leaves every other name's, and keeps one entry per name |
| Headers.Map.Insert | crates/frankenrust-core/src/context.rs:89-96 | in place: the entries after an insert |
| Headers.Map.GetFirst | crates/frankenrust-core/src/context.rs:108-115 | the first value of the name, None exactly if it was never inserted |
| Headers.Map.GetAll | crates/frankenrust-core/src/context.rs:119-124 | all values of the name in order, None exactly if it was never inserted |
| Headers.Map.Clear | crates/frankenrust-core/src/context.rs:144-146 | a later lookup of any name, in any spelling, finds nothing |
| Headers.LookupFindsAllSpellings | crates/frankenrust-core/src/context.rs:84-146 | after any insertions a lookup in any spelling yields the values of exactly the fields that spell the name, in order of arrival |
| Utf8.DecodeInvertsEncode | crates/frankenrust-core/src/context.rs:518-547 | a decoder over the byte ranges of section 4 of RFC 3629 finds a scalar exactly where its encoding by section 3 stands |
| Utf8.ValidPrefix | crates/frankenrust-core/src/context.rs:524-536 | the valid prefix is the encoding of its characters, and no well-formed sequence starts where it ends |
| Quote.GoQuote | crates/frankenrust-core/src/context.rs:518-547 | the run-by-run loops compute the rune-by-rune quoting, one escape per byte that starts no well-formed sequence |
| Quote.QuoteIsReversible | crates/frankenrust-core/src/context.rs:518-586 | an unquoter recovers the exact bytes, valid UTF-8 or not, for any printability predicate and whatever text follows the closing quote |
| Quote.UnquoteInvertsGoQuote | crates/frankenrust-core/src/context.rs:518-586 | so the quoted text as a whole reads back to its input |
| Quote.EscapedIsClean | crates/frankenrust-core/src/context.rs:552-586 | every character written is visible ASCII or accepted by the predicate |
| Quote.PrintableIsVerbatim | crates/frankenrust-core/src/context.rs:552-565 | printable text without quotes and backslashes is written as it is |
| Hexadecimal.HexRoundTrip | crates/frankenrust-core/src/context.rs:577-583 | zero-padded lower-case hexadecimal reads back to its number |
| Printable.PartitionPoint | crates/frankenrust-core/src/context.rs:641-650 | the bisection returns the first index whose entry is not below the needle |
| Printable.PairHitIsMembership | crates/frankenrust-core/src/context.rs:646-663 | looking only at the pair around the partition point, by clearing and setting the low bit, decides membership in any inclusive pair, with every index in bounds |
| Printable.LookupIsMembership | crates/frankenrust-core/src/context.rs:627-672 | above Latin-1 a scalar is printable exactly if some pair contains it and the exceptions, where they apply, do not |
| Printable.ShortcutAgrees | crates/frankenrust-core/src/context.rs:630-639 | the Latin-1 shortcut answers as the tables would |
| Printable.RejectionIsReadable | crates/frankenrust-core/src/context.rs:490-672 | a quoted header value holds no control character and reads back to the bytes that were sent |
| LogLine.EscapeForLogLine | crates/frankenrust-core/src/callbacks/log.rs:236-249 | the loop computes the byte-wise escaping |
| LogLine.UnescapeInverts | crates/frankenrust-core/src/callbacks/log.rs:236-249 | the escaping has a left inverse |
| LogLine.EscapeIsInjective | crates/frankenrust-core/src/callbacks/log.rs:224-235 | no two messages render alike |
| LogLine.EscapedIsPrintable | crates/frankenrust-core/src/callbacks/log.rs:236-249 | only printable ASCII is written, so no message breaks its line |
| LogLine.PrintableIsVerbatim | crates/frankenrust-core/src/callbacks/log.rs:236-249 | printable text without backslashes is written as it is |
| RequestBody.Fill | crates/frankenrust-core/src/context.rs:272-288 | the count never exceeds the buffer whatever the source claims; over an honest source the buffer holds the next bytes, a short count means the body has ended, and a full buffer leaves the rest |
| RequestBody.FragmentationIsInvisible | crates/frankenrust-core/src/context.rs:240-271 | splitting a chunk or interrupting between reads does not change the body |
| ContextSlots.RequestContext.Fire | crates/frankenrust-core/src/context.rs:904-908 | the completion signal fires at most once |
| ContextSlots.RequestContext.CloseContext | crates/frankenrust-core/src/context.rs:1244-1251 | idempotent: the client's state is the one at the first call, and the waiter is woken by it alone |
| ContextSlots.GuardPreventsDeadlock | crates/frankenrust-core/src/context.rs:1428-1540 | with the single-slot guard, in every run of any number of threads a slot has one holder and a blocked thread waits for one that is not blocked |
| ContextSlots.UnguardedDeadlocks | crates/frankenrust-core/src/context.rs:1316-1347 | without it two threads nesting two slots in opposite orders reach a deadlock |
| Review.OutcomeIsApproval | orchestrator/loop.py:1246-1277 | a round passes exactly if nobody blocks and somebody passes; every blocker is among the findings |
| Review.VerdictsSurviveRetry | orchestrator/loop.py:1485-1494 | a verdict given before the silent-reviewer retry survives it, and a block in either round blocks |
| Review.SilenceIsNoConsent | orchestrator/loop.py:1246-1277 | reviewers that say nothing in both rounds never amount to a pass |
| Attempt.ReviewStage | orchestrator/loop.py:1376-1496 | the stage's outcome and verdicts are those of its last round; an empty diff is not reviewed at all |
| Attempt.MergeWorktree | orchestrator/loop.py:741-764 | a merge needs rebase, gate and fast-forward, and records them in that order |
| Attempt.Prepare | orchestrator/loop.py:1698-1788 | an attempt reaches the merge exactly if nothing falls short, with the tree gated and approved as it stands |
| Attempt.Repair | orchestrator/loop.py:1741-1786 | so does the fixer's tree, past its gate, its reviewers and the guard against an empty diff |
| Attempt.Attempts | orchestrator/loop.py:1698-1817 | for any number of attempts, none included: the first that falls short of nothing is merged, and the closing comment's verdicts are those of the last round on the merged tree; otherwise the last shortfall, if there was an attempt, is reported |
| Attempt.TryRequeue | orchestrator/gh.py:440-464 | only a requeue that has stamped the revision after the listed one puts the issue back into the queue, and one that has not leaves the body alone |
| Attempt.ResolveQuestion | orchestrator/loop.py:1499-1538 | an objection puts an issue back into the queue only by a rewrite that found a unit of the budget and stamped it; overruled, it leaves the issue as it was; closed or questioned, it does not requeue it unless such a rewrite was tried |
| Attempt.Work | orchestrator/loop.py:1668-1817 | an objection that is not overruled ends the work before anything is written; otherwise the attempts decide; and the issue comes back only through an objection with budget left |
| Attempt.MergeIsSound | orchestrator/loop.py:1698-1817 | before anything reaches main there was, in this order: an approving round that still stands, the hand-over of a tree with a diff that had passed the gate as it was, its rebase, and a passing gate that still stands |
| RunPool.StepKeepsInv | orchestrator/loop.py:2195-2327 | every step of the claim loop and of the workers keeps the pool invariant |
| RunPool.PoolIsSafe | orchestrator/loop.py:2195-2327 | for any FR_PARALLEL and in every run at most that many workers are in flight, no issue has two that run, and restart and drain find nothing running |
| RunPool.UnattendedExactly | orchestrator/gh.py:405-438 | whenever a pass is over, an issue carries fr:claimed and no worker runs on it exactly if its last label edit that landed was not won, or it was won and the last worker of the issue has finished without taking the label off |
| RunPool.UnownedIffNotWon | orchestrator/gh.py:405-423 | whenever a pass is over, no worker has been submitted for an issue since the loop labelled it exactly if that edit was not won, because gh reported it as failed or the labels were not read back; such an issue carries fr:claimed and no worker runs on it |
| RunPool.StrandingRun | orchestrator/loop.py:2254-2276 | a run in which a claim that is not read back leaves its issue so |
| RunPool.LeftBehindRun | orchestrator/gh.py:431-438 | a run in which a won claim does, its worker finishing without a label edit that lands |
| RunPool.StrandedStays | orchestrator/loop.py:2195-2327 | while fetched queues list only what carries fr:ready, an issue stranded by its claim stays so in every run, unless someone else puts fr:ready back |
| RunPool.DrainIsConfirmed | orchestrator/loop.py:2294-2327 | for any FR_DRAIN_CONFIRMATIONS, "queue drained" comes only after that many consecutive idle polls, and at least one |
| RunPool.BatchIsSubmitted | orchestrator/loop.py:2278-2291 | a won batch is submitted in one more loop step than it is long, with any events of the workers in between: one new worker for each issue, in order, and none left unowned |
| RunPool.ExclusionIsNeeded | orchestrator/loop.py:2255-2276 | without the busy exclusion some run gives an issue two running workers, if and only if FR_PARALLEL is at least two |
| IssueBody.ReadCounter | orchestrator/gh.py:160-184 | the non-overlapping scan returns the highest value at any line start, whatever version of Unicode says what is white space, a digit or the same letter |
| IssueBody.CounterConcat | orchestrator/gh.py:160-184 | matches do not reach across the line break before a non-number, so counters of joined texts combine by maximum |
| IssueBody.StampRaises | orchestrator/gh.py:440-464 | stamping n, by replacing the first match or appending a line, makes the counter at least n and no higher than n or what it was, and leaves the other counter alone |
| IssueLife.StampAddsOne | orchestrator/gh.py:378-402 | stamping one above the counter raises it by exactly one, for any body text |
| IssueLife.RevisionStamp | orchestrator/gh.py:440-464 | a stamped revision is reached, goes no higher than its number or what was there, and leaves the recoveries alone |
| IssueLife.StepSpends | orchestrator/loop.py:1508-1531 | no event, the claim of an issue whose fr:ready is gone included, raises claims made plus claims still possible by more than the lists lag: by what the counter behind a stamp was late, and by one where the label was |
| IssueLife.ClaimsAreBounded | orchestrator/loop.py:1564-1622 | for any budgets an issue is claimed at most once, plus once for each revision and each recovery its body has left, plus the lag of the lists in counters and in the label |
| IssueLife.CurrentListsBoundClaims | orchestrator/loop.py:1564-1622 | with lists that show both the label and the counter as they stand there is no lag, and the bound is that of the budgets |
| IssueLife.StaleListsRepeat | orchestrator/loop.py:2316-2320 | with a revision to spend, a list whose counter never catches up lets one issue be claimed any number of times |
| IssueLife.StaleLabelsRepeat | orchestrator/gh.py:405-423 | and for any budgets, zero included, so does a list that still shows fr:ready after the issue was claimed and blocked, although its counter is current: a claim looks only at the label it adds |
| Journal.File.Record | orchestrator/loop.py:221-252 | in place: what an append cut at any byte leaves in the file, with the repair of an earlier tear |
| Journal.File.Torn | orchestrator/loop.py:199-218 | a tear is reported exactly if the file ends without a newline |
| Journal.CleanAppend | orchestrator/loop.py:221-252 | onto an untorn file, an append adds exactly the record that landed whole |
| Journal.TornAppend | orchestrator/loop.py:240-250 | onto a torn one too, and the fragment costs no other record |
| Journal.NothingElseIsLost | orchestrator/loop.py:199-252 | after any run of appends, each cut at any byte, reading line by line gives what was there and then exactly the records that landed whole, in order |
| GitStatus.RootStatus | orchestrator/loop.py:864-889 | the index loop computes the field-by-field parse of the translated output, IndexError on a one-character record included |
| GitStatus.ParseInvertsPrint | orchestrator/loop.py:871-889 | from untranslated output the parse recovers whatever list of changes git prints; the index never loses step |
| GitStatus.ReadIsTranslated | orchestrator/loop.py:864-889 | through the line-break translation of text output the program gets the changes with CR and CRLF in names turned into LF |
| GitStatus.ReadInvertsPrint | orchestrator/loop.py:864-889 | which is what git reported if and only if no path and no rename source holds a carriage return |
| GitStatus.CarriageReturnIsLost | orchestrator/loop.py:864-889 | an untracked file with a carriage return in its name is reported under another name |
| GitStatus.MeaningIsExact | orchestrator/loop.py:804-889 | with one record a path every path has its own status, nothing is invented, and the sources are exactly those of renames and copies in either column |
| GitStatus.SourcesAreExact | orchestrator/loop.py:804-889 | with distinct sources each one has its record's status |

## Left out

- The reboot states: no controller publishes Rebooting or ForceRebooting here; the pthread's branches for them are modelled and proved dead.
- Worker mode, FFI, force-kill signals, metrics and the wait timestamps; a script run is one step that ends.
- Real time: a timeout is a choice that can fall at any moment of a wait.
- The scan for an inactive slot is a choice among the slots that qualify rather than the first in order, and the scan of the directed channels may interleave with attach and detach although the program holds a read lock.
- Stale entries of the directed channels stay until a handler of their slot detaches, as in the program, where attaching happens after SCALING is released.
- A dispatcher that finds no thread after a drain blocks until a later registry takes its request, as in the program; only requests that a thread took are proved to complete (`ThreadPoolSafety.CompletionIsBounded`).
- PhpThread and HandlerSlot are values inside the transition system, not classes: their fields change in steps of several threads, which a method's contract cannot state.
- cmd_run and its workers are a transition system for the same reason; a blocking reap is the next pass's sweep.
- An FR_PARALLEL below one, which the executor refuses, is a pool that never claims.
- The four printability tables are parameters, required to be sorted and the pair tables of even length; COMMON_HEADERS is not modelled.
- Header names are byte strings; the program's are UTF-8 strings.
- RequestBody.Fill: where the source claims more than it wrote, only the bound on the count is stated.
- ContextSlots: growth of the table and poisoned locks; a slot is its index.
- Agents, git, gh and the gate are outcomes that may be anything; restoring a snapshot is taken to be exact and the gate to leave the tree unchanged. A reviewer's text is modelled by whether it holds each verdict marker.
- The wording of findings, comments and review summaries, and who ran which role.
- IssueLife.ClaimsAreBounded: agents are taken not to lower the counters, nobody but a requeue or an unblock to put fr:ready back, and stale claims released when a process starts are not counted.
- RunPool.UnattendedExactly: only the loop and the worker that owns an issue are taken to move fr:claimed.
- Journal: one process; the tear is computed before the file lock is taken.
- GitStatus.ReadInvertsPrint: the output is taken to decode; a failing git is not modelled.
- Queue ranking, dependencies, priorities, labels other than fr:ready, retrospectives, the configuration overlay, the ROOT guard and the bench harness.
- hyper and tokio plumbing, response building, output and server-variable callbacks, the build script and the C shim.
