# Rescribo's durable workers, modelled and proved

Rescribo keeps customer reports, the problems they describe and the people who wait for a fix. Four
kinds of background work carry decisions of its members to Slack, GitHub and a matcher. They share
one shape: a row is claimed under a lease, an outside call is made while no lock is held, and a
fenced write records what happened. Members, webhooks, a sweeper and late workers race with all of
it. This project states each protocol as a state machine whose steps are one database transaction or
one outside call, with a clock that never runs backwards, and proves what holds in every reachable
state and over every run. Two self-contained algorithms of the repository are proved beside them:
the merge of YAML rules in the updater, and the arithmetic of the matcher's evaluation.

Everything the source reads outside the rows is a parameter of a step: provider answers, the clock,
random jitter, fresh identifiers. A transaction that the source refuses or rolls back leaves the
state as it was. Check the whole project with `dafny verify dfyconfig.toml`.

## How it is laid out

| part | files |
|---|---|
| shared names, Python strings, retry timing | `common`, `python_strings`, `retries` |
| Slack delivery of follow-ups, with triage, fixes and reopenings | `transitions`, `notifications`, `notification_row`, `delivery_world`, `desk_store`, `delivery_invariants`, `delivery_history`, `delivery_visibility`, `fix_lifecycle`, `delivery_laws`, `triage_laws` |
| creating GitHub issues, recovery, links | `issue_markers`, `issue_creation`, `issue_links`, `external_operation`, `creation_world`, `creation_exclusive`, `creation_recovery`, `creation_laws`, `creation_world_laws` |
| issue sync and reconciliation | `issue_sync`, `engineering_issue`, `sync_invariants`, `sync_theorems`, `sync_promise`, `sync_boundary`, `sync_laws` |
| match runs | `match_contract`, `match_retrieval`, `match_runs`, `match_run_row`, `match_invariants`, `match_steps`, `match_theorems`, `match_laws` |
| the rules merge | `rules_lines`, `rules_block`, `rules_splice`, `rules_merge`, `rules_reread`, `rules_install`, `rules_union`, `rules_config`, `rules_acceptance`, `rules_order`, `rules_script` |
| evaluation | `eval_wilson`, `eval_frontier` |

Rows that the source updates in place are classes (`NotificationRow`, `DeskStore`,
`ExternalOperation`, `IssueTable`, `EngineeringIssue`, `Reconciliation`, `MatchRunRow`) whose methods
are proved equal to functions on values. The state machines use those functions, so the theorems
about runs are theorems about the methods. Loops of the source are loops here.

## Where the code does not keep the promise

Each of these is a theorem with a concrete run and the exact condition under which the promise holds.

1. **A late Slack post.** A worker checks its lease in `_authorize`, then posts, and nothing ties the
   post to the lease (`backend/connections/slack_delivery.py:418-517`). A worker that stalls for
   longer than its lease can post after a member has already sent the message again; the delivered
   message then belongs to a row that is queued and claimable. `DeliveryVisibility.LatePost` is such
   a run. `DeliveryVisibility.DeliveredStaysVisible` proves that a post stays visible in every
   continuation exactly when `SafeToPost` holds at the moment of posting;
   `DeliveryVisibility.RowTellsSafety` says what the worker could know from the row alone.
2. **A rules merge that moves entries.** When the new-key block and the entries of an existing key
   share their insertion line, the stable reverse sort puts the new keys first, and the existing
   key's entries are read under the last new key
   (`switchyard/scripts/update-switchyard.py:505-532`). `RulesConfigs.MisplacedExample` is the
   smallest case; `RulesConfigs.MergeGivesUnion` proves that the merge yields the union, and a second
   merge changes nothing, exactly when there is no such tie.
3. **An assignment that cannot be saved.** `FollowUp.save` refuses a follow-up whose report has moved
   to another problem (`backend/feedback/models.py:403-418`), so assigning a manual report rolls back
   as long as a pending follow-up is left behind on the earlier problem.
   `FixLifecycle.AssignFailsExactlyWhenLeftBehind` gives the exact condition and
   `FixLifecycle.MovedReportCannotBeAssigned` a reachable state.
4. **Reconciliation at one instant.** A sync that claimed under the previous binding counts for a run
   that starts at the same clock reading (`backend/feedback/tasks.py:106-113` compares with `<`).
   `SyncBoundary.SameInstantCounts` is that run. `SyncPromise.PromiseKeptExactly` proves that a run,
   from the state it starts in and whatever happens until the next one, marks the connection as
   reconciled only after every active target was read under the run's binding, exactly when no target
   without such a read is held by a sync of another binding that started at the run's clock reading
   and is going to complete the generation the run asks for. `SyncPromise.ReadingsOwnExactly` gives
   the exact condition under which every reading since the run started is under its binding.

## Model

The theorems come first. Then come the laws of single steps: when each transaction acts and the whole
state it leaves, stated on the rows themselves. The methods that change a row or a file in place come
last: each is proved equal to the function of the same transaction that theorems and laws are about.

| member | source | states |
|---|---|---|
| Transitions.TableAvoidsFixAvailable | backend/feedback/transitions.py:12-40 | no action of the problem table leaves or reaches fix_available, and a fix that is available cannot be confirmed again |
| Notifications.WorkerKeepsRowOk | backend/connections/slack_delivery.py:105-398 | every worker and sweep transaction keeps the notification table's constraints, the lease rule and the rule that a row a worker marked sent is not invalidated |
| Notifications.MemberKeepsRowOk | backend/feedback/follow_ups.py:361-653 | the same for every member decision and for invalidation |
| Notifications.CancelledBranchesAreDead | backend/connections/slack_delivery.py:235-398 | a cancelled row that keeps the constraints holds no lease, so the cancelled branches of failure, conversation and result never change it |
| Notifications.InvalidateSettles | backend/feedback/notifications.py:20-51 | invalidation leaves nothing pending, leaves sent and cancelled rows alone, and repeating it with any reason changes nothing |
| DeliveryInvariants.PendingAlwaysAnchored | backend/feedback/notifications.py:20-111 | in every reachable state a draft, queued or failed notification points at its report's current problem, the report is linked, and the problem is fix_available at exactly the notification's revision |
| DeliveryInvariants.RowsAlwaysConstrained | backend/feedback/models.py:298-326 | in every reachable state the table's constraints hold, a lease is held only while queued or while uncertain and invalidated, and a follow-up has at most one notification that is not cancelled |
| DeliveryInvariants.SettledForever | backend/connections/slack_delivery.py:235-398 | a sent or cancelled row is the same row after any run: no late worker, sweep or invalidation revives or changes it |
| DeliveryHistory.PostsAnswerApprovals | backend/connections/slack_delivery.py:418-517 | over any interleaving message posts never exceed human approvals, each post answers one approval of its row and carries that approval's text and draft version, and no two posts answer the same one |
| DeliveryVisibility.VisibleExactlyWhenCovered | backend/connections/slack_delivery.py:235-409 | a row stays leased-and-queued, uncertain or sent in every continuation without a member's decision exactly when it is covered now |
| DeliveryVisibility.DeliveredStaysVisible | backend/connections/slack_delivery.py:418-517 | a delivered post stays visible in every continuation exactly when posting is safe at that moment |
| DeliveryVisibility.RowTellsSafety | backend/connections/slack_delivery.py:418-517 | a row that shows safety keeps a delivered post visible in every continuation, and a row without a lease does so only if it shows safety |
| DeliveryVisibility.LatePost | backend/connections/slack_delivery.py:418-572 | a concrete run in which a stalled worker delivers a message and its row ends claimable |
| DeliveryVisibility.WorkerSentNeverInvalidated | backend/feedback/notifications.py:37-51 | a row that a worker marked sent was never invalidated and never will be |
| FixLifecycle.FixEndsOnlyByLaterReopen | backend/feedback/engineering_issues.py:704-741 | a problem leaves fix_available only by a reopening later than its confirmation and than any applied before, and then goes to in progress |
| FixLifecycle.RevisionCountsConfirmations | backend/feedback/problems.py:223-244 | a problem's resolution revision is the number of times its fix was confirmed |
| FixLifecycle.ReopenTimesGrow | backend/feedback/engineering_issues.py:704-709 | over any run an issue's applied reopening time never goes back or disappears, so each one applied is later than the one before |
| FixLifecycle.ReplayedReopenChangesNothing | backend/feedback/engineering_issues.py:575-604 | after any run a repeated or earlier delivery of an applied reopening changes nothing |
| FixLifecycle.ConfirmFixCreatesAfresh | backend/feedback/problems.py:286-322 | no follow-up has the new revision before, so confirming creates one for each linked report, in bijection, and leaves older ones alone |
| FixLifecycle.AssignFailsExactlyWhenLeftBehind | backend/feedback/reports.py:168-258 | assigning a report changes nothing exactly when the assignee is the same or a pending follow-up that would be retargeted belongs to another problem |
| FixLifecycle.MovedReportCannotBeAssigned | backend/feedback/models.py:403-418 | a reachable state in which assigning is refused for that reason |
| Retries.BackoffRange | backend/operations/retries.py:11-17 | without Retry-After every wait is 2 to 1084 seconds, and after attempt n at least 2 to the n until the doubling stops at the tenth |
| Retries.BackoffTight | backend/operations/retries.py:11-17 | both ends of that range are reached |
| Retries.RetryAfterRespected | backend/operations/retries.py:11-17 | a Retry-After is waited out and exceeded by at most a minute; a negative one counts as zero |
| IssueMarkers.MarkerNamesItsOperation | backend/operations/github_issue_create.py:37-44 | for every accepted body the marker of one operation occurs in the posted body of another exactly when they are the same operation |
| IssueMarkers.SearchListing | backend/operations/tasks.py:583-602 | the paging loop returns exactly the matching rows of all pages up to the first without a next one, or an error past 1000 pages |
| IssueMarkers.CarriesExactly | backend/operations/tasks.py:591-596 | a row matches exactly when it is no pull request and its body has the operation's marker somewhere |
| IssueMarkers.CarryingExact | backend/operations/tasks.py:591-596 | the matching rows are exactly the issues, not pull requests, whose body contains the marker |
| IssueCreations.AtMostOnePost | backend/operations/tasks.py:74-263 | an operation has at most one post that was not refused for rate limiting, at most one that made an issue, and at most twelve in all |
| IssueCreations.RequeuedOnlyWhenRefused | backend/operations/tasks.py:54-70 | running returns to queued only when the lease holder settles a rate-limited attempt, with every post so far refused |
| IssueCreations.FinalStays | backend/operations/tasks.py:40-51 | succeeded, failed and cancelled are final; a late worker may only still record the ids of the issue it made |
| IssueCreations.FinalForever | backend/operations/tasks.py:40-51 | over any run a final operation keeps its state and its link |
| IssueCreations.UncertainNeverResent | backend/operations/tasks.py:400-411 | from uncertain an operation can only be linked by the recovery that holds its lease with one match, or given up by a member |
| CreationWorlds.ReachableCells | backend/operations/tasks.py:74-411 | in every reachable world each operation keeps its invariant and the bounds on its posts |
| IssueLinks.RefusedExactly | backend/feedback/engineering_issues.py:223-320 | recording an issue is refused exactly when its repository differs, another active issue was not to be replaced, or the issue has a row under another problem |
| IssueLinks.RecordKeepsLinks | backend/feedback/engineering_issues.py:243-320 | recording keeps one row per GitHub issue and one active row per problem, and no row changes its problem |
| IssueLinks.RecordedIsActive | backend/feedback/engineering_issues.py:243-320 | afterwards the problem's active issue is the recorded one and other problems keep theirs |
| CreationExclusion.CreationExcludesLinking | backend/operations/github_issue_create.py:176-214 | in every reachable world no problem has both an unresolved creation and an active issue, none has two of either, and every GitHub issue has one row |
| CreationExclusion.RowNeverMoves | backend/feedback/engineering_issues.py:270-320 | over any run a linked issue's row stays and keeps its problem |
| CreationExclusion.UnresolvedHasNoRows | backend/operations/tasks.py:265-332 | while a creation is unresolved its problem has no issue row, so what it links is always a new row |
| CreationRecovery.LinksTheLostIssue | backend/operations/tasks.py:606-726 | whatever an operation links, directly or by recovery, is the one issue its post made, unless somebody copied its marker |
| CreationRecovery.SearchFindsOnlyTheLost | backend/operations/tasks.py:554-602 | while nobody copied the marker, the issues that carry it are exactly those whose text the operation's post wrote, and there is at most one |
| CreationRecovery.ListingFindsTheLost | backend/operations/tasks.py:583-602 | while nobody copied the marker and the lost issue keeps its text, the whole listing has exactly one row that carries the marker, the issue the operation's post made |
| CreationRecovery.RecoveryLinksExactly | backend/operations/tasks.py:664-726 | the holder of an uncertain operation's lease with one match links it if and only if the binding is still the operation's and the issue has no row yet |
| CreationRecovery.LostIssueRecovered | backend/operations/tasks.py:606-726 | from listing to link: reading the listing and concluding links the issue the post made, if and only if the binding is still the operation's and nobody linked the issue meanwhile |
| SyncInvariants.ReachableInv | backend/feedback/engineering_issues.py:358-665 | the invariant that ties rows, leases, fetches, readings and runs holds in every reachable state |
| SyncTheorems.GenerationsGrow | backend/feedback/engineering_issues.py:376-665 | over any run requested and completed generations only grow |
| SyncTheorems.CompletedAfterRequest | backend/feedback/engineering_issues.py:505-548 | completed never exceeds requested, and every completed generation was settled without a fetch or completed by a fetch claimed no earlier than its request |
| SyncTheorems.FetchLeavesLaterRequests | backend/feedback/engineering_issues.py:505-548 | a fetch completes exactly the generations requested no later than its claim, and the row stays pending exactly when there are later ones |
| SyncTheorems.EventDuringFetchStaysPending | backend/feedback/engineering_issues.py:376-443 | an event during another sync's lease claims nothing and is still pending when that sync finishes |
| SyncTheorems.SupersededForever | backend/feedback/engineering_issues.py:505-548 | a fetch that lost its lease writes nothing, however long it goes on |
| SyncTheorems.ReconciledMeansRead | backend/feedback/tasks.py:93-120 | last_reconciled_at moves only when every target that is still active has been read since the run started, under its binding |
| SyncTheorems.RunTargetsActive | backend/feedback/tasks.py:39-72 | a run targets exactly the active issues, with their pending generations |
| SyncPromise.PromiseKeptExactly | backend/feedback/tasks.py:39-120 | from the state a run starts in and in every continuation until the next run, the connection is reconciled only after every active target was read under the run's binding, if and only if no target without such a read is held by a sync of another binding that started at or after the run's clock reading and is going to complete the generation asked for |
| SyncPromise.ReadingsOwnExactly | backend/feedback/tasks.py:106-113 | in every continuation until the next run or binding, every reading since the run started is under its binding, if and only if no reading so far and no sync that holds its row's lease started at or after the run under another |
| SyncPromise.ReconcilesExactly | backend/feedback/tasks.py:115-120 | between the starts of runs last_reconciled_at is set exactly by completing a target that leaves no active target undone |
| SyncBoundary.SameInstantCounts | backend/feedback/tasks.py:106-113 | a concrete run at one clock reading that counts a sync under the earlier binding |
| SyncBoundary.LaterReadsMatch | backend/feedback/tasks.py:106-113 | a reading that started at a later clock reading than the run is always under the run's binding, so only equal readings can break the promise |
| MatchContract.CheckSuggestions | backend/matching/contract.py:198-223 | the check accepts a response exactly when its suggestions are distinct candidates, its features are known, its evidence stays inside the candidate and its order is by falling score, then id |
| MatchContract.AcceptableIsStrict | backend/matching/contract.py:221-223 | accepted suggestions are strictly ordered, so ranks have no ties |
| MatchContract.RankingUnique | backend/matching/contract.py:221-223 | the same scored candidates allow only one accepted order |
| MatchContract.OrderedExactly | backend/matching/contract.py:221-223 | comparing with the sorted keys is the same as being ordered |
| MatchRetrieval.Build | backend/matching/retrieval.py:70-128 | the loops build the candidates and the snapshot of the same reading, or nothing when a problem is gone or no longer eligible |
| MatchRetrieval.SameSnapshotSameRequest | backend/matching/retrieval.py:98-128 | equal snapshots give equal candidates, texts included, whenever the readings were made |
| MatchTheorems.SavedRequestIsCurrent | backend/matching/runs.py:123-218 | when a run is saved, the request that was sent equals the request rebuilt from the records at that moment |
| MatchTheorems.EveryRunIsSound | backend/matching/models.py:55-73 | in every reachable state a report has one active run, a run at most three claims, its failure and abstention match its state, and its suggestions are distinct recorded candidates in strict order |
| MatchTheorems.LostForever | backend/matching/runs.py:221-226 | a worker without its run's lease never gets it back |
| MatchTheorems.LostWritesNothing | backend/matching/runs.py:164-274 | a worker without its run's lease changes no run |
| MatchTheorems.SupersededLoses | backend/matching/runs.py:41-68 | a new request takes the lease of every worker on the report's earlier runs |
| RulesBlocks.ReadAllSound | switchyard/scripts/update-switchyard.py:398-425 | a reading dates each key by its last line, keeps entries trimmed and under valid keys, and keeps one key's entries together |
| RulesConfigs.RenderReads | switchyard/scripts/update-switchyard.py:462-470 | rendered rules read back as the pairs they were rendered from |
| RulesSplices.SortedApplyIsWeave | switchyard/scripts/update-switchyard.py:530-532 | splicing from the last position puts each piece before its line, pieces for one line in reverse order |
| RulesSplices.SortExactly | switchyard/scripts/update-switchyard.py:531-531 | the sort is by falling position and keeps the pieces for one line in their order |
| RulesInstalls.MergeOnlyInserts | switchyard/scripts/update-switchyard.py:491-533 | the merged file is the project's lines with the missing entries after each key's last line and the new keys at the insertion line |
| RulesUnions.MergeStaysInside | switchyard/scripts/update-switchyard.py:491-533 | every line outside the rules block, and the blank lines that end it, are left alone |
| RulesConfigs.LinesSurvive | switchyard/scripts/update-switchyard.py:473-533 | every line of the project's file survives in order |
| RulesConfigs.MergeGivesUnion | switchyard/scripts/update-switchyard.py:473-533 | the written file is readable; it says the union of both files, and a second merge writes nothing, exactly when no entries are misplaced |
| RulesConfigs.NothingToMerge | switchyard/scripts/update-switchyard.py:486-490 | nothing is written exactly when the project has every release rule |
| RulesConfigs.MisplacedExample | switchyard/scripts/update-switchyard.py:505-532 | the smallest texts on which the merge is written but does not say what the two files said together |
| EvalWilson.IntervalInvertsScoreTest | scripts/eval_matcher.py:146-159 | a rate lies in the interval exactly when the score test at that rate accepts the observed one |
| EvalWilson.ClampsChangeNothing | scripts/eval_matcher.py:146-159 | the interval contains the observed rate and lies in [0, 1] before it is clamped |
| EvalFrontier.Frontier | scripts/eval_matcher.py:389-398 | the loop returns the frontier: precision strictly falls, coverage strictly rises, every grid point is covered by a kept one, and none dominates a kept one |
| EvalFrontier.FrontierUnique | scripts/eval_matcher.py:389-398 | any two frontiers of the same points show the same scores |
| DeliveryLaws.FreshExactly | backend/feedback/notifications.py:72-111 | in every orderly desk a row is fresh exactly when its report has the version it was prepared at, is linked to the row's problem, that problem is fix_available at the row's revision, and the recipient is active |
| DeliveryLaws.StaleExactly | backend/feedback/notifications.py:54-69 | a row is not stale exactly when it is unmarked, a draft or queued, and fresh |
| DeliveryLaws.DraftExactly | backend/feedback/follow_ups.py:327-358 | a draft is prepared exactly for a follow-up of a linked report whose fix is available at its revision and that has no other live row, with the report's version and the follow-up's recipient |
| DeliveryLaws.EditExactly | backend/feedback/follow_ups.py:361-389 | an edit changes the text and the draft version of exactly a draft or failed row at the version seen, and nothing else |
| DeliveryLaws.ApprovalExactly | backend/feedback/follow_ups.py:392-471 | an approval queues exactly a draft or failed row at the version seen, not invalidated, whose report still has the row's version and is linked to the row's problem with the fix available at the row's revision; otherwise nothing changes |
| DeliveryLaws.ResendExactly | backend/feedback/follow_ups.py:526-601 | sending again queues exactly an uncertain row without a lease, at the version seen, not invalidated, as up to date as an approval needs and still meant for the follow-up's recipient |
| DeliveryLaws.SettlementExactly | backend/feedback/follow_ups.py:474-653 | marking delivered and cancelling act on exactly an uncertain row without a lease at the version seen, and say so with their own marks |
| DeliveryLaws.ClaimExactly | backend/connections/slack_delivery.py:105-142 | a worker takes exactly a queued, due, unleased row, for 60 seconds and with one more attempt; one whose lease ran out becomes uncertain; nothing else changes |
| DeliveryLaws.ClaimableExactly | backend/connections/slack_delivery.py:520-534 | what the sweep lists as claimable is exactly what a claim takes |
| DeliveryLaws.ExpireExactly | backend/connections/slack_delivery.py:545-572 | the sweep makes exactly the rows whose lease ran out uncertain |
| DeliveryLaws.AuthorizeExactly | backend/connections/slack_delivery.py:177-232 | a worker reaches opening or posting exactly while its row is queued under its lease, not invalidated, up to date and meant for the follow-up's active recipient, and Slack is ready; it then holds the row's own version and text; an outdated row is cancelled as stale |
| DeliveryLaws.OpenExactly | backend/connections/slack_delivery.py:436-463 | only a conversation id goes on to be saved; any other answer is a certain failure |
| DeliveryLaws.SaveExactly | backend/connections/slack_delivery.py:291-329 | the conversation is kept and the send goes on exactly while the row is queued under the lease; an invalidated row under it is cancelled |
| DeliveryLaws.PostExactly | backend/connections/slack_delivery.py:480-490 | posting records exactly the version and text of the second authorization and changes no row |
| DeliveryLaws.ReplyExactly | backend/connections/slack_delivery.py:401-510 | only a message id counts as sent, and only a refusal as certainly not sent |
| DeliveryLaws.FailureExactly | backend/connections/slack_delivery.py:235-288 | a failure settles the row only under the lease: uncertain, or failed, or cancelled when it was invalidated meanwhile |
| DeliveryLaws.ResultExactly | backend/connections/slack_delivery.py:332-398 | a result is stored only under the lease: sent and dated, or uncertain when invalidated meanwhile, with both ids |
| DeliveryLaws.FencedWritesExactly | backend/connections/slack_delivery.py:235-398 | the three fenced writes on any row at all, also in states that no reachable row has under a lease |
| TriageLaws.ReportTableExactly | backend/feedback/transitions.py:5-10 | the report table, action by action and state by state |
| TriageLaws.ProblemTableExactly | backend/feedback/transitions.py:12-40 | the problem table and the states from which a fix can be confirmed |
| TriageLaws.InvalidationExactly | backend/feedback/notifications.py:20-51 | a row is cancelled when nobody holds it, made uncertain when a worker does, marked when it is uncertain, and left alone when it is marked already or sent |
| TriageLaws.LinkExactly | backend/feedback/reports.py:304-340 | a report is linked or moved unless it is dismissed or there already, and exactly a move invalidates its rows as moved |
| TriageLaws.UnlinkExactly | backend/feedback/reports.py:379-423 | exactly a linked report is unlinked, with a new version, and its rows are invalidated as unlinked |
| TriageLaws.DismissExactly | backend/feedback/reports.py:379-423 | exactly a new report is dismissed and a dismissed one restored, and no row is touched |
| TriageLaws.EditReportExactly | backend/feedback/reports.py:129-166 | an edit counts a new version and touches no row |
| TriageLaws.RecipientExactly | backend/feedback/follow_ups.py:72-76 | contact lands with the assignee of a manual report that has one, and with the submitter of any other |
| TriageLaws.AssignExactly | backend/feedback/reports.py:168-258 | a new assignee takes over exactly the pending follow-ups of a manual report, at its new version, and its rows are invalidated; or nothing at all changes because one of them was left behind |
| TriageLaws.ActOnProblemExactly | backend/feedback/problems.py:169-202 | a problem action changes the state as the table says and the version, or nothing |
| TriageLaws.ConfirmFixExactly | backend/feedback/problems.py:205-322 | a fix is confirmed exactly from open or in progress: state, date, revision and review flag, and a follow-up at the new revision for exactly the linked reports |
| TriageLaws.ConfirmReportFixExactly | backend/feedback/problems.py:257-301 | one linked report gets its follow-up exactly at the revision the member saw |
| TriageLaws.IssueEventExactly | backend/feedback/engineering_issues.py:676-741 | closing asks for a review; a reopening counts exactly when later than the last one applied and than the fix, takes the fix back, and invalidates every row of the problem's reports |
| TriageLaws.UnlinkingExactly | backend/feedback/engineering_issues.py:256-261 | replacing an issue invalidates the rows of the problem's reports as relinked |
| TriageLaws.ChangeRecipientExactly | backend/feedback/follow_ups.py:827-879 | a follow-up goes to another member exactly when its report has not moved, and its report's rows are invalidated exactly when it has a live one |
| TriageLaws.OutcomeExactly | backend/feedback/follow_ups.py:656-741 | an outcome is recorded exactly from pending or contacted to a later state, touches no notification, and asks for a review when the customer is still affected |
| Retries.DelayWaits | backend/operations/retries.py:11-17 | whatever jitter is drawn, a wait without Retry-After is 2 to 1084 seconds and at least 2 to the attempt, and one with it is at least what was asked and at most a minute more |
| Retries.WaitExactly | backend/operations/retries.py:11-17 | the wait to the second: the base, and a jitter of up to a quarter of it, at least one second and at most sixty |
| CreationLaws.PostedTextExactly | backend/operations/github_issue_create.py:37-44 | the text posted for an accepted body is that body without trailing space, a blank line and the operation's marker, or the marker alone |
| CreationLaws.RedraftExactly | backend/operations/github_issue_create.py:95-120 | exactly an unexpired draft takes a new accepted body, version and binding, for another 15 minutes |
| CreationLaws.ApproveExactly | backend/operations/github_issue_create.py:180-214 | an approval queues an unexpired draft, due now, and cancels an expired one |
| CreationLaws.RequestRecoveryExactly | backend/operations/github_issue_create.py:243-306 | recovery is requested once, of an uncertain operation nobody searches for, and never made due earlier; giving up cancels exactly an uncertain operation |
| CreationLaws.ClaimExactly | backend/operations/tasks.py:105-130 | a worker takes exactly a queued, due operation, for 190 seconds, with one more attempt and the text as it is |
| CreationLaws.ExpireExactly | backend/operations/tasks.py:400-411 | exactly a running operation whose lease ran out becomes uncertain |
| CreationLaws.VerifyExactly | backend/operations/tasks.py:133-192 | a worker may post exactly while the operation runs under its lease and the approval is not stale; a stale one is cancelled |
| CreationLaws.PostExactly | backend/operations/tasks.py:194-215 | a failure before the POST is never ambiguous, and the POST carries the attempt and text that were claimed |
| CreationLaws.ReplyExactly | backend/operations/tasks.py:209-263 | only a readable answer gives an issue, and exactly a rate limit marks the POST as refused |
| CreationLaws.StoreExactly | backend/operations/tasks.py:216-221 | the ids of a created issue are stored whatever has become of the lease |
| CreationLaws.FinishExactly | backend/operations/tasks.py:265-342 | under the lease a created issue is linked, or kept aside after a change of binding; a failure to link leaves the outcome unknown |
| CreationLaws.SettleExactly | backend/operations/tasks.py:40-70 | under the lease a rate limit before the twelfth attempt queues the operation again after a wait of the stated length; a refused installation cancels it, an unknown outcome leaves it uncertain, any other failure fails it |
| CreationLaws.RequeueWaits | backend/operations/tasks.py:54-70 | running returns to queued only with a due date that lies the stated wait ahead |
| CreationLaws.ClaimSearchExactly | backend/operations/tasks.py:625-636 | a recovery takes exactly an uncertain, due operation whose lease is free or has run out |
| CreationLaws.GiveUpExactly | backend/operations/tasks.py:729-746 | a recovery that holds its lease clears the request and makes the next search due after a wait of the stated length |
| CreationLaws.ConcludeExactly | backend/operations/tasks.py:664-726 | a recovery with one match links it or keeps it aside under its lease, and a failure to link undoes everything |
| CreationLaws.QueuedUntilDue | backend/operations/tasks.py:85-130 | over any run without a claim that reads the clock at its due date, a queued operation stays as it is and posts nothing |
| CreationLaws.UncertainUntilDue | backend/operations/tasks.py:606-636 | over any run without a search that reads the clock at the due date, an uncertain operation nobody holds is not searched for and not due earlier |
| CreationWorldLaws.NewDraftExactly | backend/operations/github_issue_create.py:47-136 | a preview is made exactly for an accepted body, an active connection and a problem without an active issue or unresolved creation, and freezes version and binding |
| CreationWorldLaws.EditDraftExactly | backend/operations/github_issue_create.py:69-120 | a preview is made anew exactly under the same conditions while it is an unexpired draft |
| CreationWorldLaws.ApprovalExactly | backend/operations/github_issue_create.py:160-224 | an approval queues exactly an unexpired draft at the version seen whose problem, connection and binding have not changed and whose problem is clear |
| CreationWorldLaws.VerifyExactly | backend/operations/tasks.py:133-192 | a worker may post exactly while requester, problem version, connection and binding are as approved and the problem has no active issue |
| CreationWorldLaws.PostExactly | backend/operations/tasks.py:207-215 | a POST makes at most one issue, with the claimed text and the operation's marker |
| CreationWorldLaws.ReadMatchesExactly | backend/operations/tasks.py:573-602 | a search reads exactly issues that carry the marker |
| CreationWorldLaws.LinkIssueExactly | backend/feedback/engineering_issues.py:123-158 | a member links an issue exactly on an active connection for a problem without an unresolved creation, and cancels its drafts |
| CreationWorldLaws.LinkCreatedExactly | backend/operations/tasks.py:265-332 | a created issue is linked exactly under the lease and the operation's binding, unless the recording is refused |
| CreationWorldLaws.LinkRecoveredExactly | backend/operations/tasks.py:664-726 | a recovered issue is linked exactly under the lease and the operation's binding for a problem without an active issue, unless the recording is refused; a conflict keeps it aside |
| IssueLinks.RecordedExactly | backend/feedback/engineering_issues.py:243-320 | recording changes nothing exactly for the active issue itself; else it activates the issue's row or a new one in this repository, deactivates the former one, and changes no other row |
| SyncLaws.LinkExactly | backend/feedback/engineering_issues.py:280-320 | a link is active, accessible and dated, and keeps the generations and lease of a row it revives |
| SyncLaws.BeginExactly | backend/feedback/engineering_issues.py:376-443 | an event always counts; a sync waits for a retry date or another lease, settles when nothing can be read, and else claims for 190 seconds the generation requested so far |
| SyncLaws.FailExactly | backend/feedback/engineering_issues.py:626-665 | a failed sync writes only under its lease: inaccessible exactly for the codes that say so, a retry date the stated wait after its start or none, no generation, date or attempt changed |
| SyncLaws.FinishExactly | backend/feedback/engineering_issues.py:505-548 | a finished sync writes only under its lease: settled after a change of binding, accessible and dated when seen, deleted or inaccessible with its old date when gone |
| SyncLaws.NoSyncBeforeRetry | backend/feedback/engineering_issues.py:376-384 | over any run without a sync that reads the clock at the retry date, the row is neither claimed nor settled and its requests stay pending |
| SyncLaws.StartExactly | backend/feedback/tasks.py:39-72 | a run takes the clock and the binding of the moment, asks for exactly the active issues that are not pending, and targets every active issue at its requested generation |
| SyncLaws.CompleteExactly | backend/feedback/tasks.py:93-120 | a target is marked exactly when its issue is accessible, was read since the run started under the run's binding revision, and has completed the run's generation |
| MatchLaws.AcceptableExactly | backend/matching/contract.py:198-223 | an acceptable response in the contract's words: distinct candidates, known features, evidence of the candidate or its reports, falling score and then rising id |
| MatchLaws.OffersExactly | backend/matching/contract.py:201-212 | the candidates that a response is checked against are the request's, with exactly the reports it shows |
| MatchRetrieval.LinkedIsNewest | backend/matching/retrieval.py:87-99 | a problem's linked reports are its most recently created ones, most recent first, and one is left out only for the cap and only if older than all that are in |
| MatchRetrieval.NewestIsLinked | backend/matching/retrieval.py:87-99 | that promise leaves only one result |
| MatchRetrieval.LoadExactly | backend/matching/retrieval.py:70-128 | candidates are loaded exactly when every id is a distinct eligible problem, in the given order, each as it is and with its newest linked reports |
| MatchRetrieval.SplitExactly | backend/matching/retrieval.py:100-128 | the request takes the texts and the snapshot the versions of the same candidates and reports, in the same order |
| MatchLaws.RequestExactly | backend/matching/runs.py:41-68 | a report that awaits triage gets a run for its version, due at once, and exactly its active runs become stale |
| MatchLaws.ClaimExactly | backend/matching/runs.py:99-109 | a worker takes exactly a pending, due run, for 120 seconds, with one more attempt and its recorded snapshot |
| MatchLaws.FailedExactly | backend/matching/runs.py:259-274 | exactly a failed retrieval, a failed process or a timeout before the third claim is tried again, after a wait of 2 to 1084 seconds; any other failure is final |
| MatchLaws.RecoverExactly | backend/matching/runs.py:84-91 | exactly a running run whose lease ended before the clock reading is failed, as a failed process |
| MatchLaws.ReadReportExactly | backend/matching/runs.py:112-127 | a run goes on exactly while the report has the run's version and awaits triage, and its configuration is known |
| MatchLaws.PickExactly | backend/matching/runs.py:129-137 | a retry ranks the recorded candidates, a first attempt those that are found |
| MatchLaws.LoadingExactly | backend/matching/runs.py:138-144 | a run goes on exactly when every candidate loads and, on a retry, the versions are the recorded ones |
| MatchLaws.RecordExactly | backend/matching/runs.py:164-170 | the snapshot is recorded exactly under the lease |
| MatchLaws.AskExactly | backend/matching/runs.py:148-161 | the matcher is asked only about a report still as queued, with what was loaded, and an answer is saved exactly when it is acceptable or abstains for a reason that fits the pool |
| MatchLaws.SaveExactly | backend/matching/runs.py:173-218 | a run is saved exactly under its lease while the report and all recorded versions are current |
| MatchLaws.GiveUpExactly | backend/matching/runs.py:235-274 | a stale run is marked and its report queued again, a failed one settled, exactly under the lease |
| MatchLaws.SavedRequestShowsNow | backend/matching/runs.py:123-218 | when a run is saved, the request that was sent shows the report, every candidate and its newest linked reports as they are at that moment, versions and texts |
| RulesAcceptance.SpaceExactly | switchyard/scripts/update-switchyard.py:386-386 | the characters that stripping removes |
| RulesAcceptance.CommentExactly | switchyard/scripts/update-switchyard.py:384-384 | a comment is a line with only space before its hash sign |
| RulesAcceptance.ChildKeyExactly | switchyard/scripts/update-switchyard.py:411-411 | a rule key line is two spaces, a key and a colon, and gives exactly that key and the rest |
| RulesAcceptance.EntryTextExactly | switchyard/scripts/update-switchyard.py:421-424 | an entry line is four spaces, a hyphen and a space, and gives the rest without trailing space |
| RulesAcceptance.AcceptedExactly | switchyard/scripts/update-switchyard.py:398-425 | a block is accepted exactly when every key line is blank behind its key, no key comes twice, and every other line that is not skipped is an entry below some key line; then it says each entry under the key above it and dates each key by its last line |
| RulesAcceptance.ReadExactly | switchyard/scripts/update-switchyard.py:398-425 | the first line at fault, if there is one, gives the refusal |
| RulesAcceptance.PlaceExactly | switchyard/scripts/update-switchyard.py:380-441 | the rules block is the lines under the only top-level rules line, up to the next top-level line |
| RulesAcceptance.TextExactly | switchyard/scripts/update-switchyard.py:428-441 | a text is refused exactly when it is not well-formed, and has no block exactly when it is well-formed without a rules line |
| RulesAcceptance.RefusedExactly | switchyard/scripts/update-switchyard.py:473-533 | the merge refuses exactly when the release or the project's text is not well-formed or the release has no rules line |
| RulesOrders.MissingExactly | switchyard/scripts/update-switchyard.py:499-500 | what is missing are the release's pairs that the project does not own, in the release's order |
| RulesOrders.KeysExactly | switchyard/scripts/update-switchyard.py:510-510 | the keys of the missing pairs, each once, in the order of their first pairs |
| RulesOrders.NewBlockExactly | switchyard/scripts/update-switchyard.py:515-522 | the new-key block is a key line and the missing entries for each key the file lacks, in order |
| RulesOrders.EntryLinesExactly | switchyard/scripts/update-switchyard.py:518-522 | one entry line for each entry, in order |
| RulesOrders.SlotExactly | switchyard/scripts/update-switchyard.py:514-532 | what is written before a line: at the insertion line the new keys, then the missing entries of the key whose last line is the one before |
| RulesOrders.RenderExactly | switchyard/scripts/update-switchyard.py:462-470 | rendered rules are an entry line for each pair and a key line at each change of key, and nothing else |
| RulesOrders.FreshExactly | switchyard/scripts/update-switchyard.py:478-495 | the exact text written for a project without the file or without rules |
| RulesOrders.MergeInOrder | switchyard/scripts/update-switchyard.py:473-533 | in a merged file every key has the project's entries in order and then the missing ones in the release's order, unless the merge misplaces some |
| EvalWilson.RootExactly | scripts/eval_matcher.py:152-153 | the root in the margin is the non-negative number whose square is rate times (1 - rate) over total plus z squared over four times the total squared |
| EvalWilson.RateExactly | scripts/eval_matcher.py:146-159 | no rate exists exactly when nothing was counted; else it is hits over total |
| EvalFrontier.DominatesExactly | scripts/eval_matcher.py:385-398 | an absent rate counts as zero, and one point dominates another when it is at least as good on both rates and better on one |
| NotificationRows.NotificationRow.Claim | backend/connections/slack_delivery.py:105-142 | the claim in place: a due queued row without a lease gets one and counts an attempt, a queued row whose lease ran out becomes uncertain, any other row is left alone |
| NotificationRows.NotificationRow.CancelStale | backend/connections/slack_delivery.py:213-232 | a stale approval is cancelled as stale and its lease released |
| NotificationRows.NotificationRow.MarkFailure | backend/connections/slack_delivery.py:235-288 | the fenced failure write: only the lease holder writes, and the row ends failed, uncertain or cancelled by certainty and invalidation |
| NotificationRows.NotificationRow.SaveConversation | backend/connections/slack_delivery.py:291-329 | only the lease holder stores the conversation and goes on; a row invalidated meanwhile is cancelled instead |
| NotificationRows.NotificationRow.PostResult | backend/connections/slack_delivery.py:332-398 | the fenced result write: sent with its message id, or uncertain when invalidated meanwhile, and nothing without the lease |
| NotificationRows.NotificationRow.Expire | backend/connections/slack_delivery.py:545-572 | an expired lease makes the row uncertain and never queues it again |
| NotificationRows.NotificationRow.Edit | backend/feedback/follow_ups.py:361-389 | a draft or failed row at the version the member saw gets the new text and the next draft version, and changes in nothing else; any other row is refused |
| NotificationRows.NotificationRow.Approve | backend/feedback/follow_ups.py:392-471 | exactly a draft or failed row at the version the member saw, not invalidated and fresh on the desk, is queued with its text and version as they stand |
| NotificationRows.NotificationRow.MarkDelivered | backend/feedback/follow_ups.py:474-523 | exactly an uncertain row without a lease, at the version the member saw, becomes sent on the member's word, keeping its message id and invalidation |
| NotificationRows.NotificationRow.SendAgain | backend/feedback/follow_ups.py:526-601 | exactly an uncertain row without a lease, not invalidated, fresh on the desk and still meant for the follow-up's recipient, is queued again with the same text, version and attempts |
| NotificationRows.NotificationRow.Cancel | backend/feedback/follow_ups.py:604-653 | exactly an uncertain row without a lease, at the version the member saw, is cancelled and marked as the member's doing |
| NotificationRows.InvalidatePending | backend/feedback/notifications.py:20-51 | the three bulk updates change every row of the report as the row function says, and the result counts the changed rows |
| NotificationRows.Sweep | backend/connections/slack_delivery.py:520-572 | the loops expire exactly the leases that ran out and list exactly the claimable rows that have a due time |
| DeskStores.DeskStore.LinkReport | backend/feedback/reports.py:304-340 | linking or moving a report: the new desk and the notifications to invalidate |
| DeskStores.DeskStore.ChangeTriage | backend/feedback/reports.py:379-423 | unlink, dismiss and restore in place |
| DeskStores.DeskStore.ChangeProblemState | backend/feedback/problems.py:169-202 | a problem action in place, refused outside the table |
| DeskStores.DeskStore.CreateFollowUps | backend/feedback/problems.py:304-322 | the loop creates a follow-up for each linked report that lacks one at this revision and touches no other |
| DeskStores.DeskStore.ConfirmFix | backend/feedback/problems.py:205-254 | confirming a fix: state, revision, date and follow-ups together |
| DeskStores.DeskStore.RetargetPending | backend/feedback/reports.py:220-258 | the loop retargets exactly the report's pending follow-ups with another recipient, or none of them when one cannot be saved |
| DeskStores.DeskStore.AssignReport | backend/feedback/reports.py:168-217 | an assignment with its retargeting, all or nothing |
| DeskStores.DeskStore.ApplyConsequences | backend/feedback/engineering_issues.py:676-741 | what closing or reopening an issue does to its problem |
| ExternalOperations.ExternalOperation.Redraft | backend/operations/github_issue_create.py:95-120 | a preview is rewritten only while it is an unexpired draft |
| ExternalOperations.ExternalOperation.Approve | backend/operations/github_issue_create.py:188-214 | an approval queues the draft, or cancels it when it has expired |
| ExternalOperations.ExternalOperation.RequestRecovery | backend/operations/github_issue_create.py:243-277 | recovery is requested only for an uncertain operation without a lease, and never earlier than it is due |
| ExternalOperations.ExternalOperation.Abandon | backend/operations/github_issue_create.py:280-306 | an uncertain operation is cancelled and its lease taken away |
| ExternalOperations.ExternalOperation.Claim | backend/operations/tasks.py:85-130 | a due queued operation becomes running with one more attempt and a fresh lease |
| ExternalOperations.ExternalOperation.Verify | backend/operations/tasks.py:133-192 | the lease holder goes on, a stale approval is cancelled, anyone else stops |
| ExternalOperations.ExternalOperation.Mark | backend/operations/tasks.py:40-51 | the fenced settlement changes only a running row under the same lease |
| ExternalOperations.ExternalOperation.RequeueRateLimited | backend/operations/tasks.py:54-70 | a rate-limited attempt is queued for later, or fails at the twelfth |
| ExternalOperations.ExternalOperation.LinkCreated | backend/operations/tasks.py:265-332 | the created issue is linked, kept aside when the binding changed, or ignored without the lease |
| ExternalOperations.ExternalOperation.ClaimSearch | backend/operations/tasks.py:606-636 | a recovery claims an uncertain, due operation whose lease is free or expired |
| ExternalOperations.ExternalOperation.FinishRecovery | backend/operations/tasks.py:729-746 | a recovery without a single match clears the request and waits |
| ExternalOperations.ExternalOperation.LinkRecovered | backend/operations/tasks.py:664-726 | the recovered issue is linked, or kept aside on a conflict, only by the lease holder |
| ExternalOperations.ExpireLeases | backend/operations/tasks.py:400-411 | every due running lease becomes uncertain, and no other row changes |
| IssueLinks.IssueTable.RecordCreatedIssue | backend/feedback/engineering_issues.py:223-338 | the same in place, with the deactivation undone when the recording is refused |
| EngineeringIssues.EngineeringIssue.Refresh | backend/feedback/engineering_issues.py:174-216 | a refresh requests a generation only when none is pending or running |
| EngineeringIssues.EngineeringIssue.SettleUnsynced | backend/feedback/engineering_issues.py:607-623 | every pending generation completes without a fetch and the lease is released |
| EngineeringIssues.EngineeringIssue.Begin | backend/feedback/engineering_issues.py:376-443 | an event counts even when nothing is claimed; a claim takes the generation requested so far |
| EngineeringIssues.EngineeringIssue.FinishFailure | backend/feedback/engineering_issues.py:626-665 | the fenced failure completes nothing, takes the access away for the codes that say so, and schedules the retry from the sync's start |
| EngineeringIssues.EngineeringIssue.Finish | backend/feedback/engineering_issues.py:505-574 | the fenced success completes the claimed generation only |
| EngineeringIssues.Reconciliation.Start | backend/feedback/tasks.py:39-72 | a run's targets are the active issues, each pending afterwards, and without targets the connection is reconciled at once |
| EngineeringIssues.Reconciliation.CompleteTarget | backend/feedback/tasks.py:93-120 | a target is marked under the stated guards and the connection is reconciled when no active target is left |
| MatchRunRows.MatchRunRow.Claim | backend/matching/runs.py:99-109 | a due pending run becomes running with one more attempt |
| MatchRunRows.MatchRunRow.RecordSnapshot | backend/matching/runs.py:164-170 | the snapshot is recorded only by the lease holder |
| MatchRunRows.MatchRunRow.Save | backend/matching/runs.py:198-218 | the loop saves suggestion k with rank k + 1, or the abstention with its reason |
| MatchRunRows.MatchRunRow.MarkStale | backend/matching/runs.py:235-256 | only the lease holder marks its run stale |
| MatchRunRows.MatchRunRow.Fail | backend/matching/runs.py:259-274 | a transient failure is retried until the third claim, any other is final |
| MatchRunRows.SupersedeAll | backend/matching/runs.py:49-56 | the bulk update leaves no active run of the report and changes no other |
| MatchRunRows.RecoverRuns | backend/matching/runs.py:84-91 | exactly the abandoned leases are failed |
| RulesScripts.ReadRulesEntries | switchyard/scripts/update-switchyard.py:398-425 | the line loop reads what the line-by-line reading says, with the same refusals |
| RulesScripts.YamlTopKeyIndexes | switchyard/scripts/update-switchyard.py:380-395 | the top-level key lines in order, or the refusal of a text that is no mapping |
| RulesScripts.RulesOf | switchyard/scripts/update-switchyard.py:428-441 | the one rules block with its records and bounds, or the refusal that applies |
| RulesScripts.Render | switchyard/scripts/update-switchyard.py:462-470 | the rendering loop writes a key line at each change of key |
| RulesScripts.InstallMerge | switchyard/scripts/update-switchyard.py:473-533 | the whole merge with its loops, sort and splices computes the written text |

## Assumptions

- Slack is taken at its word: it accepts only a message it delivered, and an error that
  `_uncertain_post` calls certain means nothing was delivered.
- GitHub is taken at its word on rate limiting only: such a refusal means nothing was made.
- A lease token and a UUID are fresh when they are drawn.
- `link_issue` checks that the binding did not change during its read, so a link counts as a reading
  under the binding it is saved under; a created or recovered issue, whose stamp is taken when it is
  linked, always gets a new row (`CreationExclusion.UnresolvedHasNoRows`).
- The created time of a report never changes, so the order of a problem's linked reports is fixed
  when they are created.
- The matcher's error categories never include the stale snapshot; the adapter and the response
  schema see to that.

## Left out

- Workspaces: one workspace is modelled; the guards against rows of another one are not.
- Guards that only refuse (expected versions, membership, demo workspaces, Slack readiness at
  approval) are dropped where they only shorten runs.
- Row locks, lock order and read-committed detail: a transaction is one step. The first retrieval of
  a match run is not a transaction in the source, so its two queries are two steps here.
- `sweep`, `dispatch_due_operations` and `recover_runs` take at most 200 rows at a time and dispatch
  tasks; here they treat every row and any worker may start at any time.
- Safe error codes, activity rows, log lines, durations and build names.
- `default_message` and `default_issue_body`: the text is a parameter.
- `correct_outcome`, `update_problem`, `mark_problem_reviewed`, owners, release links, demo data and deletion: they write
  states directly or would add easy members.
- `process_inbound_receipt` and the webhook routing: an event reaches the machines as a step.
- `fetch_current_issue`, `selected_repository`, `parse_issue_payload`, the text search, the Rust
  matcher and the JSON schemas are not part of this model; their outcomes are parameters.
- `install_gitignore_merge`, the AGENTS.md merge and the updater's file handling.
- `triage` and `metrics` of the evaluation: counting only.
- EvalWilson.ClampsChangeNothing: states the interval before `round(…, 3)`, over the reals and not
  over floating point.
- RulesConfigs.MergeGivesUnion: takes texts as lists of lines; decoding and the updater's refusal of
  unreadable files are not modelled.
- SyncTheorems.ReconciledMeansRead: allows a reading under an earlier binding when its clock reading
  equals the run's, because the code does; `SyncPromise.PromiseKeptExactly` gives the exact condition.
- SyncPromise.PromiseKeptExactly: gives the condition under which the promise holds instead of the
  promise, which the code breaks; see `SyncBoundary.SameInstantCounts`.
- CreationRecovery.LostIssueRecovered: takes the pages of a listing as one moment, and a link that
  neither fails nor meets another repository.
- DeliveryVisibility.DeliveredStaysVisible: gives the condition under which the promise holds instead
  of the promise, which the code breaks; see `DeliveryVisibility.LatePost`.
