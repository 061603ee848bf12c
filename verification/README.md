# Verified model of the fuzeinfra operations scripts

A Dafny model of the scripts that act on a cluster without a person in the loop, and proofs of
what they keep over whole histories.

1. **The deployment watchdog as a protocol over GitHub issues.** The script keeps no memory of
   its own: what it knows is in issue bodies and comment threads. `Tracker` is that world
   (issues, a log of dispatched actions, and a reply for every call that says whether it took
   effect). `Watchdog` says what one run does, effect by effect, and stops at the first strict
   call that fails; `WatchdogRunner` is the run itself, a class whose methods change the issues
   step by step, proved against it. `DarkLadder` and `Detection` are the decisions and detectors.
   `LadderHistory`, `LadderBounds`, `LadderEvidence`, `LadderProgress`, `TerminateHistory`,
   `TerminateBalance`, `TerminateExact`, `IssueIndex`, `KeyHistory`, `FilingCaps` and `CeilingExact`
   hold the results, over every history of runs, failed calls and human edits. `LadderDecisions`,
   `RunExact` and `InstanceNotes` say exactly what a completed run dispatches, records, leaves open,
   files and notes, in the fields of its snapshot and its issues; `LostRecords`, `Returning` and
   `LongLists` hold histories in which a promise fails. `PodNames` has the names that keep an issue's
   key stable; `PlanFacts`, `RunFacts`, `Scenarios` and `DarkRuns` hold what these share.
2. **The teardown gate** (`TeardownGate`): how many intact copies survive a wipe, for one wipe,
   for several approved from one snapshot, and over a history of wipes.
3. **The registry of consumer hosts**: the policy and the guard (`HostPolicy`), the file's printer
   and parser (`Tfvars`, `TfvarsRoundTrip`), the file over histories of declarations (`HostFile`) and
   the rules and lines as grammars (`HostExact`).
4. **Versions** (`Versions`, `VersionOrder`), **the environment file** (`EnvLines`, `EnvVars`,
   `EnvFile`, `EnvMap`), **the MCP tool list** (`McpTools`, `TopRanked`, `McpOrder`, `McpCheck`,
   `McpExact`) and **the data-tier reconciler** (`DataTier`, `DataShadow`, `DataExact`).

`Common`, `Sorting` and `TextLines` are shared. `dafny verify dfyconfig.toml` checks everything.

Words used: a dispatch is *lost* when the action was sent and the comment recording it did not
reach the thread. An issue has reached the *top* of the ladder when it is escalated or has refused
with its reason recorded. An *episode* is one run, or an edit of the issues by people.

## Where the code differs from what it says

- Dispatches come before the record. A run that dies between them leaves no trace, so the bounds
  on reboots, reinstalls and terminates carry a term for lost records, and
  `LostRecords.RebootsWithoutEnd` shows that the term has no bound: a node whose state comments
  are refused is rebooted in every run.
- The age compared with the escalation threshold is rounded to a tenth of a minute, so a node can
  be reinstalled early, by 0.05 minutes at most (`LadderEvidence.NodeIsReinstalledEarly`,
  `LadderBounds.ReinstallIsHardlyEarly`).
- A run without findings never closes a dark-node issue, also not that of a recovered node
  (`IssueIndex.RecoveredNodeIssueCloses`).
- Findings are compared neither with each other nor with issues beyond the list, so a key can get
  two open issues (`IssueIndex.UniqueExactly`, `KeyHistory.TwoPodsFiledTwice`).
- An operation whose app is not reported by one run loses its issue, and with it the record of its
  terminate: reported again with the same start time it is terminated again
  (`TerminateExact.TerminatedOnceExactly`, `Returning.ShopIsTerminatedTwice`).
- The list of open issues stops at 100, so the ceiling on open issues holds up to what the list
  does not show (`FilingCaps.CeilingHolds`); exactly when it holds is `CeilingExact.CeilingExactly`,
  and it fails under high and low ceilings alike (`LongLists.OneTooMany`,
  `LongLists.TwentyFirstIsFiled`).
- The pattern for host labels also accepts one final newline, and such a host is declared and then
  missing in the file (`HostFile.NewlineHostIsLost`, `HostFile.FileHoldsRegistryExactly`).
- A comment given with a new environment variable is written as it is, so one that holds a line end
  can set other variables (`EnvMap.CommentSetsVariable`, `EnvMap.AddIsInsertion`).
- A pre-release bump with no identifier starts a numbered pre-release over at 1, and on a release
  it numbers a version that has no pre-release (`VersionOrder.UnnamedBumpStartsOver`,
  `VersionOrder.BumpWellFormed`).
- Ranked trimming breaks a tie of priority, path and method by document order
  (`McpOrder.ToolsCanonicalExactly`, `McpOrder.BothGetsTie`).
- A stub of the reconciler can take over a declaration that resolved by a shortened role before
  (`DataShadow.RunKeepsEntry`, `DataShadow.RunShadows`).

## Model

| member | source | states |
|---|---|---|
| DarkLadder.ParseDarkNodeState | scripts-tools/deployment_watchdog.py:526-544 | the loop over the comments computes the fold of their state marks, in order, over the default state |
| DarkLadder.FoldConcat | scripts-tools/deployment_watchdog.py:526-544 | the state of a longer thread is the fold of its later part over the state of its earlier part |
| DarkLadder.FoldKeepsLastGiven | scripts-tools/deployment_watchdog.py:526-544 | each part of the state that is read has the value of the last readable marker that gives it, and its default if none does |
| Tracker.MarkIsFirst | scripts-tools/deployment_watchdog.py:533-543 | of several state markers in one comment the first counts, readable or not |
| DarkLadder.FoldNoise | scripts-tools/deployment_watchdog.py:526-544 | comments without a readable state marker leave the state as it is |
| DarkLadder.FoldIgnoresChatter | scripts-tools/deployment_watchdog.py:526-544 | unmarked comments anywhere in the thread, however many, do not change the state that is read |
| DarkLadder.RenderThenRead | scripts-tools/deployment_watchdog.py:526-548 | a written state marker at the end of any thread is read back as exactly that state |
| DarkLadder.StayLosesNothing | scripts-tools/deployment_watchdog.py:583-604 | writing the comment of a "none" decision, or not writing it, leaves the thread with the same state |
| DarkLadder.LookShortensLadder | scripts-tools/deployment_watchdog.py:575-639 | a look past the cooldown at a node dark long enough strictly shortens what is left to climb; the top and an escalation are absorbing |
| DarkLadder.ClimbEnds | scripts-tools/deployment_watchdog.py:575-639 | attempts left plus one such looks reach the top: escalated, or refused with the reason recorded |
| Detection.DetectStuckArgoOps | scripts-tools/deployment_watchdog.py:204-262 | the loop computes the specified findings, in order |
| Detection.StuckOpsExact | scripts-tools/deployment_watchdog.py:204-262 | a finding is reported if and only if some application is Running with a readable start longer ago than the threshold, and the finding has its name, or the placeholder, and its start |
| Detection.DetectDarkNodes | scripts-tools/deployment_watchdog.py:284-378 | the two loops compute the specified findings, in order |
| Detection.CountReadyIsCardinality | scripts-tools/deployment_watchdog.py:309-330 | the counter equals the number of positions that hold a control-plane node whose first Ready condition is True |
| Detection.DarkNodesExact | scripts-tools/deployment_watchdog.py:284-378 | a finding is reported if and only if some node not ignored has a first Ready condition that is Unknown for longer than the threshold, and it has that node's name, rounded age and roles, and the number of other control-plane nodes whose first Ready condition is True, though the target is never subtracted |
| Detection.RoundedAgePasses | scripts-tools/deployment_watchdog.py:161-162 | the age rounded to a tenth reaches a threshold, whatever number it is, if and only if the true age reaches half a tenth below the next whole tenth, a tie only below an even one |
| Detection.EarlyExactly | scripts-tools/deployment_watchdog.py:161-162 | some age below a threshold reaches it when rounded if and only if the threshold lies less than half a tenth below a whole tenth or on one |
| Detection.EscalatesEarly | scripts-tools/deployment_watchdog.py:575-639 | every armed control-plane node whose age reaches the threshold only when rounded, with the budget spent and the quorum left, is reinstalled before its time |
| Detection.RoundTenthClose | scripts-tools/deployment_watchdog.py:161-162 | the rounded age is within 0.05 minutes of the true one |
| Detection.FindingsExact | scripts-tools/deployment_watchdog.py:1504-1511 | a run finds exactly what its snapshot shows, each kind in its own part of it |
| Watchdog.OpenIssuesExact | scripts-tools/deployment_watchdog.py:1322-1329 | the list of open issues holds exactly the open ones |
| Watchdog.KeptExact | scripts-tools/deployment_watchdog.py:436-506 | a closing pass keeps exactly the listed issues whose key is absent or still active |
| Watchdog.MatchSound | scripts-tools/deployment_watchdog.py:910-935 | a finding matches a listed issue that tracks its key, or no listed issue tracks it |
| RunExact.MatchExact | scripts-tools/deployment_watchdog.py:910-935 | a finding is tracked by the first listed issue that has its key in the body or as the title, and by none if and only if none has |
| RunExact.KeyTextIdentifies | scripts-tools/deployment_watchdog.py:186-187 | the text of a key, which is what issues hold, is different for different keys |
| RunExact.KeyTextIs | scripts-tools/deployment_watchdog.py:110-114 | the text of a key is the name of its kind, a colon and the subject |
| RunExact.ListingExact | scripts-tools/deployment_watchdog.py:1322-1329 | a run sees an issue if and only if it is open and fewer than 100 newer ones are |
| Tracker.SafeNameExact | scripts-tools/deployment_watchdog.py:1068 | a name is dispatched if and only if it is up to 253 letters, digits, dots and dashes, not begun by the last two, to its end or to a final newline |
| Tracker.CallsExact | scripts-tools/deployment_watchdog.py:1310-1319 | a call has its effect if and only if it is answered or answers late; a strict call is survived only if answered, a tolerated one unless the run is killed |
| Watchdog.ExecAllConcat | scripts-tools/deployment_watchdog.py:1525-1778 | running two lists of effects one after the other is running their concatenation, also when a strict call fails on the way |
| Watchdog.DeadStays | scripts-tools/deployment_watchdog.py:1310-1319 | after a failed strict call nothing more happens in the run |
| WatchdogRunner.FilterNewFindings | scripts-tools/deployment_watchdog.py:910-935 | the loop splits the findings into the untracked and the tracked ones, as specified |
| WatchdogRunner.GitHub.PostComment | scripts-tools/deployment_watchdog.py:1405-1414 | the call appends one comment, or changes nothing, as the reply says |
| WatchdogRunner.GitHub.CreateIssue | scripts-tools/deployment_watchdog.py:1342-1354 | the call appends one open issue, or changes nothing, as the reply says |
| WatchdogRunner.GitHub.DispatchWorkflow | scripts-tools/deployment_watchdog.py:1357-1397 | an unsafe name ends the run before the call; otherwise the dispatch is logged if it took effect |
| WatchdogRunner.GitHub.CloseResolved | scripts-tools/deployment_watchdog.py:436-506 | the loop closes the resolved issues one by one, stops at a failed close, and returns the ones kept |
| WatchdogRunner.GitHub.UpdateInstances | scripts-tools/deployment_watchdog.py:1572-1619 | the loop comments on changed instances, tolerates a refusal and closes a capped issue |
| WatchdogRunner.GitHub.TerminateTracked | scripts-tools/deployment_watchdog.py:1628-1653 | the loop dispatches a terminate, then comments, for each tracked operation without its marker |
| WatchdogRunner.GitHub.ActOnDarkNode | scripts-tools/deployment_watchdog.py:1683-1707 | decide, dispatch, then record: each step only if the one before succeeded |
| WatchdogRunner.GitHub.ClimbTracked | scripts-tools/deployment_watchdog.py:1709-1714 | the loop reads each tracked dark node's thread and acts on it |
| WatchdogRunner.GitHub.FileFinding | scripts-tools/deployment_watchdog.py:1747-1778 | terminate before filing, file, then the first rung of the ladder |
| WatchdogRunner.GitHub.Run | scripts-tools/deployment_watchdog.py:1498-1782 | one whole run, clean or not, changes the issues and the log of dispatches exactly as the effect-by-effect specification says, for every pattern of failed calls |
| RunFacts.ExecAllEvolves | scripts-tools/deployment_watchdog.py:1525-1778 | any list of effects only adds comments, closes issues that were to be closed and appends issues; no body or title changes |
| LadderHistory.ThreadRefinesLadder | scripts-tools/deployment_watchdog.py:515-548 | over every history of runs, failures and human edits that write no state marker, the state read from the thread is the in-memory state after the recorded decisions, every action was that state's decision, and dispatches are records plus lost records |
| LadderHistory.RunKeepsLadder | scripts-tools/deployment_watchdog.py:1683-1714 | every prefix of every run keeps that refinement |
| LadderDecisions.ActsExactlyWhenDue | scripts-tools/deployment_watchdog.py:575-639 | a completed run that tracks one dark node on an issue dispatches a reboot, dispatches a reinstall and records each refusal if and only if it is due on the thread's state: a reboot whenever attempts are left and the cooldown is over, whatever the age |
| LadderDecisions.RunDoesWhatIsDue | scripts-tools/deployment_watchdog.py:1709-1714 | it adds to the log on that issue exactly the dispatch and the record that are due, in order, and leaves the state after them in the thread; if several are tracked there, the first one's come first |
| LadderDecisions.FirstRungIsTaken | scripts-tools/deployment_watchdog.py:1747-1778 | the i-th finding a completed run files gets the i-th new issue, and if it is a dark node exactly what is due on a state with no reboot |
| LadderDecisions.LooksExact | scripts-tools/deployment_watchdog.py:1709-1714 | a run looks at an issue once for each dark node it tracks there, in the order of the findings |
| LadderBounds.MemoryCounts | scripts-tools/deployment_watchdog.py:583-639 | the counters in the state are the numbers of recorded reboots and reinstalls, at most the budget and one |
| LadderBounds.LadderIsBounded | scripts-tools/deployment_watchdog.py:556-639 | over every history reboots are at most the budget plus the lost records, and reinstalls at most one plus the lost records, with equality to the recorded count |
| LostRecords.RebootsWithoutEnd | scripts-tools/deployment_watchdog.py:1683-1706 | any history from an empty tracker of runs that each find one node dark, on snapshots and at times of their own, and have their state comment refused, makes as many reboots of one issue as it has runs, whatever the budget and the cooldown |
| LostRecords.TwoAttemptsManyReboots | scripts-tools/deployment_watchdog.py:1683-1706 | a concrete node, a budget of two and a cooldown of 30 minutes: k runs a quarter of an hour apart make k reboots |
| LadderBounds.ReinstallEvidence | scripts-tools/deployment_watchdog.py:583-639 | every dispatched reinstall comes after exactly the budgeted recorded reboots and no recorded reinstall, on a control-plane node dark long enough, with the quorum left |
| LadderBounds.NoRebootAfterReinstall | scripts-tools/deployment_watchdog.py:583-604 | no reboot follows a reinstall of the same issue, even when the reinstall's record was lost |
| LadderBounds.RebootsAreSpaced | scripts-tools/deployment_watchdog.py:583-604 | successive recorded reboots are at least a cooldown apart and the state holds the time of the last one |
| LadderBounds.RebootsTakeTime | scripts-tools/deployment_watchdog.py:583-604 | the j-th recorded reboot comes at least j cooldowns after the first, counting from zero |
| LadderBounds.RefusalsDiffer | scripts-tools/deployment_watchdog.py:612-639 | no two successive refusal comments carry the same reason |
| LadderBounds.RunFrom | scripts-tools/deployment_watchdog.py:1683-1714 | every action a run dispatches is about a dark node found in that run's snapshot |
| LadderBounds.ReinstallSeesQuorum | scripts-tools/deployment_watchdog.py:313-352 | a reinstall that a run dispatches is about a control-plane node of its snapshot, reported as above, and if its first EtcdIsVoter condition is True the configured number of other control-plane nodes have a first Ready condition that is True |
| LadderBounds.ReinstallIsHardlyEarly | scripts-tools/deployment_watchdog.py:161-162 | and its first Ready condition is Unknown for the configured time, less 0.05 minutes at most |
| LadderEvidence.ReinstallInHistory | scripts-tools/deployment_watchdog.py:583-639 | over every history a dispatched reinstall comes after exactly the budgeted recorded reboots and no recorded reinstall, on a control-plane node dark long enough, with the quorum left, and no reboot of the issue follows it |
| LadderEvidence.ReinstallWasSeen | scripts-tools/deployment_watchdog.py:313-352 | over every history each dispatched reinstall was sent by some run whose own snapshot holds the node, with that condition for that long, and the quorum |
| LadderEvidence.RunReinstallsEarly | scripts-tools/deployment_watchdog.py:1683-1714 | a run that finds such a node tracked, with the budget spent, dispatches the early reinstall |
| LadderEvidence.NodeIsReinstalledEarly | scripts-tools/deployment_watchdog.py:1683-1714 | a concrete history from an empty tracker: two reboots, and a reinstall dispatched 119.96 minutes after the node went dark, under a threshold of 120 |
| LadderProgress.RunClimbsThread | scripts-tools/deployment_watchdog.py:1709-1714 | a completed run moves each thread's state by exactly the looks it took at it |
| LadderProgress.DarkTrackedNodeIsLookedAt | scripts-tools/deployment_watchdog.py:1709-1714 | a run looks at every dark node that an open issue tracks |
| LadderProgress.HistoryClimbs | scripts-tools/deployment_watchdog.py:1709-1714 | over every history of completed runs the state climbs by all the looks, in order |
| LadderProgress.ExecAllMoves | scripts-tools/deployment_watchdog.py:1683-1714 | every prefix of every run, wherever it dies, leaves what is left to climb as it was or shorter, and a new reboot time only with a step up |
| LadderProgress.GoodRunClimbs | scripts-tools/deployment_watchdog.py:1683-1714 | a completed run that finds the node dark past the threshold and tracks it on an issue past its cooldown shortens what is left to climb |
| LadderProgress.LadderTerminates | scripts-tools/deployment_watchdog.py:575-639 | over every history, with both automatic actions on, attempts left plus one such completed runs a cooldown apart leave the issue escalated or refused, whatever other runs die in between |
| TerminateBalance.RunBalances | scripts-tools/deployment_watchdog.py:1628-1653 | every prefix of every run, wherever it dies, keeps the balance: terminates not lost are as many as the issues that carry the operation's marker |
| TerminateBalance.TerminatesAreMarked | scripts-tools/deployment_watchdog.py:1628-1653 | over every history in which only the watchdog writes the marker, terminates of an operation are the issues that carry its marker plus the lost records |
| TerminateHistory.TerminatedOncePerOperation | scripts-tools/deployment_watchdog.py:423-467 | over every orderly history, wherever runs die, an operation is terminated at most once plus once for each lost record, if its app is not reported clear between two reports of it |
| TerminateExact.ComingBackTerminatesTwice | scripts-tools/deployment_watchdog.py:436-467 | an operation that is reported, whose app one run reports clear, and that is reported again, is terminated twice with no record lost, if those three runs complete and may file all operations they find |
| TerminateExact.TerminatedOnceExactly | scripts-tools/deployment_watchdog.py:423-467 | over orderly histories of such runs an operation is terminated at most once plus lost records if and only if no run between two reports of it lists the applications and reports none stuck of its name |
| TerminateExact.NewOpIsFiled | scripts-tools/deployment_watchdog.py:1716-1743 | every operation that no issue tracks is filed, whatever is open, when the run may file as many as it finds |
| TerminateExact.SweepCloses | scripts-tools/deployment_watchdog.py:436-467 | a completed run that lists the applications and reports none stuck of a name leaves no open issue on it |
| Returning.ShopIsTerminatedTwice | scripts-tools/deployment_watchdog.py:436-467 | a concrete history of three runs in which an operation is terminated twice |
| TerminateHistory.TrackedOpIsTerminated | scripts-tools/deployment_watchdog.py:1628-1653 | a completed run with automatic termination leaves the marker of every tracked stuck operation on its issue, and one not marked before, such as a new start time, was dispatched in that run |
| TerminateHistory.RunKeepsTidy | scripts-tools/deployment_watchdog.py:950-1008 | every issue a run files names one key only, the one in its title |
| IssueIndex.EveryFindingIsAccounted | scripts-tools/deployment_watchdog.py:1725-1743 | every finding is tracked, filed or in overflow, exactly one of the three, and nothing else is |
| IssueIndex.OpenIssuesAreActive | scripts-tools/deployment_watchdog.py:1525-1554 | after a completed run, clean or not, every issue that was listed or filed, is open and is marked with an Argo, container-creating or crash-loop key has that key among the run's findings |
| IssueIndex.AllOpenIssuesAreActive | scripts-tools/deployment_watchdog.py:1525-1554 | with a complete list that holds of every open issue |
| IssueIndex.FiledIsTracked | scripts-tools/deployment_watchdog.py:1747-1773 | a completed run leaves an open issue with the title and markers of every finding it filed |
| RunExact.StaysOpenExactly | scripts-tools/deployment_watchdog.py:436-506 | a completed run with no refusal at the comment cap leaves a listed issue open if and only if each condition it names still holds: its Argo, container-creating and crash-loop key is that of a finding, and its node's first Ready condition is Unknown; the Argo key counts only with a list of applications, the node only in a run with findings |
| InstanceNotes.PodIsNotedOnce | scripts-tools/deployment_watchdog.py:1572-1619 | a completed run that tracks one pod on an issue whose conditions hold adds nothing to the thread if the latest note names the pod, and otherwise one note of it at most; if no call fails the latest note then names it |
| InstanceNotes.NotedExact | scripts-tools/deployment_watchdog.py:509-512 | the note a run goes by is the last one in the comments, or in the body if the comments have none |
| InstanceNotes.FiledNotesItsPod | scripts-tools/deployment_watchdog.py:950-1008 | a newly filed issue notes its own pod |
| IssueIndex.KeysStayUnique | scripts-tools/deployment_watchdog.py:910-935 | a run, wherever it dies, makes no second open issue for a key if what it files on the key and the open issue on it beyond its list are one at most |
| IssueIndex.UniqueExactly | scripts-tools/deployment_watchdog.py:910-935 | a completed run leaves a key with at most one open issue if and only if what it files on the key and the open issue on it beyond its list are one at most: findings are compared with listed issues and never with each other |
| KeyHistory.KeysUniqueThroughout | scripts-tools/deployment_watchdog.py:910-935 | over every history of runs, wherever they die, in which people leave the issues alone, the key never has two open issues if that holds of every run |
| KeyHistory.KeysUniqueExactly | scripts-tools/deployment_watchdog.py:910-935 | if all those runs complete, the key never has two open issues if and only if it holds of every run |
| KeyHistory.TwoPodsFiledTwice | scripts-tools/deployment_watchdog.py:910-935 | two pods of one Deployment that are stuck in one snapshot, whatever else it shows, get two open issues on one key, in a completed run with room for all its findings and no listed issue on the key |
| KeyHistory.WebIsFiledTwice | scripts-tools/deployment_watchdog.py:910-935 | two concrete pods, from an empty tracker |
| KeyHistory.DeploymentKeepsOneKey | scripts-tools/deployment_watchdog.py:665-697 | the container-creating and crash-loop findings of any two pods of a Deployment have one key, whatever the ReplicaSet hashes and pod suffixes |
| KeyHistory.ReplacedPodStaysTracked | scripts-tools/deployment_watchdog.py:910-935 | so an issue that tracks the finding of a pod tracks that of the pod that replaces it, and no run files it again |
| IssueIndex.CleanRunClosesNoDark | scripts-tools/deployment_watchdog.py:1525-1540 | a run without findings changes no dark-node issue |
| IssueIndex.RecoveredNodeIssueCloses | scripts-tools/deployment_watchdog.py:1659-1674 | a completed run closes the issue of a recovered node if and only if it had some finding |
| PodNames.StableWorkloadName | scripts-tools/deployment_watchdog.py:665-691 | the branches compute the specified name |
| PodNames.StripUndoes | scripts-tools/deployment_watchdog.py:655-662 | stripping a suffix undoes appending it exactly when the suffix has the form and length that is stripped |
| PodNames.StableNameExact | scripts-tools/deployment_watchdog.py:665-691 | the name is that of the first owner with a name and a known kind, less the hash or epoch of a ReplicaSet or Job, or else the pod's own less both, or the unshortened name if nothing is left |
| PodNames.DeploymentKeepsOneSubject | scripts-tools/deployment_watchdog.py:665-697 | all pods of a Deployment have one subject, whatever the ReplicaSet hash and the pod suffix |
| PodNames.CronJobKeepsOneName | scripts-tools/deployment_watchdog.py:665-691 | all pods of a CronJob's Jobs have the CronJob's name |
| PodNames.OwnerlessPodKeepsHash | scripts-tools/deployment_watchdog.py:665-691 | without owners the ReplicaSet hash is stripped too only if it happens to be all digits |
| FilingCaps.PerRunCap | scripts-tools/deployment_watchdog.py:1716-1743 | no run files more than its cap, nor adds more issues than that |
| FilingCaps.FiledSplits | scripts-tools/deployment_watchdog.py:1730-1735 | the filed Argo findings are the first ones in order up to the cap, whatever is open; the others get exactly the slots that remain |
| RunExact.FiledExact | scripts-tools/deployment_watchdog.py:1716-1743 | filed are the Argo findings in order up to the cap, then the others in order up to what the cap leaves and to the ceiling less the listed issues whose keys are all still reported |
| FilingCaps.CeilingHolds | scripts-tools/deployment_watchdog.py:1720-1735 | no run raises the number of open non-Argo issues above the larger of its old value and the ceiling plus the issues the list did not show |
| FilingCaps.CeilingHoldsOnFullList | scripts-tools/deployment_watchdog.py:1720-1735 | with a complete list, not above the larger of its old value and the ceiling |
| CeilingExact.RestBalances | scripts-tools/deployment_watchdog.py:1720-1778 | a completed run leaves open exactly the non-Argo issues that were open, less those its list shows resolved, plus those it files |
| CeilingExact.FittingRunHolds | scripts-tools/deployment_watchdog.py:1720-1735 | no run, wherever it dies, goes past the ceiling and the old number if it closes as many as it files or what it leaves fits under the ceiling, both counted from the issue table and the findings |
| CeilingExact.CeilingExactly | scripts-tools/deployment_watchdog.py:1720-1735 | a completed run keeps the ceiling if and only if that holds |
| CeilingExact.CeilingThroughoutExactly | scripts-tools/deployment_watchdog.py:1720-1735 | over histories of completed runs in which people add none, the ceiling is never exceeded if and only if that holds of every run |
| LongLists.HiddenIssuesExceed | scripts-tools/deployment_watchdog.py:1720-1735 | when all listed issues are about operations that ended, a run closes them, takes the tracker for empty and files one more, however many are open below, under any ceiling |
| LongLists.TwentyFirstIsFiled | scripts-tools/deployment_watchdog.py:1720-1735 | a concrete tracker: under a ceiling of 20, with 20 issues open below 100 of ended operations, a 21st is filed |
| LongLists.OneTooMany | scripts-tools/deployment_watchdog.py:1720-1735 | a concrete tracker: 101 open, a ceiling of 101, and a 102nd is filed |
| FilingCaps.CeilingThroughout | scripts-tools/deployment_watchdog.py:1720-1735 | over every history in which people add none, the number of open non-Argo issues never exceeds the ceiling |
| FilingCaps.PrioritizeSorts | scripts-tools/deployment_watchdog.py:894-907 | the result is a permutation in which no finding stands behind one whose kind comes later in the given or default list, unlisted kinds last, and one kind is in code-point order of its key texts |
| FilingCaps.PrioritizeIsStable | scripts-tools/deployment_watchdog.py:894-907 | findings of one key keep the order they were found in |
| FilingCaps.WorstFirst | scripts-tools/deployment_watchdog.py:1730-1736 | among Argo findings, and among the others, no filed one stands behind one left out, in that sense |
| TeardownGate.GroupByVolume | scripts/preflight_node_teardown.py:138-140 | every volume name maps to exactly its replica records, in order |
| TeardownGate.CheckVolume | scripts/preflight_node_teardown.py:167-185 | a volume is at risk if and only if it has no records or fewer positions than required hold a never failed replica of it off the node, running if the volume is attached |
| TeardownGate.CheckVolumes | scripts/preflight_node_teardown.py:165-185 | the loop lists exactly the volumes at risk and counts those with records |
| TeardownGate.CountRecent | scripts/preflight_node_teardown.py:142-155 | the loop counts the replicas that failed recently, or stops at a time that cannot be read |
| TeardownGate.Evaluate | scripts/preflight_node_teardown.py:122-206 | the verdict is ok if and only if all could be read, nothing failed recently and every volume has that number of such replicas; every blocker given is true |
| TeardownGate.StaleApprovals | scripts/preflight_node_teardown.py:122-206 | k nodes approved from one snapshot and all wiped leave at least the required copies less k - 1, with at most one copy per node |
| TeardownGate.ApprovedWipeKeepsCopies | scripts/preflight_node_teardown.py:165-196 | an approved wipe leaves the required number of intact copies, and those are exactly the ones counted |
| TeardownGate.WipesAreSpaced | scripts/preflight_node_teardown.py:142-163 | over every history of approved wipes each leaves the required copies, and after one that destroyed a replica the next comes at least a cooldown later |
| HostPolicy.Validate | scripts-tools/materialize_cf_hosts.py:178-231 | the checks give the specified violations, in order |
| HostPolicy.ErrorsExact | scripts-tools/materialize_cf_hosts.py:178-231 | no violation is reported if and only if the declaration meets every rule of the policy |
| HostExact.ViolationsExact | scripts-tools/materialize_cf_hosts.py:178-231 | each violation is reported if and only if some entry has that fault, or the manifest lacks that part; another organisation is reported alone |
| HostExact.LabelExact | scripts-tools/materialize_cf_hosts.py:97 | a label passes if and only if it is dot-separated parts of lower-case letters, digits and inner hyphens, with at most one newline at the end |
| HostPolicy.BuildRegistry | scripts-tools/materialize_cf_hosts.py:238-246 | the result is the other repos' entries with the repo's own replaced by its declaration |
| HostPolicy.DeclarationIsLocal | scripts-tools/materialize_cf_hosts.py:238-246 | an accepted declaration leaves the repo owning exactly what it declared, changes no other repo's host and hands none over |
| HostPolicy.DeclarationsCommute | scripts-tools/materialize_cf_hosts.py:178-246 | two repos' declarations accepted in both orders give the same registry |
| HostPolicy.AcceptanceMoves | scripts-tools/materialize_cf_hosts.py:222-231 | an accepted declaration changes the acceptance of another repo's only through a host it gives up or takes |
| HostPolicy.NoDirectTransfer | scripts-tools/materialize_cf_hosts.py:222-246 | over every history a host in use before and after a declaration keeps its owner |
| HostPolicy.Guard | scripts-tools/check_consumer_host_collisions.py:272-305 | the guard reports exactly the wildcard and colliding hosts |
| HostExact.GuardSeesCase | scripts-tools/check_consumer_host_collisions.py:272-305 | a host collides if and only if it has a wildcard or is an infrastructure host in any spelling of upper and lower case |
| HostPolicy.ReachablePassesGuard | scripts-tools/check_consumer_host_collisions.py:272-305 | every registry reached by declarations from one that passes the guard passes it |
| Tfvars.ParseTfvars | scripts-tools/materialize_cf_hosts.py:160-171 | the loop over the lines computes the specified registry, a later line winning |
| TextLines.CharacterClasses | scripts-tools/materialize_cf_hosts.py:165-166 | the characters that end a line and the blanks that are stripped, by code point |
| HostExact.LineExact | scripts-tools/materialize_cf_hosts.py:167-171 | a line is an entry if and only if it is two quoted non-empty names with an equals sign between blanks, and whatever follows |
| Tfvars.RenderTfvars | scripts-tools/materialize_cf_hosts.py:249-270 | grouping, padding and sorting in loops print the canonical text, which depends on the map alone |
| HostExact.EntriesAligned | scripts-tools/materialize_cf_hosts.py:258-268 | the equals signs of the printed entries stand in one column, behind the longest host |
| TfvarsRoundTrip.ParseIsClean | scripts-tools/materialize_cf_hosts.py:160-171 | whatever the text, the parsed hosts and repos are non-empty, on one line and free of quotes |
| TfvarsRoundTrip.CleanRoundTrip | scripts-tools/materialize_cf_hosts.py:160-171 | parsing the printed text of such a registry returns it |
| TfvarsRoundTrip.RoundTripExact | scripts-tools/materialize_cf_hosts.py:249-270 | the printed text reads back as the registry if and only if every host and repo is non-empty, on one line and free of quotes |
| HostFile.Materialize | scripts-tools/materialize_cf_hosts.py:305-329 | one run rejects, changes nothing, or rewrites the file, exactly as specified |
| HostFile.AcceptedFileReadsBack | scripts-tools/materialize_cf_hosts.py:305-329 | the file written for an accepted declaration reads back as the rebuilt registry if and only if the repo can be written and no host ends in a newline |
| HostFile.SecondRunIsNoChange | scripts-tools/materialize_cf_hosts.py:313-323 | declaring the same thing again reports no change, also when the file could not hold one of its hosts |
| HostFile.NewlineHostIsLost | scripts-tools/materialize_cf_hosts.py:97 | every host accepted with a final newline is declared and then missing in the file |
| HostFile.NewlineHostIsAccepted | scripts-tools/materialize_cf_hosts.py:97 | a concrete such host passes the policy |
| HostFile.RunRefinesDeclaration | scripts-tools/materialize_cf_hosts.py:305-329 | an accepted declaration reads back as the rebuilt registry without the hosts that end with a newline; a rejected one leaves the file |
| HostFile.FileRefinesRegistry | scripts-tools/materialize_cf_hosts.py:305-329 | over every history of declarations the file holds the registry they build, each read back without such hosts before the next |
| HostFile.FileHoldsRegistryExactly | scripts-tools/materialize_cf_hosts.py:305-329 | the file holds the full registry after every declaration of a history if and only if every accepted one has a repo that fits on a line and no host that ends with a newline |
| HostFile.FilePassesGuard | scripts-tools/check_consumer_host_collisions.py:272-305 | every file reached from one that passes the guard passes it, whatever hosts are declared |
| Versions.PrintThenParse | scripts-tools/version_manager.py:46-79 | parsing the printed form returns the version if and only if the version is well formed |
| Versions.ParseThenPrint | scripts-tools/version_manager.py:46-79 | printing a parsed text returns it if and only if no number has a leading zero and no newline ends it |
| Versions.ParsedIsWellFormed | scripts-tools/version_manager.py:61-79 | whatever is parsed is well formed |
| Versions.SpelledMatches | scripts-tools/version_manager.py:64-65 | the pattern finds in a text the parts it was spelled from |
| Versions.MatchedSpells | scripts-tools/version_manager.py:64-65 | the parts the pattern finds are of the right form and spell the text |
| Versions.ParseExact | scripts-tools/version_manager.py:61-79 | a text is a version if and only if it is three numbers with dots, an identifier behind a hyphen with or without a number, and a build text behind a plus, if any, with at most one newline at the end, and it is the version these stand for |
| Versions.FitsExact | scripts-tools/version_manager.py:64-65 | the parts fit if and only if the numbers are digits, the identifier letters and the build text anything on one line |
| Versions.WellFormedExact | scripts-tools/version_manager.py:20-45 | a version is well formed if and only if its identifier and build text are of that form and only an identifier is numbered |
| VersionOrder.CompareIsAntisymmetric | scripts-tools/version_manager.py:81-114 | swapping the versions flips the sign; zero means equal rank and nothing else |
| VersionOrder.CompareIsTransitive | scripts-tools/version_manager.py:81-114 | the order is transitive, strictly if one of the steps is strict |
| VersionOrder.CompareIsPreorder | scripts-tools/version_manager.py:81-114 | the order is a total preorder |
| VersionOrder.CompareExact | scripts-tools/version_manager.py:81-114 | the order is that of six numbers at the first difference: the three of the version, 1 for a release, the place of the identifier (1, 2, 3 for alpha, beta, rc, 0 for any other) and its number or 0 |
| VersionOrder.AgreesWithSemVer | scripts-tools/version_manager.py:81-114 | for alpha, beta and rc the order is the precedence of section 11 of Semantic Versioning 2.0.0 if and only if the versions are not one pre-release with no number and with the number 0 |
| VersionOrder.ReleaseBumpIncreases | scripts-tools/version_manager.py:250-277 | a major, minor or patch bump strictly increases every version |
| VersionOrder.BumpIsLeast | scripts-tools/version_manager.py:250-277 | a release bump takes the least version numbers above the current ones in the part it names, so the parts below start over at 0, with the given identifier numbered 1 and the given build text |
| VersionOrder.PreReleaseIsNext | scripts-tools/version_manager.py:278-293 | a pre-release bump under the same identifier gives the next version of it: none lies between |
| VersionOrder.PreReleaseStartsAtOne | scripts-tools/version_manager.py:278-293 | under another identifier it gives number 1 of that on the same version numbers |
| VersionOrder.PreReleaseBumpExact | scripts-tools/version_manager.py:278-293 | the exact condition under which a pre-release bump increases, for every version and argument |
| VersionOrder.DocumentedBumpExact | scripts-tools/version_manager.py:278-293 | given alpha, beta or rc it increases if and only if the current version is a pre-release of the same or a lower identifier |
| VersionOrder.UnnamedBumpStartsOver | scripts-tools/version_manager.py:278-293 | with no identifier given the bump of a pre-release numbered above 1 goes down |
| VersionOrder.BumpWellFormed | scripts-tools/version_manager.py:248-296 | a bump yields a well-formed version if and only if it is not the pre-release bump of a release with no identifier |
| VersionOrder.BumpRoundTrips | scripts-tools/version_manager.py:248-296 | under the same condition the bumped version survives printing and parsing |
| VersionOrder.VersionsClimb | scripts-tools/version_manager.py:248-296 | over every history of bumps that move up, each version is strictly above all earlier ones |
| EnvFile.ParseEnvLines | scripts-tools/env_manager.py:127-144 | the loop computes every key's last value with its line number |
| EnvFile.EnvManager.WriteEnvFile | scripts-tools/env_manager.py:108-125 | the file holds the concatenated lines, and what is read back is their re-reading |
| EnvFile.EnvManager.AddVariable | scripts-tools/env_manager.py:146-177 | refused exactly for a key that is there; otherwise the file is the specified edit |
| EnvFile.EnvManager.ModifyVariable | scripts-tools/env_manager.py:179-205 | refused exactly for a missing key; otherwise the file is the specified edit |
| EnvFile.EnvManager.RemoveVariable | scripts-tools/env_manager.py:207-232 | refused exactly for a missing key; otherwise the file is the specified edit |
| EnvLines.RereadsProper | scripts-tools/env_manager.py:90-125 | the lines of a proper file are read back as they were written |
| EnvLines.TranslateExact | scripts-tools/env_manager.py:90-106 | a carriage return, with a newline after it or not, is read as one newline |
| EnvLines.LineAssigns | scripts-tools/env_manager.py:127-144 | a line that is no comment sets the text before its first equals sign to the text after it, both without outer blanks |
| EnvLines.LineAssignsNothing | scripts-tools/env_manager.py:127-144 | any other line sets nothing |
| EnvLines.EnvWellFormed | scripts-tools/env_manager.py:127-144 | whatever the file, its keys and values are trimmed, on one line, and its keys free of equals signs and leading hashes |
| EnvMap.AddKeepsLines | scripts-tools/env_manager.py:165-177 | for every key, value and comment adding keeps every line in place, completing a last line without a newline, and what it writes is read back after them |
| EnvMap.ModifyKeepsLines | scripts-tools/env_manager.py:200-205 | for every value modifying replaces the one line that gives the value by what the new text is read back as, and no other |
| EnvMap.RemoveKeepsLines | scripts-tools/env_manager.py:226-232 | removing takes that line out and keeps the others in order |
| EnvMap.PlainCommentSetsNothing | scripts-tools/env_manager.py:165-177 | a comment on one line sets no variable |
| EnvMap.CommentSetsVariable | scripts-tools/env_manager.py:165-177 | a comment whose second line is an assignment sets that variable |
| EnvMap.AddIsInsertion | scripts-tools/env_manager.py:146-177 | after writing and re-reading, adding is map insertion if and only if a line can hold the key and the value and the lines of the comment set no variable otherwise |
| EnvMap.ModifyIsUpdate | scripts-tools/env_manager.py:179-205 | modifying is map update, whichever of several lines held the key, if and only if a line can hold the value |
| EnvMap.RemoveIsDeletion | scripts-tools/env_manager.py:207-232 | removing is map deletion if and only if one line defines the key |
| EnvMap.EditRefinesMap | scripts-tools/env_manager.py:146-232 | on a file without duplicate keys every edit, accepted or refused, is the map's, and leaves no duplicate |
| EnvMap.HistoryRefinesMap | scripts-tools/env_manager.py:146-232 | over every history of edits, with comments that set nothing, each written and read back, the file holds the map |
| McpTools.TrimKeepsTheLeast | scripts/mcp_check.py:255-262 | trimming keeps as many operations as the cap allows, none ranking after one it drops, and loses or invents none |
| McpTools.ToolListIsSorted | scripts/mcp_check.py:309-313 | the tools come in the order of their names |
| TopRanked.KeptIsStable | scripts/mcp_check.py:255-262 | two sorted arrangements of the same elements keep the same first ones when no kept one ties with a different dropped one |
| TopRanked.KeptIsUnstable | scripts/mcp_check.py:255-262 | with such a tie some arrangement, sorted already, keeps others |
| McpOrder.SurfacePermutes | scripts/mcp_check.py:255-262 | without such a tie at the cap the same operations become tools for every order of the specification |
| McpOrder.ToolsCanonicalExactly | scripts/mcp_check.py:309-313 | with names that tell operations apart, the tool list is the same for every order of the specification if and only if no operation kept at the cap has the rank of a different one dropped |
| McpOrder.BothGetsTie | scripts/mcp_check.py:255-262 | a concrete specification whose list depends on the order: get and GET under one path, a cap of one |
| McpTools.SurfaceMembers | scripts/mcp_check.py:199-230 | every tool's operation is one of the specification and not excluded |
| McpExact.SelectedExact | scripts/mcp_check.py:199-230 | the selection holds each operation as often as the specification if it is allowed and opts in, or, if no allowed one opts in, is an allowed read that does not opt out, and no other |
| McpExact.SurfaceExact | scripts/mcp_check.py:255-262 | all of them become tools unless they are over the cap and ranked; then as many as the cap allows, in order of priority number, path and method, and none dropped comes before one kept |
| McpExact.ToolNameExact | scripts/mcp_check.py:143-151 | a tool is named by the id of its operation, or by the method and the path without outer slashes, inner ones as underscores, braces left out |
| McpExact.ToolListExact | scripts/mcp_check.py:300-313 | the tools are exactly those of the selected operations, each with its name, stripped text, input and whether its method is another than get and head, in code-point order of the names |
| McpCheck.CheckGuards | scripts/mcp_check.py:334-350 | the loops report exactly the specified guard violations |
| McpCheck.GuardsExact | scripts/mcp_check.py:334-350 | none is reported if and only if every name marked irreversible is a selected operation that mutates |
| McpExact.MissingExact | scripts/mcp_check.py:334-350 | a declared name is reported as not selected if and only if no selected operation has it |
| McpExact.ReadsExact | scripts/mcp_check.py:334-350 | and as a read if and only if one with method get or head has it |
| McpCheck.ToolManifest.Check | scripts/mcp_check.py:353-453 | the report and the written file are the specified ones, on every path |
| McpCheck.BoundsExact | scripts/mcp_check.py:233-252 | no bound is violated if and only if the count lies between the smaller of the eligible and the minimum, and the cap |
| McpExact.ReportExact | scripts/mcp_check.py:353-453 | the status, the violations, the list and whether it is written follow from the violations, the committed list and the write flag as stated case by case; an agent is needed if and only if some tool has no text |
| McpCheck.RankedMeetsCap | scripts/mcp_check.py:400-402 | with ranked trimming a cap that is not negative is always met |
| McpCheck.PastBoundsIsOperations | scripts/mcp_check.py:353-453 | exactly when the specification gives eligible operations and no violation does the check compare or write the list |
| McpCheck.PastBounds | scripts/mcp_check.py:385-453 | then its tools all come from eligible operations and their number lies within the bounds |
| McpCheck.WriteConverges | scripts/mcp_check.py:425-453 | after a reconciling write a second check reports in sync, writing or not, with the same list |
| McpCheck.CheckIgnoresOrder | scripts/mcp_check.py:353-453 | the report is the same for every order of the specification if and only if there is no such tie |
| DataTier.BuildIndex | scripts-tools/reconcile_datatier.py:91-115 | the loop indexes the entries by role and name, a later entry taking the key |
| DataTier.DetectGaps | scripts-tools/reconcile_datatier.py:317-338 | the loop gives the specified gaps, in order |
| DataExact.GapsExact | scripts-tools/reconcile_datatier.py:317-338 | a gap is reported if and only if some declaration has it: no entry, a disabled one, one of another database, or for mongo one without the grant |
| DataExact.BlockingExact | scripts-tools/reconcile_datatier.py:564 | a run fails on exactly the gaps of declarations without an entry or without the grant |
| DataExact.ResolveFinds | scripts-tools/reconcile_datatier.py:91-142 | a declaration's entry is the last one under the first of its texts that finds any: its role, then the role without one suffix and the other, in the order of its store |
| DataExact.ResolveMisses | scripts-tools/reconcile_datatier.py:91-142 | it has no entry if and only if none of these texts is the role or the name of one, in lower case |
| DataExact.EraseExact | scripts-tools/reconcile_datatier.py:138-139 | a suffix is taken out wherever it occurs, from the left |
| DataTier.ApplyGaps | scripts-tools/reconcile_datatier.py:415-462 | the loop puts the stubs in front of each store's entries and leaves neo4j alone |
| DataExact.StubAnswers | scripts-tools/reconcile_datatier.py:340-413 | a stub has the role and the database of its declaration, for mongo the grant, the short name of the repository, and is disabled |
| DataExact.StubLeavesDisabled | scripts-tools/reconcile_datatier.py:415-462 | after a run that applies, the declaration of a stub has one gap left, that it is disabled, if every stub under its role is for the same database |
| DataTier.StubsShadowNothing | scripts-tools/reconcile_datatier.py:91-115 | a key that had an entry keeps that very entry after an apply |
| DataTier.ResolvedStays | scripts-tools/reconcile_datatier.py:134-284 | what resolved before an apply resolves after it |
| DataTier.ResolvedEntryStays | scripts-tools/reconcile_datatier.py:134-284 | and to the same entry, except exactly when a stub takes a key that is looked up earlier: then to a disabled stub |
| DataShadow.StubKeysExact | scripts-tools/reconcile_datatier.py:415-462 | the keys under which a run's stubs are found are the roles of the unresolved declarations and the short names of their repos, in lower case |
| DataShadow.RunKeepsEntry | scripts-tools/reconcile_datatier.py:134-284 | so a run keeps the entry of a resolved declaration unless an unresolved one of the same store brings a key that is looked up earlier, and then leaves it a disabled stub |
| DataShadow.RunShadows | scripts-tools/reconcile_datatier.py:415-462 | a concrete run that takes an enabled entry away from a declaration in order |
| DataTier.DeclaredResolves | scripts-tools/reconcile_datatier.py:415-462 | after a run that applies, every declaration that names a role resolves |
| DataTier.RolelessNeverResolves | scripts-tools/reconcile_datatier.py:134-284 | a declaration with an empty role never resolves, whatever is provisioned |
| DataTier.ApplyConverges | scripts-tools/reconcile_datatier.py:317-338 | after a run that applies no postgres, mariadb or mongo declaration is missing, if and only if each of them names a role |
| DataTier.SecondApplyAddsNothing | scripts-tools/reconcile_datatier.py:415-462 | a second run adds nothing, if and only if each of them names a role |
| DataTier.Neo4jUntouched | scripts-tools/reconcile_datatier.py:287-314 | neo4j entries and gaps stay as they are |

## Left out

- Calls to kubectl, GitHub, Prometheus and the file system: their results are inputs, and every GitHub call has a reply that says whether it took effect and whether the run survives it.
- The detectors of crash loops, stuck container creation and full volumes: their findings are part of the snapshot.
- Summary text, exit codes, dry runs and runs without a repository.
- Markers are tokens: that the text around them, such as a pod name or a message, contains no marker of its own is assumed of the texts the watchdog writes.
- State markers whose JSON has the wrong types, and times without a zone: a marker holds a state, part of one, or nothing.
- Watchdog.Listing: the list of open issues is the 100 newest, newest first; other orders GitHub may return are not modelled.
- TerminateExact.TerminatedOnceExactly: is for histories in which people leave the issues alone, runs see all open issues, and a batch names an app once; Argo CD names applications uniquely in a namespace. A run that dies before it terminates, closes or files is covered one way only, by TerminateHistory.TerminatedOncePerOperation.
- TerminateHistory.TrackedOpIsTerminated: is about operations that an issue tracks; a newly filed one has its marker in the issue body, which IssueIndex.FiledIsTracked states.
- HostFile.FilePassesGuard: a repository name that does not fit on a line of the file is not covered; GitHub gives out no such name.
- McpOrder.ToolsCanonicalExactly: specifications in which two different operations share a tool name are not covered: their list has two tools of one name, in document order.
- CeilingExact.CeilingExactly: is for runs without a refusal at the comment cap, on which an issue is closed to be filed anew; with one, the condition is still enough (CeilingExact.FittingRunHolds) but more may be closed than is known before.
- RunExact.StaysOpenExactly: is for such runs too; which issues a refusal at the comment cap closes is only bounded, by RunFacts.ExecAllEvolves.
- LadderDecisions.ActsExactlyWhenDue: is for an issue that tracks one dark node; for several, LadderDecisions.RunDoesWhatIsDue says what comes first.
- InstanceNotes.PodIsNotedOnce: is for an issue that tracks one finding; several pods of one workload on one issue are noted in turn.
- KeyHistory.KeysUniqueThroughout: is for histories in which people leave the issues alone, since an edit by hand can open any issue.
- HostPolicy: the reserved and infra-owned hosts are given sets; how they are read from Helm and Terraform text is not part of this model. Letter case is that of ASCII.
- Tfvars: the header is any text of empty lines and comments; that the constant header is one is not restated. A carriage return followed by a newline gives an extra empty line, which no entry matches.
- Versions: digits are ASCII; other decimal digits, which the pattern also accepts, are read as no version. The version file, git tags and the changelog are left out, and with them the update of component versions.
- EnvFile: failed reads and writes, backups, listing, masking and validation.
- McpTools: the path globs are given as the set of paths they match, the input schema of an operation as one value, and the operations as a list in document order.
- McpCheck: a tool list written as JSON is assumed to be read back as the same list.
- DataTier: the stubs are entries in front of the store's list; the text that is spliced into the YAML file, keys with inline values and values that YAML reads as another type are left out. A declaration without a role key, which stops the script, is left out.
- The text-scanning gates, allowlist validators, service toggles, reports and environment set-up of the repository: flat case tables or calls to other tools.
