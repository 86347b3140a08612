# Verified model of OmniMind

A model in Dafny of the parts of OmniMind that keep state, with proofs of what they promise. Each
part has a specification, functions of its state and its inputs; classes whose methods follow the
source's loops and updates and are proved against that specification; and laws of the
specification, over all inputs, all runs or all reachable states.

| part | files |
|---|---|
| JSON values, sorted keys | Json, Ordering |
| structural diff, its items, replay and inverse | Diff, DiffItems, DiffReplay |
| versioned memory store, time travel | Moments, Store, TimeTravel, MemoryStore |
| deep merge and fusion of branches | DeepMerge, MergeFolds, Fusion, FusionResults, Fuser |
| policy engine: rules, windows, approvals | Policy, PolicyWindows, PolicyLimits, PolicyLog, PolicyDecisions, PolicyEngine |
| meta-orchestrator: assignment, accounts, balancing | Orchestrator, Assignments, Accounting, BalanceProgress, BalanceMoves, MetaOrchestrator |
| agent runner, a client of the orchestrator | Runner |
| dry-run executor | DryRun, DryRunLaws, DryRunRows |
| configuration mutations and their reverts | ConfigPaths, Evolution |
| fleet: leased task queue, leader election | Leases, Election, FleetNodes |
| normalised regression slope | Trend |
| skill catalog and remote sync | Versions, Releases, Catalog, Marketplace |

`dafny verify dfyconfig.toml` checks the project.

## How the source is read

- A public method holds a lock for its whole body, so it is one step. A run is a sequence of steps.
- Clocks, fresh ids, the hash, the evaluation of attribute conditions, Python's `int` on text and
  the result of a model call are parameters. The clock is required not to go back only where a law
  needs it.
- Times in the store are moments in UTC, from year to microsecond; a query sees them as the text that
  is stored, and compares texts in code-point order, as SQLite does. Times are integers in the queue
  and reals in the policy engine.
- Floats are reals. Where rounding is in the source (`_trend`) it is modelled, half to even.
- A JSON object is a finite map, because `dict` equality ignores order; null, booleans, integers,
  floats, strings, arrays and objects are distinct, as `type()` has them. Paths are lists of steps.
- SQL tables are sequences of rows in the order of insertion; a query is a function of them.
- Exceptions are results: `None`, an `Option` or a constructor, with the state they leave behind.

## Where the code and its own words differ

The model follows the code.

- `diff_values` is described as single-level and as comparing lists up to the shared length. It
  recurses at every level and covers the longer list (omni/memory/diff.py:13-16).
- The risk gate says the resource's risk "exceeds" the allowance; it already refuses an equal level
  (omni/policy/engine.py:206-213).
- Approving a pending request charges no usage (omni/policy/engine.py:277-286); the theorem on
  global usage counts directly allowed requests only.
- An action pattern is described as a single-segment wildcard. It is a prefix, so `agent.*` matches
  any depth (omni/policy/engine.py:106-118; `PolicyDecisions.StarMatchesPrefix`).
- The balanced score is said to prefer the least loaded capable agent. A capable agent whose load and
  queue weigh more than one plus its task's priority allowance scores below zero, which `assign`
  takes for incapable (omni/orchestrator/engine.py:33-38; `Assignments.EligibleExactly`).
- A window is the closed interval of its length: an entry exactly `window_seconds` old still counts
  (omni/policy/engine.py:325).
- `snapshot_asof` is called with ISO text (tests/test_memory.py:80-82) and described as the state at a
  point in time. It compares that text with the stored one, where `sqlite3` has put a space for the T
  of an aware `datetime` (omni/memory/store.py:54, 192-201). A space sorts before a T, so the state
  shown is that at the end of the asked date; `TimeTravel.FormsAgreeExactlyWhen` says when this is
  also the state at the asked time, and `TimeTravel.MorningShowsNoon` is a text for which it is not.
- A group listed twice is charged twice but checked once; `PolicyWindows.BoundIffDistinctGroups`
  shows that a principal's requests keep every limit exactly when it lists no group twice.
- Completing a task that is not ASSIGNED releases a slot of whatever agent it names;
  `Accounting.FinishKeepsExactly` says when that breaks the accounts, and
  `Accounting.RunBreaksAccounts` is a run in which it does.
- An exception other than a provider error leaves a task assigned for good (`Runner.RunConserves`).
- Reverting a path that was missing before the mutation leaves a null there
  (`Evolution.UndoExactlyWhenPresent`).
- `fuse` compares with Python's `==`, for which `True`, `1` and `1.0` are equal, so it may leave the
  target's value where the diff would still report a change of type (`Fusion.TrueIsOne`).
- A merging fusion whose target is named among its sources, before others, may write again each time;
  `Fusion.FusionIsIdempotent` says exactly when, and `Fusion.NumberIsFusedTwice` is such a table.
- `deep_merge` is not associative; `DeepMerge.AssociativeIff` says for which documents it is,
  and `MergeFolds.NumberSeparates` names three for which it is not.
- `lease_task` calls `json.loads` on a JSONB column after the commit (omni/fleet/storage.py:182-185).
  A driver that parses JSONB itself, which is psycopg's default, then leases the row and raises;
  `PostgresFleetStorage.parsesJson` tells the two apart.
- `publish` keeps a new manifest, and refreshed descriptions, even when it then refuses the version.
- A remote manifest of unknown kind is reported as having no new versions: the error is caught by
  the same clause as an old version (`Catalogs.SyncSucceedsExactlyWhen`).

## Model

| member | source | states |
|---|---|---|
| DiffReplay.ReplayReachesNew | omni/memory/diff.py:23-71 | applying the items of a diff to the old document, additions and replacements in order and then removals from the back, succeeds at every step and gives exactly the new document, for all JSON values |
| DiffReplay.DiffInverts | omni/memory/diff.py:23-71 | the diff of the same documents the other way round is the same list item by item, with additions and removals, and old and new values, swapped |
| DiffReplay.ReplayInverseReachesOld | omni/memory/diff.py:23-71 | so a stored diff leads back from the new document to the old one |
| DiffReplay.EmptyIffEqual | omni/memory/diff.py:23-71 | a diff is empty if and only if the documents are equal, types included |
| DiffReplay.DiffIndependent | omni/memory/diff.py:38-58 | no item's path is a prefix of another's |
| DiffItems.DiffIsDetermined | omni/memory/diff.py:23-71 | the diff is the one list, in the order of its paths, of exactly the changes: an addition or removal where only one document has a place in a container both have, and a replacement where both hold values that differ and are not both objects or both lists |
| DiffItems.DiffListsTheChanges | omni/memory/diff.py:23-71 | an item is in the diff if and only if it is such a change, so no replacement is of two objects or of two lists |
| DiffItems.DiffInOrder | omni/memory/diff.py:38-58 | the items stand in the order of their paths: by sorted key, by ascending index |
| Diff.Walk | omni/memory/diff.py:23-71 | the recursive walk appends to the shared list exactly the items of its two documents under its path, after what the list held |
| Diff.WalkDict | omni/memory/diff.py:38-47 | the loop over the sorted union of keys |
| Diff.WalkList | omni/memory/diff.py:49-58 | the loop over the indices of the longer list |
| Diff.WalkKey | omni/memory/diff.py:39-46 | one key: added, removed or walked into |
| Diff.WalkIndex | omni/memory/diff.py:50-57 | one index: added, removed or walked into |
| Diff.ComputeDiff | omni/memory/diff.py:10-20 | `diff_values`: a missing document counts as empty |
| Ordering.SortKeys | omni/memory/diff.py:39 | `sorted` over a set of strings: every element once, in strictly ascending code-point order |
| Ordering.SortingUnique | omni/memory/diff.py:39 | that order is unique, so the walk is deterministic |
| Ordering.LessIsFirstDifference | omni/memory/diff.py:39 | code-point order: the first character that differs decides, and a proper prefix comes first |
| Store.RunKeepsVersionLog | omni/memory/store.py:69-92 | every run of writes, rollbacks and branches keeps the log: each row's version is one more than the rows before it on its key and branch, its parent is its predecessor, its hash is the hash of its value; rows are only added at the end |
| Store.RowIs | omni/memory/store.py:69-92 | the row each operation appends, field by field: the next version of its key and branch, the value written, copied back or copied over, its hash, author, reason, provenance and time |
| Store.DiffCompares | omni/memory/store.py:116-133 | what `diff` compares for every choice of versions, absent or zero meaning the default: the latest with the one before it, or with itself if it is the first; it answers if and only if both exist |
| Store.VersionsHaveNoGaps | omni/memory/store.py:94-104 | on each key and branch exactly the versions 1..n can be read |
| Store.VersionsAreUnique | omni/memory/store.py:69-92 | no two rows share key, branch and version |
| Store.LatestIsLast | omni/memory/store.py:216-223 | `_latest` is the row with version n, or None where n is 0 |
| Store.RollbackCopiesTarget | omni/memory/store.py:136-151 | a rollback succeeds exactly for versions 1..n; then the new latest version n+1 holds the target's value and the target still reads as it did; otherwise the table is unchanged |
| Store.BranchStartsFresh | omni/memory/store.py:153-176 | a branch succeeds exactly when the source version exists and the new branch holds nothing for the key; it then holds version 1, the copy, and the source reads as before |
| Store.DiffBetweenVersionsReplays | omni/memory/store.py:116-133 | the stored diff between any two existing versions replays from the value of the one to that of the other |
| Store.RollbackDiffIsEmpty | omni/memory/store.py:116-151 | after a rollback to v the diff between v and the version it wrote is empty |
| TimeTravel.TimeTravelIsFaithful | omni/memory/store.py:192-205 | for any text t: on a clock that never goes back, `snapshot_asof(t)` after any later operations is the `snapshot()` of the table as the operations with a stored stamp up to t, compared as text, left it |
| TimeTravel.LaterWritesAreInvisible | omni/memory/store.py:192-205 | no write, rollback or branch whose stored stamp sorts after the text t changes `snapshot_asof(t)` |
| TimeTravel.AsOfIsAPastState | omni/memory/store.py:192-205 | in chronological rows the snapshot as of any text is the current snapshot of a prefix of the table, cut where the stored stamps pass that text |
| TimeTravel.StoredFormIsTheMoment | omni/memory/store.py:192-205 | asked in the form the rows are stored in, for every table, `snapshot_asof` shows exactly the rows stamped at the asked moment or before |
| TimeTravel.TFormIsTheEndOfItsDate | omni/memory/store.py:192-205 | asked in the ISO form with a T, for every table and whatever follows the T, it shows exactly the rows stamped up to the last microsecond of the asked date |
| TimeTravel.FormsAgreeExactlyWhen | omni/memory/store.py:192-205 | the two forms show the same rows if and only if no row of the asked date is stamped after the asked moment |
| TimeTravel.SpaceFormShows | omni/memory/store.py:192-205 | asked with a date, a space and any rest, it shows the earlier dates, and of the asked date the rows whose stored time sorts no later than that rest |
| TimeTravel.ShortFormIsBeforeItsSecond | omni/memory/store.py:192-205 | asked with a space, to the second and with no offset, for every table, it shows exactly the rows stamped before that second |
| TimeTravel.LaterWriteIsSeen | omni/memory/store.py:192-205 | any write made later on the asked date appears in the snapshot asked for with a T, and leaves the one asked for in the stored form as it was |
| TimeTravel.MorningShowsNoon | omni/memory/store.py:192-205 | one such text: "2024-05-01T09:00:00+00:00" shows what was written at 12:34:56.000789 that day |
| TimeTravel.NoonIsStored | omni/memory/store.py:225-242 | the stored text of that moment, written out |
| Moments.StoredOrder | omni/memory/store.py:225-242 | stored stamps compare as text in the order of the moments they stand for, with and without a fraction of a second |
| Moments.SeparatorOrder | omni/memory/store.py:192-201 | a text with a T sorts before a stored stamp exactly when its date is earlier |
| TimeTravel.SelectedIsLatest | omni/memory/store.py:182-186 | a row passes the correlated MAX(version) query exactly when it is the latest of its key and branch among the rows whose stored stamp the query lets pass |
| TimeTravel.CollectSelected | omni/memory/store.py:186-190 | the loop over the selected rows builds the map of every latest value |
| MemoryStores.MemoryStore.Insert | omni/memory/store.py:225-242 | the row is appended, provided its key, branch and version are free, and nothing else changes |
| MemoryStores.MemoryStore.WriteEntry | omni/memory/store.py:69-92 | a write appends the row the version log asks for and keeps the log |
| MemoryStores.MemoryStore.RollbackTo | omni/memory/store.py:136-151 | appends the copied row, or changes nothing where the source raises |
| MemoryStores.MemoryStore.BranchFrom | omni/memory/store.py:153-176 | appends version 1 with its provenance, or changes nothing where the source raises |
| MemoryStores.MemoryStore.DiffVersions | omni/memory/store.py:116-133 | the version defaults, the two reads and the diff between them |
| MemoryStores.MemoryStore.TakeSnapshot | omni/memory/store.py:179-190 | the map of every latest value |
| MemoryStores.MemoryStore.SnapshotAsOf | omni/memory/store.py:192-205 | the map of every latest value among the rows whose stored stamp is at most the given text, compared as text |
| DeepMerge.MergeDocs | omni/memory/fusion.py:27-35 | the loop that builds the merged dict computes the merge |
| DeepMerge.MergeIdempotent | omni/memory/fusion.py:27-35 | merging a document into itself changes nothing |
| DeepMerge.MergeAbsorbs | omni/memory/fusion.py:27-35 | merging the same override twice is merging it once |
| DeepMerge.MergeEmptyBase | omni/memory/fusion.py:27-35 | the empty document is a unit on the left |
| DeepMerge.MergeEmptyOverride | omni/memory/fusion.py:27-35 | the empty document is a unit on the right |
| DeepMerge.MergeLeaves | omni/memory/fusion.py:27-35 | path by path: the override's leaf where the override speaks, the base's everywhere else |
| DeepMerge.OverrideLeavesKept | omni/memory/fusion.py:28 | every leaf of the override survives |
| DeepMerge.CoversIffAbsorbed | omni/memory/fusion.py:31-34 | merging a under c gives c if and only if c covers every place a speaks of |
| DeepMerge.AssociativeIff | omni/memory/fusion.py:27-35 | merging is not associative in general; it is, for three given documents, if and only if nowhere does a value that is no object sit between two objects of which the later lacks some key of the earlier, at any depth |
| MergeFolds.RemergeIff | omni/memory/fusion.py:27-35 | putting the merge of three documents in the place of the middle one and merging again gives the same if and only if that condition holds |
| MergeFolds.SettledExactly | omni/memory/fusion.py:27-35 | for any number of later documents: putting the merge of all in the place of one and merging again gives the same if and only if no leaf of that one separates an object before it from objects after it that do not cover it; otherwise the two are not even equal under Python's == |
| MergeFolds.FoldAbsorbs | omni/memory/fusion.py:81-83 | merging a whole list of documents a second time changes nothing |
| MergeFolds.NumberSeparates | omni/memory/fusion.py:27-35 | a number between two objects with different keys: merging is not associative there, and merging the result in again changes it |
| DeepMerge.MergeAgain | omni/memory/fusion.py:27-35 | what was merged into a document absorbs that document again |
| Fusion.FusionSetsTargets | omni/memory/fusion.py:59-104 | after a fusion every key of a source branch has, on the target, a value equal under Python's == to the left fold of its entries in branch order, or to the newest entry |
| FusionResults.FusionLeavesResults | omni/memory/fusion.py:59-104 | in terms of the latest rows of the sources: the target gets, for the newest strategy, the value of a row stamped no earlier than any other and of no lower version where stamped together, and for merging a document in which the last row that speaks at a path decides it; under the fuser's name and reason, unless it held an equal value |
| FusionResults.EntriesAreLatest | omni/memory/fusion.py:64-75 | the entries of a key are the latest rows of the source branches that have it, one a branch, in the order the branches are first named |
| FusionResults.WinnerIsNewest | omni/memory/fusion.py:77 | no entry is stamped later than the winner, and none stamped together with it has a higher version |
| FusionResults.LastEntryDecides | omni/memory/fusion.py:81-83 | the last entry that speaks at a path decides what the merge has there |
| Json.PyEqualIsPlain | omni/memory/fusion.py:92 | Python's == holds exactly where two documents differ in nothing but the types of their numbers |
| Fusion.FusionTouchesNothingElse | omni/memory/fusion.py:59-104 | every branch other than the target, and on the target every key that no source has, keeps all its rows |
| Fusion.FusionOnlyAdds | omni/memory/fusion.py:59-104 | a fusion only adds rows, at most one a key, all on the target and stamped when they are added |
| Fusion.FusionIsIdempotent | omni/memory/fusion.py:59-104 | for every job and table, a second identical fusion appends nothing if and only if every key is settled: the target is no source, or the newest wins, or the target held nothing or already the value, or no leaf it held separates the branches named before it from those named after |
| Fusion.RepeatsUnlessAmid | omni/memory/fusion.py:59-104 | so a second fusion appends nothing for the newest strategy whatever the sources, and for merging where the target is no source or none is named after it |
| Fusion.NumberIsFusedTwice | omni/memory/fusion.py:59-104 | such a table: the target holds a number between two branches with objects, and the second fusion writes again |
| Fusion.TrueIsOne | omni/memory/fusion.py:91-93 | `True` and `1` under one key: the comparison that guards the write takes them for equal, and they are different documents |
| Fusion.Winner | omni/memory/fusion.py:77 | `max` over the entries in the order of time and version that `FusionResults.WinnerIsNewest` spells out |
| Fusion.WinnerIsFirst | omni/memory/fusion.py:77 | among entries of the same time and version the first one wins |
| Fuser.CollectedForKey | omni/memory/fusion.py:64-71 | what the dictionary keyed by branch and key holds for one key is that key's latest rows in the order of the branches, repeated branches counted once |
| Fuser.MemoryFuser.Fuse | omni/memory/fusion.py:59-104 | the whole fusion: the store ends as the specification says, and the report counts fused and unchanged keys and lists the decisions |
| Fuser.DecisionsAre | omni/memory/fusion.py:74-103 | one decision for each key, in the order of the keys |
| Fuser.DecisionNames | omni/memory/fusion.py:77-90 | a decision names the newest entry, whose value is the one written, or all entries of a merge |
| Fuser.MemoryFuser.Gather | omni/memory/fusion.py:64-71 | the loop over branches and their keys |
| Fuser.MemoryFuser.Decide | omni/memory/fusion.py:75-90 | the fused value of one key and the decision recorded for it |
| Fuser.MemoryFuser.FuseOne | omni/memory/fusion.py:91-104 | one key: nothing is written where the target already holds the value |
| PolicyWindows.SlidingWindowBound | omni/policy/engine.py:307-350 | once a limit is installed under its own name, in every run on a clock that never goes back, with nonnegative requests from principals with distinct groups, what is charged from then on to any scope the limit applies to within any interval of the window's length stays within it, in cost and in calls |
| PolicyWindows.BoundNeedsDistinctGroups | omni/policy/engine.py:347-348 | a principal that lists a group twice is charged twice: in a fresh engine, for a request that spends a group's whole limit, the bound holds if and only if the group is listed at most once |
| PolicyWindows.BoundIffDistinctGroups | omni/policy/engine.py:307-350 | for each principal: the bound holds for every limit installed in any state, every run of that principal's nonnegative requests on a clock that never goes back, and every interval, if and only if the principal lists no group twice |
| PolicyWindows.CheckedMeansFits | omni/policy/engine.py:307-341 | if the check allows, the usage in the window of every applicable limit plus what is asked fits it |
| PolicyWindows.ChargeKeepsBound | omni/policy/engine.py:221-260 | one allowed charge keeps the bound over every interval, whether it contains the charge or not |
| PolicyLimits.LimitsAllowExactly | omni/policy/engine.py:307-341 | the check allows if and only if every limit that governs one of the principal's scopes has room: what was charged there within the window that ends now, and nothing older, plus what is asked stays within its bound, in cost and in calls |
| PolicyLimits.SpentLimitsAreReleased | omni/policy/engine.py:322-326 | once all usage is older than the windows, only what is asked counts against the bounds |
| PolicyLimits.UsedIsCharged | omni/policy/engine.py:322-328 | a window counts exactly what was charged to its scope in the closed interval of its length that ends now |
| PolicyLimits.WindowsAre | omni/policy/engine.py:310-320 | the windows are each scope of the principal with each limit for it, of those with one id the last installed |
| PolicyLimits.ViolationsAre | omni/policy/engine.py:329-338 | the violations name exactly the governing limits without room |
| PolicyLimits.ReportIsPeak | omni/policy/engine.py:339-340 | the usage reported is the greatest over the windows checked, before it is rounded |
| PolicyLog.AllowedExactlyWhen | omni/policy/engine.py:157-260 | a request is allowed, or held for approval, exactly when not locked out, no rule denies it, and the first allowing rule of highest priority passes its risk gate and the limits |
| PolicyDecisions.DecisionIs | omni/policy/engine.py:157-260 | every decision and its reason, case by case: lockdown; the denying rule that counts; no rule; and for the allowing rule that counts its risk gate, the limits, the approval or the grant |
| PolicyDecisions.ChosenCounts | omni/policy/engine.py:176-196 | the rule found by filtering, sorting and taking the first is the earliest installed of highest priority among those with the effect that cover the request; none is found only if there is none |
| PolicyDecisions.MatchesExactly | omni/policy/engine.py:298-305 | a rule covers a request if its pattern names the action, it shares a role and a group with the principal where it lists any, and all its conditions hold |
| PolicyDecisions.StarMatchesPrefix | omni/policy/engine.py:106-118 | a pattern that ends in a star matches exactly the actions that start with the rest of it |
| PolicyDecisions.RunAllowsProperly | omni/policy/engine.py:157-286 | in every run an entry of the log allows if and only if it was granted at once or approved |
| PolicyDecisions.ApprovedExactlyWhen | omni/policy/engine.py:263-286 | an approval succeeds exactly for a pending id and an accepted role; a rejected request stays pending, and nothing is charged |
| PolicyDecisions.ChargedExactlyWhen | omni/policy/engine.py:343-350 | a request is charged unless it has neither a positive cost nor a call: once for each group it lists, for the principal and globally |
| PolicyLog.FirstMeansChosen | omni/policy/engine.py:176-196 | taking the first of the matching rules sorted by priority is choosing the earliest installed among those of greatest priority |
| PolicyLog.LogOnlyGrows | omni/policy/engine.py:352-354 | earlier decisions never change |
| PolicyLog.ApplyLogs | omni/policy/engine.py:157-286 | each evaluation, and each approval of a known id, appends exactly one entry |
| PolicyDecisions.StepExactly | omni/policy/engine.py:137-286 | what each step leaves of rules, limits, lockdown, log, pending requests and usage |
| PolicyLog.RunKeepsHistory | omni/policy/engine.py:233-286 | in every run with fresh ids, an id is pending if and only if it has a pending entry and no approved one; no id is approved twice; each approval comes after its request and by a role the request accepts |
| PolicyLog.UsageIsAllowedRequests | omni/policy/engine.py:250-286 | global usage corresponds one to one, in order, to the directly allowed requests that cost something |
| PolicyEngines.PolicyEngine.EvaluateRequest | omni/policy/engine.py:157-260 | the decision, the new log, the pending table and the usage are those of the specification |
| PolicyEngines.PolicyEngine.ApproveDecision | omni/policy/engine.py:263-286 | approval, rejection for lack of a role, and the unknown id |
| PolicyEngines.PolicyEngine.InstallRule | omni/policy/engine.py:137-140 | the rule is appended and nothing else changes |
| PolicyEngines.PolicyEngine.InstallLimit | omni/policy/engine.py:142-145 | the limit is appended and nothing else changes |
| PolicyEngines.PolicyEngine.Lock | omni/policy/engine.py:147-151 | lockdown is set and nothing else changes |
| PolicyEngines.PolicyEngine.CheckLimits | omni/policy/engine.py:307-341 | the loop over the windows |
| PolicyEngines.PolicyEngine.RecordUsage | omni/policy/engine.py:343-350 | one entry per group, one for the principal, one global; none for a request that costs nothing |
| PolicyEngines.PolicyEngine.MatchingRules | omni/policy/engine.py:176-180 | the matching rules, those of higher priority first, and those of equal priority in the order of installation |
| PolicyEngines.PolicyEngine.FindEffect | omni/policy/engine.py:181-196 | the first rule with an effect |
| Accounting.RunKeepsAccounts | omni/orchestrator/engine.py:145-211 | in every run of register, submit, assign, complete, fail, heartbeat and balance, for all three strategies, each agent's queue depth is the number of ASSIGNED tasks naming it, and each ASSIGNED task's assignee is registered and has all its required skills |
| Assignments.AssignExactly | omni/orchestrator/engine.py:154-179 | `assign`, in full: the unknown task, the task that is not queued, and the queued one, which goes to the first agent of least burden that can take it, or to none if none can |
| Assignments.SubmitExactly | omni/orchestrator/engine.py:145-152 | `submit`, in full: the task comes last in the table, or takes the place of one with its id |
| Assignments.LighterScoresHigher | omni/orchestrator/engine.py:33-52 | of two agents with the skills the one with less load and queue, less spend, or a shorter queue scores higher, by strategy |
| Assignments.ScoreIs | omni/orchestrator/engine.py:33-52 | the value of every score: what load and queue, spend, or queue leave of one, plus a hundredth for each step of priority under the balanced strategy; -1 without the skills |
| Assignments.EligibleExactly | omni/orchestrator/engine.py:33-52 | who can take a task: a running agent with its skills, and under the balanced strategy only while load and queue leave room for the priority |
| Assignments.FinishExactly | omni/orchestrator/engine.py:181-211 | `complete` and `fail`, in full: status, result, and the named agent relieved of a task and a tenth of load, and charged |
| Assignments.BeatExactly | omni/orchestrator/engine.py:118-130 | `heartbeat`, in full: the load brought between zero and one, and what is not given stays |
| Accounting.FinishKeepsExactly | omni/orchestrator/engine.py:181-211 | completing or failing a task keeps those accounts if and only if the task was ASSIGNED, or names no registered agent with work |
| Accounting.CompletingTwice | omni/orchestrator/engine.py:181-211 | completing an assigned task a second time keeps the accounts if and only if its agent held no other task |
| Accounting.RunBreaksAccounts | omni/orchestrator/engine.py:145-211 | a run from the empty pool, under every strategy: two tasks on one agent, the first completed twice, and the accounts no longer hold |
| Accounting.AssignKeeps | omni/orchestrator/engine.py:154-179 | one assignment keeps the accounts |
| Accounting.BalanceKeeps | omni/orchestrator/engine.py:279-312 | one balancing call keeps the accounts, at any thresholds |
| BalanceProgress.BalanceMakesProgress | omni/orchestrator/engine.py:279-312 | at the default thresholds: at most three moves, total load unchanged, and the sum of squared loads lower by at least 0.1 whenever anything moved |
| BalanceProgress.BalancingSettles | omni/orchestrator/engine.py:279-312 | no more than ten times the initial sum of squared loads of consecutive calls can move anything |
| BalanceProgress.BalanceOnlyRehomes | omni/orchestrator/engine.py:279-312 | balancing never creates, drops or finishes a task: it changes assignees only |
| BalanceMoves.BalancingTriesInTurn | omni/orchestrator/engine.py:279-312 | at any thresholds of which the upper is the greater, one call comes to trying one list that is fixed when it starts: the ASSIGNED tasks of the overloaded agents, agent by agent and task by task, each to the least loaded of the agents then underloaded, until three were moved |
| BalanceMoves.ThreeMoveIfTheyCan | omni/orchestrator/engine.py:279-312 | at the default thresholds, where every underloaded agent can take every such task, even after those the call may give it before, the number of moves is the number of such tasks, up to three |
| BalanceProgress.MoveEffect | omni/orchestrator/engine.py:302-308 | one move between agents far enough apart fires neither clamp and changes the potential by exactly -0.2 times the difference plus 0.02 |
| BalanceProgress.MoveExactly | omni/orchestrator/engine.py:302-308 | one move, whatever the loads: a tenth of load and a place in the queue go over, the loads kept between zero and one, and the task names its new agent |
| Orchestrator.Best | omni/orchestrator/engine.py:161-170 | the chosen agent is eligible, none scores higher, none before it scores as high; none is chosen only if none is eligible |
| Orchestrator.LeastLoaded | omni/orchestrator/engine.py:300 | `min` by load: no underloaded agent has less |
| Orchestrator.LeastLoadedIsFirst | omni/orchestrator/engine.py:300 | among agents of the same load the first one is chosen |
| MetaOrchestrators.MetaOrchestrator.AssignTask | omni/orchestrator/engine.py:154-179 | the two updates of the chosen agent and task, or none where no agent is eligible |
| MetaOrchestrators.MetaOrchestrator.PickAgent | omni/orchestrator/engine.py:161-170 | the arg-max loop finds the first eligible agent of greatest score |
| MetaOrchestrators.MetaOrchestrator.Finish | omni/orchestrator/engine.py:181-211 | completion and failure: status, result, and the release of the assignee |
| MetaOrchestrators.MetaOrchestrator.BeatAgent | omni/orchestrator/engine.py:118-130 | a heartbeat clamps the load and sets what it is given |
| MetaOrchestrators.MetaOrchestrator.BalanceLoad | omni/orchestrator/engine.py:279-312 | the loops over overloaded agents and tasks compute the specified moves and state |
| MetaOrchestrators.MetaOrchestrator.TryTask | omni/orchestrator/engine.py:296-311 | one round of the inner loop: one task is moved to the least loaded agent, or nothing changes |
| Runner.SetUpAssigns | omni/agents/runner.py:175-209 | the agent `_setup` reports is the one the new task is assigned to, on both paths |
| Runner.SetUpExactly | omni/agents/runner.py:175-209 | the pool after `_setup`, in full: the first agent of least burden that can take the task has it, or exactly if there is none a new worker with the skills asked for |
| Runner.FallbackWins | omni/agents/runner.py:189-199 | where no agent scored, the fresh worker is the one the second `assign` picks |
| Runner.RunConserves | omni/agents/runner.py:211-259 | a call restores every queue depth if and only if it ends in an answer or a provider error, and then its task is COMPLETED or FAILED |
| Runner.RunLeaves | omni/agents/runner.py:211-259 | the task a call leaves last in the table, with its assignee, status, and the answer or error as its result |
| Runner.AgentRunner.RunCall | omni/agents/runner.py:211-259 | the whole call against the orchestrator: denial, set-up, answer, error, crash |
| Runner.AgentRunner.Prepare | omni/agents/runner.py:175-209 | submission, assignment and the fallback worker |
| DryRunLaws.CleanExactlyWhenItFits | omni/simulation/runner.py:138-256 | a verdict is clean if and only if step count, every running total of durations, effect count, errors and allow-list fit; a clean run logs exactly all effects of all steps in order |
| DryRunLaws.CleanByTotals | omni/simulation/runner.py:138-256 | with nonnegative durations and budgets the final totals decide |
| DryRunLaws.LogIsAccounted | omni/simulation/runner.py:203-214 | in every run the effect count is the growth of the log, is within the budget, and every logged effect is allowed |
| DryRunLaws.OneRowPerStep | omni/simulation/runner.py:159-230 | one result row per step unless the timeout ends the loop early |
| DryRunRows.ReportTells | omni/simulation/runner.py:138-256 | the whole report, read off its rows: each row is what its step, the budgets and the rows before it say; the verdict is has_failures if a row failed, else budget_exceeded if a row was skipped, else clean; the log, the clock, the rejected effects and the reasons are those of the rows; the rows end early only at a timeout |
| DryRunLaws.LargerBudgetsExtend | omni/simulation/runner.py:138-230 | two runs of one plan: with budgets at least as large the log extends the other's, and the rows of all steps completed before the smaller budgets were hit are the same; if none was hit the runs are the same |
| DryRun.DryRunExecutor.Execute | omni/simulation/runner.py:138-256 | the loop over the steps, the counters and the verdict |
| DryRun.DryRunExecutor.RunEffects | omni/simulation/runner.py:200-230 | one step's effects under the effect budget: partial application and the skipped rest |
| DryRun.DryRunExecutor.ApplyEffects | omni/simulation/runner.py:203-214 | the inner loop: effects are recorded in order while the budget lasts |
| DryRun.NoopEffectBackend.ApplyEffect | omni/simulation/runner.py:55-58 | the backend appends one entry |
| ConfigPaths.SetThenGet | omni/evolution/executor.py:36-54 | what was written at a dotted path is what is read there |
| ConfigPaths.SetElsewhere | omni/evolution/executor.py:36-54 | a write leaves every incomparable path as it was, even when it replaces scalars on its way |
| ConfigPaths.SetTwice | omni/evolution/executor.py:45-54 | the last of two writes to a path wins |
| ConfigPaths.SetSame | omni/evolution/executor.py:45-54 | writing back what is there changes nothing |
| ConfigPaths.SetsCommute | omni/evolution/executor.py:45-54 | writes to incomparable paths commute |
| ConfigPaths.AbsentReadsNull | omni/evolution/executor.py:36-42 | a path that leads nowhere reads as null |
| ConfigPaths.GetDotted | omni/evolution/executor.py:36-42 | the loop down the path |
| Evolution.UndoExactlyWhenPresent | omni/evolution/executor.py:124-201 | a mutation with prefix-free paths is undone by its record if and only if every path was present before it |
| Evolution.StackRestores | omni/evolution/executor.py:124-201 | applying any stack of mutations, each with prefix-free and present paths, and reverting them last first restores the configuration tree exactly |
| Evolution.AssignedHolds | omni/evolution/executor.py:127-132 | after a mutation with prefix-free paths every path holds the value it was given |
| Evolution.UntouchedHolds | omni/evolution/executor.py:127-132 | for any mutation, a path holds the value it was given where no later path of it is a prefix of that path or goes on from it |
| Evolution.AssignedElsewhere | omni/evolution/executor.py:127-132 | a mutation leaves every path apart from its own paths as it was, there or missing |
| Evolution.RecordTells | omni/evolution/executor.py:124-132 | a record holds, path by path, what was there before and what was assigned |
| Evolution.PromptIsKept | omni/evolution/executor.py:134-150 | a prompt mutation without a memory store puts the template under "prompts" and its task type, and changes nothing apart from there |
| Evolution.SetsAreKept | omni/evolution/executor.py:126-132 | after a mutation of routing or orchestrator_config every path of the request holds its value, and the paths apart from them stay |
| Evolution.RevertOnce | omni/evolution/executor.py:172-201 | reverting an already reverted mutation, or an unknown one, changes nothing |
| Evolution.RevertExactly | omni/evolution/executor.py:172-201 | a revert, in full: every path of the record holds what it held before, every path apart from them stays, and only this record is marked |
| Evolution.EvolutionExecutor.ApplyMutation | omni/evolution/executor.py:95-132 | the refusals in their order, the captured values, the writes and the record |
| Evolution.EvolutionExecutor.RevertMutation | omni/evolution/executor.py:172-201 | the record found, its values written back once, its status |
| Leases.LeasesExclude | omni/fleet/storage.py:167-185 | of two grants of one task the earlier has run out before the later begins, so no moment lies in both: on a clock that never goes back, and on any clock if no lease is asked for a negative time |
| Leases.NoTaskIsLost | omni/fleet/storage.py:157-185 | the table holds exactly the submitted payloads, in order, after any enqueues and leases |
| Leases.SmallestIdWins | omni/fleet/storage.py:172-180 | a lease hands out one task whenever any is available, and none available has a smaller id |
| Leases.LeaseExactly | omni/fleet/storage.py:167-185 | a lease, in full: the first available row is leased to the node until its time is up and granted as such, or nothing happens if none is available |
| Leases.UnexpiredIsFifo | omni/fleet/storage.py:67-76 | as long as every lease lasts until each later one is asked for, the table hands out the same tasks in the same order as the in-memory list, and keeps the same ones waiting |
| Leases.FifoExactlyWhen | omni/fleet/storage.py:67-76 | the table hands out the same tasks in the same order as the in-memory list and keeps the same ones waiting, if and only if no lease is asked for while some leased row has run out |
| Leases.GrantedOnceExactlyWhen | omni/fleet/storage.py:167-185 | every task is granted at most once if and only if no lease is asked for while some leased row has run out |
| Leases.ExpiredIsHandedAgain | omni/fleet/storage.py:177 | and that condition is needed: one expired lease makes the two differ |
| Leases.PickIsFirst | omni/fleet/storage.py:175-179 | the row the subquery selects is the only one that is available with none available before it |
| FleetNodes.PostgresFleetStorage.LeaseTask | omni/fleet/storage.py:167-185 | the update of one row, and the returned document, in which an id inside the payload hides the id of the row; where the driver already parses JSONB, the row is leased and the call then raises |
| FleetNodes.PostgresFleetStorage.SelectFirst | omni/fleet/storage.py:175-179 | the scan for the first available row |
| FleetNodes.PostgresFleetStorage.Enqueue | omni/fleet/storage.py:157-165 | the inserted row and the returned document |
| FleetNodes.Labelled | omni/fleet/storage.py:185 | `{"id": ..., **payload}` keeps every entry of the payload, and shows the id of the row if the payload has none |
| FleetNodes.DecimalReads | omni/fleet/storage.py:165-185 | the id is written in decimal digits without leading zeros, and they read as the number |
| FleetNodes.InMemoryFleetStorage.LeaseTask | omni/fleet/storage.py:72-76 | the head of the list, whoever asks and for however long |
| FleetNodes.InMemoryFleetStorage.Announce | omni/fleet/storage.py:58-61 | the announcement replaces the node's earlier one in place, or is added |
| FleetNodes.PlacedInPlace | omni/fleet/storage.py:58-61 | a known node keeps its place in the list, a new one comes last |
| FleetNodes.InMemoryFleetStorage.SetLeader | omni/fleet/storage.py:49-52 | the stored leader |
| FleetNodes.FleetNode.CallElection | omni/fleet/node.py:63-80 | an election: the announcement, the stored leader and the answer are those of the specification |
| FleetNodes.FleetNode.AdoptTask | omni/fleet/node.py:103-108 | a lease under the node's id |
| Election.Best | omni/fleet/node.py:72 | `max` over the candidates: none other is ahead of it in the order `Election.WinnerIsGreatest` spells out |
| Election.BestIsWinner | omni/fleet/node.py:72 | whatever order the registry is listed in, its best candidate is the one winner of the registry |
| Election.WinnerIsGreatest | omni/fleet/node.py:72 | winning is having the greatest capacity, and among those with it the greatest id |
| Election.ElectExactly | omni/fleet/node.py:63-80 | an election, in full: the announcement; the winner becomes the stored leader of the next term if it is the caller; else nothing is stored and the answer names it, with its stored term or 0 |
| Election.WinnerIsUnique | omni/fleet/node.py:64 | a registry has at most one winner |
| Election.OneLeaderPerTerm | omni/fleet/node.py:73-76 | in every run the stored elections have the terms 1, 2, 3, ...: a term has one leader, and none is above the stored term |
| Election.LeadersOnlyClimb | omni/fleet/node.py:63-80 | the stored leader never changes to a node of lower capacity, or of equal capacity and lower id |
| Election.ElectionConverges | omni/fleet/node.py:63-80 | once every member has been heard from and the one of highest rank has called `elect`, no later announcements and elections change who leads, and every member that asks is told the leader and the term that are stored |
| Election.OnlyTheChampionLeads | omni/fleet/node.py:82-84 | from then on the one of highest rank is the only member that `is_leader` answers yes to |
| Election.ElectionIsStable | omni/fleet/node.py:63-80 | the same from any settled state |
| Election.TermZeroExactlyWhen | omni/fleet/node.py:79 | a caller is told term 0 exactly when the winner is another node that is not the stored leader |
| Trend.TrendLaw | omni/learning/aggregate.py:24-36 | every trend lies between -1 and 1, is not negative where the series never falls and not positive where it never rises |
| Trend.TrendOfLine | omni/learning/aggregate.py:24-36 | a series that changes by the same amount each time has that amount, relative to its mean or to 0.01, as its trend, brought between -1 and 1 and rounded; fewer than three values have none |
| Trend.TrendExactly | omni/learning/aggregate.py:24-36 | of any series of three or more values: the slope relative to the mean or to 0.01, brought between -1 and 1 and rounded |
| Trend.TrendReversed | omni/learning/aggregate.py:24-36 | reading a series backwards negates its trend |
| Trend.StrictSlope | omni/learning/aggregate.py:35 | before rounding, a monotone series of three or more values whose ends differ has a slope of the matching strict sign |
| Trend.SlopeIsLeastSquares | omni/learning/aggregate.py:35 | the slope is the least-squares slope: the line through the means with it has a strictly smaller squared error than any other line |
| Trend.SpreadIsPositive | omni/learning/aggregate.py:32-34 | from two values on the denominator is positive, so the early return for zero is never taken |
| Trend.CrossIsLean | omni/learning/aggregate.py:35 | twice the numerator is the sum of all differences of a later and an earlier value |
| Trend.Round4Bounds | omni/learning/aggregate.py:36 | rounding to four digits moves a value by at most half a unit and keeps sign and range |
| Trend.Round4Exactly | omni/learning/aggregate.py:36 | rounding gives a multiple of 0.0001 at most half a unit away, the even one of two equally far |
| Catalogs.RunKeepsVersionOrder | omni/marketplace/catalog.py:25-63 | in every run of publish and sync the versions of every skill ascend strictly and `latest_version` is the last of them |
| Catalogs.PublishedSkill | omni/marketplace/catalog.py:25-63 | publishing changes the versions of the skill of that name only, and succeeds exactly when the version is newer |
| Catalogs.PublishExactly | omni/marketplace/catalog.py:25-63 | `publish`, in full: every field of the manifest it creates or refreshes, the release it appends exactly if newer, and no other manifest changed |
| Catalogs.Find | omni/marketplace/catalog.py:37 | the first manifest of that name |
| Catalogs.SyncAddsTheNewer | omni/marketplace/remote.py:81-117 | a sync leaves the old versions in front, adds for every version number above the old latest the first remote entry with it, and nothing else, in strictly ascending order |
| Catalogs.SyncSucceedsExactlyWhen | omni/marketplace/remote.py:112-113 | a sync succeeds exactly when the manifest names a known kind and offers some number above the latest version |
| Catalogs.SyncStamps | omni/marketplace/remote.py:107-117 | a sync marks the named manifest with its source and time exactly if it succeeds, and touches no other manifest |
| Catalogs.EmptyManifestsAreRefused | omni/marketplace/remote.py:84-89 | a manifest without a name or without versions is refused before anything happens |
| Catalogs.SyncAgainFindsNothing | omni/marketplace/remote.py:81-117 | syncing the same manifest again leaves every version list as it is and reports nothing new |
| Catalogs.PulledAllSkill | omni/marketplace/remote.py:91-113 | the loop offers the sorted entries to the named skill, leaves every other skill's versions alone, and published something exactly when the versions grew |
| Releases.SyncTakesTheNewer | omni/marketplace/remote.py:92-113 | the same for the list of one skill's versions: what is taken, in the order of the remote manifest |
| Releases.TakesTheNewer | omni/marketplace/remote.py:92-113 | offered in ascending order, a skill takes exactly the first entry of every number above its latest |
| Releases.SortSorts | omni/marketplace/remote.py:92 | `sorted` by `_version_key` is ascending |
| Releases.SortKeepsFirst | omni/marketplace/remote.py:92 | and stable: the first entry with a given number stays the first |
| Releases.AddedInOrder | omni/marketplace/catalog.py:57-63 | accepting a newer version keeps the order |
| Releases.NewerExactlyWhen | omni/marketplace/catalog.py:57-63 | a version is newer exactly if both can be read and the first part that differs is greater, or the latest ends there |
| Releases.MissingSortsAsZero | omni/marketplace/remote.py:92 | an entry without a version is sorted as three zeros |
| Versions.NoVersionIsZero | omni/marketplace/catalog.py:157-159 | "0.0.0" is read as three zeros |
| Versions.VersionIsRead | omni/marketplace/catalog.py:157-159 | a version is read as its first three parts in their order, and cannot be read exactly if one of them is no integer |
| Versions.PartsJoin | omni/marketplace/catalog.py:159 | the parts are the text between the dots: joined they give it back |
| Versions.BelowIsFirstDifference | omni/marketplace/catalog.py:58 | the first part that differs decides, from the left; a proper prefix is lower |
| Versions.BelowTotal | omni/marketplace/catalog.py:58 | any two tuples of integers are comparable in the lexicographic order |
| Versions.BelowTransitive | omni/marketplace/catalog.py:58 | and that order is transitive |
| Marketplace.SkillCatalog.Publish | omni/marketplace/catalog.py:25-63 | the manifest is entered or refreshed even where the version is then refused |
| Marketplace.SkillCatalog.Enter | omni/marketplace/catalog.py:36-54 | a new manifest, or the refreshed description, kind, author and tags |
| Marketplace.SkillCatalog.AddVersion | omni/marketplace/catalog.py:57-63 | the version is appended exactly when it is newer |
| Marketplace.RemoteSkillRegistry.SyncManifest | omni/marketplace/remote.py:81-117 | the refusals, the loop, and the time recorded for a successful sync |
| Marketplace.RemoteSkillRegistry.PullEntries | omni/marketplace/remote.py:92-110 | the loop over the sorted entries |
| Marketplace.RemoteSkillRegistry.RegisterSource | omni/marketplace/remote.py:63-66 | a source is kept once |

## Left out

- Routes, sockets, dashboard, command line, SDK, deployment, prompts and providers: plumbing.
- SQL text, JSON encoding, the hash itself, locks and connections.
- Dotted and bracketed path text: paths are lists of steps, so a key that contains a dot or a bracket is not confused with two steps, as it is in the source.
- Text of reasons, violations and notes: structured values instead.
- Rounding of reported costs and the float overflow or underflow of any sum: floats are reals.
- Aliasing of nested dictionaries: `_set_dotted`, stored values and records are values, so in-place update below the root and sharing between a record and the configuration are not captured.
- Agents and tasks are values in sequences that the orchestrator replaces, not objects shared with callers.
- The attribute conditions of `_eval_condition` and `_compare`: any evaluator is allowed.
- Listing order of the audit methods, `history`, `decision_log` and the reports.
- The audit ledger, the event bus, the arrival rate, spawning, idle termination, model choice and workload statistics: easy members only.
- Termination of agents that hold work: `terminate_idle` is not a step of the orchestrator runs.
- `run_stream`, and the memory write between the answer and the completion of a call.
- Mutations of prompts and of the memory layout; only the configuration targets and the refusals before them.
- Snapshots are one map from key and branch to value rather than a map of maps.
- The leader and node tables of Postgres: elections are modelled on the registry and the stored leader, for any order in which the nodes are listed.
- Elections whose read and write of the leader interleave: each `elect` is one step, and the code does not give unique terms otherwise.
- `FOR UPDATE SKIP LOCKED`: each lease is one step, so no row is locked when it runs.
- Skills' ids, installs, ratings, search, recommendation, export, and `import_manifest`, which accepts equal versions and so breaks the strict order.
- Malformed remote manifests: an interface that does not validate raises when its entry is reached, after the entries sorted before it were published; a version that is present but null raises in the sort, before anything is published.
- `Versions.Materialize` takes Python's `int` as a parameter that reads "0" as zero; nothing else is asked of it.
- Trends over fields of evaluations and their averages; only `_trend` itself.
- Dates that no calendar has: a moment may have 31 days in any month, so the laws cover more moments than `datetime` has.
- What moment a text stands for that is not a stored form, a date with a T, or a date and a time to the second with a space: `TimeTravel.TimeTravelIsFaithful`, and for a date and a space `TimeTravel.SpaceFormShows`, cover such texts as texts.
- `nodes()` of the Postgres storage, which parses JSONB columns like `lease_task` does.
