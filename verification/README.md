# Proofs about lftpweb

lftpweb mirrors a seedbox's completed downloads to a local disk, hands them to Sonarr and Radarr
(the *arr applications), and in the end removes both copies. What it remembers about each item lives
for days across polls, scans and restarts, and the deletions at the end cannot be taken back. This
project models the parts of the backend on which that depends and proves what they keep.

All modules verify together with Dafny 4.11: `dafny verify dfyconfig.toml`.

## The *arr association

The poller takes each item through a ladder: detected in the *arr's queue, notified, imported (or
dropped, or gone), cleaned.

- `ArrLifecycle` has the rows, the five in-memory guards and every turn a pass can give an item, each
  as the sequence of steps it takes. `Outside` turns are what other components write to the same rows.
- `ArrStory` folds a trail of steps into what it says of one item, and says which step may follow
  which trail. A turn takes only permitted steps, and permitted steps keep rows, guards and trail in
  agreement.
- `ArrSafety` plays any turns in any order with any answers, and reads the safety properties off the
  trails such runs leave. `ArrOutcomes` gives each turn's result in closed form.
- `ArrVerdicts` says what each turn decides after any run, with the guards read off the trail.
- `ArrMatching` is the matching of queue records to items, `ArrPass` one pass as a function of the
  world before it, `ArrDuties` what every pass must do for which items, and `ArrScheduler` the poller
  itself: a class whose methods update the rows and guards in place, ending with `ProcessQueue`, which is
  proved equal to that function.
- `RetryBackoff`, `Preflight`, `PathNamespace` and `ArrClient` are the backoff of an unreachable
  instance, the attribution of releases that have not arrived yet, the translation of paths into the
  *arr's namespace, and the reads from its API. A download could call a file truncated that is not, if
  an empty chunk followed on a spent budget; the HTTP client never yields an empty chunk, so a real
  stream does not get there (`TruncatedMeansLongerExactlyWhen`).
- `ArrFetched` is about the one phase where it matters that a pass fetches its rows first. An item is
  cleaned by its row as it was before other items were cleaned, so a debt recorded in between is
  overlooked and the local copy goes before the source (`LateDebtIsOverlooked`).
- `ArrDebts` says when an imported item's source debt can still be paid. An item that owes its source is
  not cleaned, and there are three ways for it to owe for good, each with a run or a switch that leads
  there. Nothing ever clears `remote_deleted_at`, so the debt of a second release under the same path is
  never paid (`SecondReleaseGetsStuck`). Taking a queue out of move mode leaves the debts recorded before
  where they are (`ModeSwitchGetsStuck`). And five failing sweeps pause the sweep for as long as the
  process lives (`PausedSweepGetsStuck`). `DebtIsPaidExactlyWhen` is the exact condition.

## The scan engine

- `EngineSchedule` has the two clocks of every queue and a log of the scans they bring about. The
  clocks always read what the log says, so spacing is proved of logs, for queue lists and settings
  that change from pass to pass; `CadenceFollowsTheSetting` is the statement for settings that do not.
  A site default of zero or less is passed on as an interval, unlike a queue's own setting, and then
  the loop can scan again at once, without limit (`ZeroDefaultSpins`). `EngineDuties` says which event each
  queue is owed in a pass, and that it gets just that.
- `Absence`, `PathOrder` and `VanishedSweep` model the rows that left both trees. The sweep asks of a
  spent archive whether its release is still shown while it is still deciding which releases are;
  `Swept` describes the outcome without any order, and the sorted loop reaches it. `SweptRows` says where
  each vanished row rests, by the row as it was.
- `ScanPersist` is the pass as a whole, as a class over the item and settle tables, with a history of
  what each pass and each other writer wrote. Two writes put an item at DOWNLOADED without a
  completion time; `CorrectionGoesUnstamped` and `CleanedRowGoesUnstamped` say exactly when. The settle
  gate asks for two matching scans, but a partial scan that is the first to see an item counts as one of
  them (`PartialSightingCounts`). The registry of spent archives is part of the tables: `ArchiveCleanup`
  records in it and passes purge it. `ScanOutcome` says what a pass leaves in each row, found or missing,
  without the rules that arbitrate.
- `EventBus` and `LiveModel` are the stream to the browsers. The bus's documentation says that a
  dropped message is recovered by the next one. It is not: messages are row differences, and the code
  is modelled as it is. `CaughtUpClientEqualsTheModel` holds for a connection that lost nothing, and
  `OverflowLosesARow`, `DroppingIsHarmlessExactlyWhen` and `ScanRepairsExactlyWhen` say what is lost
  otherwise. Rows that other components push to the browsers themselves, and rows of a scan that is
  stored and then fails before it is published, can go wrong without any loss; they are tracked as
  `stray`, and `PushedRowGoesAstray` and `AbandonedRowGoesAstray` are runs in which they do.
- `LivePage` says which rows a page shows, by the scans stored and published and the rows deleted since.

## Smaller algorithms

`LogTail` reads the last lines of a file backwards. `Throughput` walks traffic buckets and `DayGroups`
sums days into weeks and months. `LoginLimiter` limits failed logins; its bucket is related to the full
history it does not keep. `ArchiveCleanup` removes spent volumes, and `PathBrowse` walks up to a
directory that can be listed. `Paths` relates the source's string tests on paths to their components.

## Model

| member | source | states |
|---|---|---|
| ArrSafety.EveryRunIsTruthful | backend/lftpweb/core/arrsync.py:1017-1090 | From any rows a process finds, after any turns with any answers and any writes by others, the trail is sound and rows and guards read what the trail says |
| ArrSafety.TurnKeepsTruth | backend/lftpweb/core/arrsync.py:1017-1090 | No turn, and no other writer, breaks that agreement |
| ArrSafety.SourceDeletesFollowImport | backend/lftpweb/core/arrsync.py:1777-1857 | A remote source is only touched while the item is imported or cleaned with a debt open and the source not yet gone, and that status goes back to an import commit with an import event in hand or to the starting row, with nothing but a cleanup in between |
| ArrSafety.ImportCommitsHaveEvidence | backend/lftpweb/core/arrsync.py:1645-1731 | The step before an import commit is the check, recheck or lookup behind it: it saw at least one import event, and the history whose length the commit announces is no shorter than what it saw |
| ArrSafety.SourceIsDeletedAtMostOnce | backend/lftpweb/core/arrsync.py:1777-1857 | Once a source is gone no delete of it is even attempted again |
| ArrSafety.LocalRemovalIsLast | backend/lftpweb/core/arrsync.py:1167-1295 | Local bytes go only for an imported, not corrupt, idle item that owes no source delete; suppression is the step before; every debt recorded earlier, or on the row the process started with, was paid by a delete or dropped earlier |
| ArrSafety.LateDebtBlocksCleanup | backend/lftpweb/core/arrsync.py:1167-1295 | A debt recorded when the source is already gone, by this process or before it, is never paid and keeps the item from being cleaned |
| ArrDebts.DebtIsPaidExactlyWhen | backend/lftpweb/core/arrsync.py:1777-1938 | For an imported item with a debt some run of the poller pays it exactly when the queue is in move mode, the process can delete, the source is there, and the sweep has not been paused |
| ArrDebts.SweepCanPayExactlyWhen | backend/lftpweb/core/arrsync.py:1893-1938 | One sweep can pay a debt, under some setting, exactly when the source is there and the sweep has not been paused |
| ArrDebts.StuckForGood | backend/lftpweb/core/arrsync.py:1167-1295 | Otherwise every run of the poller leaves the item imported, owing and not suppressed anew |
| ArrDebts.SecondReleaseGetsStuck | backend/lftpweb/core/arrsync.py:1777-1857 | A run that deletes a source, cleans the item, meets its release again and ends with a debt no run pays |
| ArrDebts.ModeSwitchGetsStuck | backend/lftpweb/core/arrsync.py:1810-1812 | A debt that could be paid in move mode cannot be once the queue is taken out of it |
| ArrDebts.PausedSweepGetsStuck | backend/lftpweb/core/arrsync.py:1893-1938 | Five failing sweeps lead to a debt no further run of the process pays, with the source still there |
| ArrFetched.FetchedRowIsEnoughExactlyWhen | backend/lftpweb/core/arrsync.py:1083-1088 | A cleanup goes by a row fetched before other items were cleaned; it removes only bytes it may remove exactly unless that row could be cleaned and, meanwhile, others recorded a debt that was not dropped, or last edited the row to corrupt, or removed it |
| ArrFetched.FetchedRowGivesTheSameTurn | backend/lftpweb/core/arrsync.py:1083-1088 | Otherwise the cleanup takes just the steps it would take by the row as it now stands |
| ArrFetched.LateDebtIsOverlooked | backend/lftpweb/core/arrsync.py:1167-1295 | A run in which one item's debt is recorded while another's bytes are removed, and its own local bytes go all the same |
| ArrFetched.OwedItemIsCleaned | backend/lftpweb/core/arrsync.py:1167-1295 | The item then reads as cleaned with its source still owed, and the sweep will still take it up |
| ArrSafety.RowsAreAddedOnce | backend/lftpweb/core/arrsync.py:1017-1090 | No row is inserted under an id that some earlier step concerned, so a trail never mixes two items |
| ArrSafety.PendingRefinesHistory | backend/lftpweb/core/arrsync.py:515-532 | In every run the pending map holds exactly the verdict of the last completed check, unless it was used up or the queue still held the record |
| ArrSafety.LeavesExactlyWhenTwoChecksAgree | backend/lftpweb/core/arrsync.py:1556-1643 | A detected or notified item leaves for imported or dropped exactly when its last two completed checks agree on verdict and download id, with no check between them that found it in the queue |
| ArrSafety.RematchNeedsTwoFreshChecks | backend/lftpweb/core/arrsync.py:1359-1396 | A match finds no verdict pending, so what was seen of the earlier download never counts |
| ArrSafety.GoneNeedsSixQuietHours | backend/lftpweb/core/arrsync.py:1735-1773 | An item goes to gone only after it has stayed dropped for six hours and no lookup since showed an import |
| ArrSafety.BudgetsHold | backend/lftpweb/core/arrsync.py:556-566 | In every run: at most five failing sweeps in a row, ten fruitless lookups and five polls of a command; a budget of sweeps or lookups that is used up has been announced exactly once, any other not at all |
| ArrSafety.SweepRespectsBudgetAndDelay | backend/lftpweb/core/arrsync.py:1893-1935 | A stranded source delete is retried only below budget, never after its pause, and only after the delay its failures call for |
| ArrSafety.HealRespectsBudgetAndDelay | backend/lftpweb/core/arrsync.py:1964-2017 | The same for the lookups for a stranded gone row |
| ArrSafety.PollerNeverWritesState | backend/lftpweb/core/arrsync.py:1017-1090 | No turn of the poller changes the state column |
| ArrStory.StepKeepsAgreement | backend/lftpweb/core/arrsync.py:515-600 | A permitted step changes row and guards just as it changes what the trail says of them |
| ArrStory.CheckIsAllowed | backend/lftpweb/core/arrsync.py:1556-1643 | An import check takes only steps the trail permits, commits included |
| ArrStory.SweepIsAllowed | backend/lftpweb/core/arrsync.py:1893-1935 | A source-delete retry takes only steps the trail permits |
| ArrStory.HealIsAllowed | backend/lftpweb/core/arrsync.py:1964-2017 | A lookup for a gone row takes only steps the trail permits |
| ArrStory.CleanupIsAllowed | backend/lftpweb/core/arrsync.py:1167-1295 | A cleanup takes only steps the trail permits |
| ArrStory.CommandIsAllowed | backend/lftpweb/core/arrsync.py:1496-1552 | A poll of a scan command takes only steps the trail permits |
| ArrStory.TurnIsAllowed | backend/lftpweb/core/arrsync.py:1017-1090 | Every enabled turn takes only steps the trail permits |
| ArrLifecycle.AnyImportCounts | backend/lftpweb/core/arrsync.py:1587-1592 | Counting import events is asking whether there is any |
| ArrVerdicts.DroppedItemGoes | backend/lftpweb/core/arrsync.py:1755-1775 | After any run, a recheck imports a dropped item exactly if it shows an import, and gives it up as gone exactly if it shows none and six hours have passed since the item went dropped; else the row stays |
| ArrVerdicts.GoneItemHeals | backend/lftpweb/core/arrsync.py:1964-2017 | A gone item that owes its source is looked up exactly when fewer than ten lookups in a row have failed and the delay of the last is over; an import promotes it, and everything but a failed request uses an attempt up |
| ArrVerdicts.OwedSourceIsSwept | backend/lftpweb/core/arrsync.py:1893-1938 | A sweep deletes the owed source exactly when fewer than five in a row have failed, the delay is over, the queue is in move mode and the host agrees; it counts as failed exactly where a delete was due and did not work |
| ArrVerdicts.ImportedItemIsCleaned | backend/lftpweb/core/arrsync.py:1167-1295 | A cleanup removes bytes, suppresses, and marks cleaned exactly in the cases the row, the jobs and the disk allow |
| ArrVerdicts.CommandIsFollowed | backend/lftpweb/core/arrsync.py:1496-1554 | A command is forgotten exactly when it is no longer running or found running a fifth time, and reported exactly when it failed |
| ArrVerdicts.DetectedItemIsPushed | backend/lftpweb/core/arrsync.py:1092-1133 | A push is tried exactly for a ready, idle item in place with fewer than five failures in a row, and an accepted one makes it notified |
| ArrVerdicts.CheckedItemReads | backend/lftpweb/core/arrsync.py:1556-1613 | An import check changes its row only by an import commit, with its one attempt at the source, or by dropping it |
| ArrVerdicts.MatchedItemReads | backend/lftpweb/core/arrsync.py:1359-1396 | A match starts the association over under the record's download id and changes nothing else |
| ArrVerdicts.GuardsReadTheTrail | backend/lftpweb/core/arrsync.py:1893-1938 | After any run the in-memory guards hold back exactly the retries that the trail, by its failures and their times, does not let through |
| ArrMatching.GreedyChoosesEarliest | backend/lftpweb/core/arrsync.py:1310-1357 | Each item gets the first record it may accept that no earlier item took |
| ArrMatching.GreedyTakesExactly | backend/lftpweb/core/arrsync.py:1310-1357 | An item takes a record exactly if it is the first of its name that no earlier item took, the item may be matched, and it does not restart a settled association by its own download id |
| ArrMatching.GreedyIsInjective | backend/lftpweb/core/arrsync.py:1310-1357 | No record is given to two items in a pass |
| ArrMatching.GreedyIsMaximal | backend/lftpweb/core/arrsync.py:1310-1357 | Afterwards no item left without a record could still accept an unused one |
| ArrMatching.MatchItems | backend/lftpweb/core/arrsync.py:1310-1357 | The loop over items and records yields exactly that matching |
| ArrMatching.CurrentRecord | backend/lftpweb/core/arrsync.py:1556-1586 | Whether the queue still holds the record of an item |
| ArrOutcomes.TurnEffects | backend/lftpweb/core/arrsync.py:1017-1090 | The closed form of a turn, which the poller is proved against, is where its steps lead |
| ArrPass.PassIsARun | backend/lftpweb/core/arrsync.py:1017-1090 | Whatever a pass does is a run, so all that holds of runs holds of passes |
| ArrDuties.PassIsDutiful | backend/lftpweb/core/arrsync.py:1017-1090 | A pass matches each item to its record, then retries the push of each detected and checks each tracked item once, then gives each later phase's turn, once, to exactly the items that read so when it reaches the phase; phases come in order, and it stops short exactly at a failing request |
| ArrDuties.LingersIsStillListed | backend/lftpweb/core/arrsync.py:1563-1585 | An item counts as still in the queue exactly when the first listed record of its download id, or of its name if it has none, is not imported |
| ArrScheduler.ArrSyncScheduler.ProcessQueue | backend/lftpweb/core/arrsync.py:1017-1090 | The duties of a pass are done; The pass over one queue, phases in order, cut short by the first failing request, is the pass function, and leaves rows, guards and trail in agreement |
| ArrScheduler.ArrSyncScheduler.TakeTurn | backend/lftpweb/core/arrsync.py:1017-1090 | Each turn updates its own item as the step model says, leaves all other items alone, and reports whether it ends the pass |
| ArrScheduler.ArrSyncScheduler.CommitMatch | backend/lftpweb/core/arrsync.py:1359-1396 | A match sets status, time and download id |
| ArrScheduler.ArrSyncScheduler.MaybeRetryNotify | backend/lftpweb/core/arrsync.py:1092-1133 | A push is tried only for a ready, idle item with bytes on disk and tries left; success and refusal end the counting |
| ArrScheduler.ArrSyncScheduler.CheckImportOf | backend/lftpweb/core/arrsync.py:1556-1613 | The check and its commit, in place |
| ArrScheduler.ArrSyncScheduler.CommitImported | backend/lftpweb/core/arrsync.py:1645-1731 | An import commit, followed by its one attempt at the source delete |
| ArrScheduler.ArrSyncScheduler.MaybeDeleteRemoteOnImport | backend/lftpweb/core/arrsync.py:1777-1857 | A delete is attempted only in move mode with a debt open and the source not gone; it pays the debt exactly when it succeeds |
| ArrScheduler.ArrSyncScheduler.CheckOneDroppedItem | backend/lftpweb/core/arrsync.py:1755-1773 | A dropped item is imported on evidence, or goes once its grace is over |
| ArrScheduler.ArrSyncScheduler.HealOneGoneRow | backend/lftpweb/core/arrsync.py:1964-2017 | One bounded lookup for a stranded gone row |
| ArrScheduler.ArrSyncScheduler.RetryStrandedSourceDelete | backend/lftpweb/core/arrsync.py:1893-1935 | One bounded retry of an owed source delete |
| ArrScheduler.ArrSyncScheduler.CheckOneScanCommand | backend/lftpweb/core/arrsync.py:1496-1552 | One poll of a pushed command; any answer but still-running, and the fifth of those, forgets it |
| ArrScheduler.ArrSyncScheduler.MaybeCleanup | backend/lftpweb/core/arrsync.py:1167-1295 | Suppress, remove, mark cleaned; or withhold |
| ArrScheduler.ArrSyncScheduler.NoteWriteByOther | backend/lftpweb/core/arrsync.py:1017-1025 | Writes by other components between passes keep the agreement too |
| RetryBackoff.DelayDoublesUntilCapped | backend/lftpweb/core/arrsync.py:535-558 | A minute after the first failure, doubled with each further one until half an hour, is the closed form the sweeps use |
| RetryBackoff.DelayNeverShrinks | backend/lftpweb/core/arrsync.py:535-558 | More failures never shorten the delay, and half an hour is its limit |
| RetryBackoff.InstanceBackoff.HandleFailure | backend/lftpweb/core/arrsync.py:943-958 | The iterated backoff of an instance reads the closed form of its failures in a row |
| RetryBackoff.InstanceBackoff.Reached | backend/lftpweb/core/arrsync.py:757-787 | An answer clears the backoff of its instance and of no other |
| Preflight.PreflightCandidates | backend/lftpweb/core/arrsync.py:321-388 | Each record takes the fate that the queues, the items and its own fields determine; the two lists hold the attributed and the retired in order |
| Preflight.FindClosest | backend/lftpweb/core/arrsync.py:372-382 | The loop finds the queue whose root holds the path most closely, the first listed among equals |
| Preflight.EveryRecordIsAccountedFor | backend/lftpweb/core/arrsync.py:321-388 | The attributed, the retired and those dropped on purpose are together as many as the records |
| Preflight.CandidatesAreTheAttributed | backend/lftpweb/core/arrsync.py:321-388 | The candidates are exactly the attributed records, each with its queue, in the order listed |
| Preflight.RetiredAreTheKnown | backend/lftpweb/core/arrsync.py:321-388 | The retired are exactly the records of known items, in the order listed |
| Preflight.FateIsUnique | backend/lftpweb/core/arrsync.py:321-388 | A record has one fate only |
| Preflight.ContainmentIsByComponent | backend/lftpweb/core/arrsync.py:291-304 | A root holds a path exactly when its components are a prefix of the path's, whatever slashes trail |
| Preflight.HoldersFormAChain | backend/lftpweb/core/arrsync.py:291-304 | All roots that hold one path lie inside one another |
| Preflight.WinnerIsInnermost | backend/lftpweb/core/arrsync.py:372-382 | The winning root lies inside every other root that holds the path |
| Preflight.WinningRootIgnoresOrder | backend/lftpweb/core/arrsync.py:372-382 | Listing the queues in another order does not change the winning root |
| Preflight.WinnerIgnoresOrderExactlyWhen | backend/lftpweb/core/arrsync.py:372-382 | The winning queue is the same for every order of the list exactly when no different queue shares its root |
| Preflight.MovedToFront | backend/lftpweb/core/arrsync.py:372-382 | Any queue that shares the winning root wins once it is listed first |
| Preflight.FirstListedOfItsRootWins | backend/lftpweb/core/arrsync.py:372-382 | Of the queues that share the winning root the first listed wins, and it alone |
| PathNamespace.TranslationKeepsTheRest | backend/lftpweb/core/arrnotify.py:48-92 | A translated path has the visible root's components in place of those of the staging root if it lies there, else of the local root, and the same below; a path under neither root is sent unchanged |
| PathNamespace.TranslationComesBack | backend/lftpweb/core/arrnotify.py:48-92 | Exchanging the roots the other way undoes a translation |
| PathNamespace.TranslatedPathIsVisible | backend/lftpweb/core/arrnotify.py:48-92 | What a notify sends lies under the root by which attribution knows the queue |
| PathNamespace.PushedItemRevealsItsRoot | backend/lftpweb/core/arrsync.py:243-257 | When a pushed item comes back as a queue record, the root derived from it is the queue's visible root |
| PathNamespace.AnyChildRevealsItsRoot | backend/lftpweb/core/arrsync.py:243-257 | A record for a file of another name reveals the directory the file lies in |
| ArrClient.WalkPages | backend/lftpweb/core/arrclient.py:187-216 | The walk returns the whole list in order for any page size the server uses, and asks for no page beyond the last |
| ArrClient.WalkIsCompleteWhen | backend/lftpweb/core/arrclient.py:208-216 | The walk is complete exactly when the server states its total or everything fits one page, and otherwise returns the first page |
| ArrClient.ImportEvents | backend/lftpweb/core/arrclient.py:218-259 | History is asked by download id if there is one, else by title, and not at all without either |
| ArrClient.ImportsAreSeen | backend/lftpweb/core/arrclient.py:123-138 | The poller counts an import exactly when some event, on any page, has the import type in text or in its old number |
| ArrClient.DownloadLogFile | backend/lftpweb/core/arrclient.py:297-326 | The content is the stream's first bytes up to the budget, and truncation is reported exactly when a chunk overran the budget or came after it was spent |
| ArrClient.TruncatedMeansLonger | backend/lftpweb/core/arrclient.py:297-326 | For chunks that are not empty that is exactly when the file is longer than the budget |
| ArrClient.TruncatedMeansLongerExactlyWhen | backend/lftpweb/core/arrclient.py:312-322 | Truncated means longer than the budget exactly unless the file ends on the budget and an empty chunk follows |
| EngineSchedule.EveryRunIsTruthful | backend/lftpweb/core/engine.py:660-716 | In every run the clocks read what the log of scans says, and every event came in its time |
| EngineSchedule.PassKeepsTruth | backend/lftpweb/core/engine.py:660-716 | No pass, whatever it lists and however long it takes, breaks that |
| EngineSchedule.TimerScansAreSpaced | backend/lftpweb/core/engine.py:610-624 | A timer scan starts at least the interval after the previous full scan of its queue completed |
| EngineSchedule.TimerScansAreSpacedApart | backend/lftpweb/core/engine.py:610-624 | While a queue keeps its interval, that holds against every earlier full scan |
| EngineSchedule.CadenceFollowsTheSetting | backend/lftpweb/core/engine.py:178-200 | In terms of the stored setting: a positive one, or else the site default, spaces the timer scans; zero or less leaves only forced scans after the first, and no local ones |
| EngineSchedule.OnDemandGetsNoTimer | backend/lftpweb/core/engine.py:88-102 | After a scan that left its queue on demand, the next event of the queue is a forced scan |
| EngineSchedule.LocalEventsAreSpaced | backend/lftpweb/core/engine.py:626-639 | Local passes and checks come at least five seconds, or the queue's shorter interval, after the queue's last event |
| EngineSchedule.LocalScanHasARemoteTree | backend/lftpweb/core/engine.py:706-716 | A local pass follows a full scan that read the remote, with the queue listed in every pass since |
| EngineSchedule.OnlyFullScansMoveTheFullClock | backend/lftpweb/core/engine.py:660-716 | Over any run of passes, a queue's full clock and its cached tree change only with a full scan of the queue or a pass that does not list it |
| EngineSchedule.VisitSettlesExactlyWhen | backend/lftpweb/core/engine.py:610-639 | A due queue is left not due, however short its turn, exactly when it is on demand or its interval is positive |
| EngineSchedule.PassSettlesEverything | backend/lftpweb/core/engine.py:610-716 | Then nothing that was due when a pass began is still due at that time when it ends |
| EngineSchedule.PassSettlesExactlyWhen | backend/lftpweb/core/engine.py:610-716 | Over all answers and durations a pass leaves nothing due at its own start exactly when every queue it does something for is on demand or has a positive interval |
| EngineSchedule.OwnTurnDecides | backend/lftpweb/core/engine.py:690-716 | How a queue stands after a pass is decided by its own turn |
| EngineSchedule.ZeroDefaultSpins | backend/lftpweb/core/engine.py:194-200 | With a site default of zero any number of passes fit into one instant, each a full scan |
| EngineDuties.OwingQueueIsServed | backend/lftpweb/core/engine.py:660-716 | In a pass each enabled queue that is forced or whose full clock is due is full-scanned once, and each other whose local clock is due is scanned locally exactly if its remote tree is known and it is active, and checked otherwise; the event carries the queue's interval and the answer, and sets its clocks by them |
| EngineDuties.IdleQueueIsLeft | backend/lftpweb/core/engine.py:690-716 | A queue that is disabled or owes nothing gets no event and keeps its clocks |
| EngineDuties.UnlistedQueueIsForgotten | backend/lftpweb/core/engine.py:660-690 | A queue not listed gets no event and loses its clocks and its tree |
| EngineDuties.PassLogsInOrder | backend/lftpweb/core/engine.py:660-716 | A pass logs its start and then at most one event of each listed queue, in the order listed |
| EngineSchedule.ScanScheduler.ScanAll | backend/lftpweb/core/engine.py:660-716 | The pass over the queues, in place, is the pass function and keeps clocks and log in agreement |
| EngineSchedule.ScanScheduler.ScanOne | backend/lftpweb/core/engine.py:690-716 | One queue's share of a pass |
| EngineSchedule.ScanScheduler.NextWakeDelay | backend/lftpweb/core/engine.py:579-608 | No delay exactly when no enabled clock will ever be due; otherwise some clock is due at the wake and none before it |
| VanishedSweep.SweepVanished | backend/lftpweb/core/engine.py:1454-1668 | The sorted sweep over a growing set leaves the rows, the set shown and the purged paths that the final set itself determines |
| SweptRows.VanishedRowRests | backend/lftpweb/core/engine.py:1599-1668 | After the sweep a vanished row that was complete, or cleaned, is held until its mark is ten minutes old on a healthy mount; PARTIAL, LOCAL_ONLY and REMOVED_LOCAL rest at REMOVED_BOTH; every other row stands; each with its mark, its sizes, and whether it is shown |
| SweptRows.VanishedArchiveRests | backend/lftpweb/core/engine.py:1508-1598 | A vanished spent archive rests EXCLUDED and shown unless it lies below a release no longer shown, and then it is removed and purged |
| SweptRows.OtherRowsStand | backend/lftpweb/core/engine.py:1454-1668 | The sweep touches no other row |
| VanishedSweep.SweepOne | backend/lftpweb/core/engine.py:1461-1658 | Deciding one row more changes no decision made |
| VanishedSweep.TopIsSettled | backend/lftpweb/core/engine.py:1548-1560 | In sorted order the release of a path never comes after the path |
| VanishedSweep.ArchiveFollowsItsRelease | backend/lftpweb/core/engine.py:1508-1598 | A spent archive rests EXCLUDED exactly while its release is in the returned set; otherwise it is REMOVED_BOTH and leaves the registry |
| VanishedSweep.ReturnedIsFoundOrResting | backend/lftpweb/core/engine.py:1599-1653 | The returned set is what was found, and the vanished rows resolved to a state that is not a removal |
| VanishedSweep.SweptIsUnique | backend/lftpweb/core/engine.py:1454-1668 | That description of the outcome admits one outcome only |
| VanishedSweep.GraceHoldsVanishedRows | backend/lftpweb/core/engine.py:1599-1627 | A vanished row that asserted completeness stays as it was and shown until ten minutes are up on a healthy mount; then it is REMOVED_BOTH |
| VanishedSweep.ChildFirstGoesWrong | backend/lftpweb/core/engine.py:1461-1598 | Visiting a child before its release can remove it although the release is shown |
| PathOrder.SortPaths | backend/lftpweb/core/engine.py:1461 | Sorting visits each vanished path once, in path order |
| PathOrder.PrefixComesFirst | backend/lftpweb/core/engine.py:1548-1560 | A path comes before whatever extends it |
| ScanPersist.ItemTables.Persist | backend/lftpweb/core/engine.py:1202-1698 | A pass writes the nodes it found, sweeps the rest, advances the settle records it has fingerprints for, and triggers exactly the items whose hold it ends; its entry in the history agrees with the tables |
| ScanOutcome.FoundRowReads | backend/lftpweb/core/engine.py:1300-1345 | The state and the mark of a found, unprotected row the gate does not hold: outcomes survive, a loss of local content is held for ten minutes on a healthy mount and then recorded, REMOVED_LOCAL stays over REMOTE_ONLY, and everything else takes the reading |
| ScanOutcome.NewRowReads | backend/lftpweb/core/engine.py:1382-1430 | A row found for the first time takes the reading, and the stamp if that is DOWNLOADED |
| ScanOutcome.UnsettledRowReads | backend/lftpweb/core/engine.py:1353-1370 | The gate turns DOWNLOADED into a hold at REMOTE_ONLY, marks rows there, and changes nothing else |
| ScanOutcome.ProtectedRowReads | backend/lftpweb/core/engine.py:1244-1292 | A protected row changes its sizes, and its state only from removed to what is there |
| ScanOutcome.FoundRowKeeps | backend/lftpweb/core/engine.py:1398-1430 | A found row takes its node's sizes and keeps what the scan does not own |
| ScanOutcome.FoundRowIsWritten | backend/lftpweb/core/engine.py:1214-1430 | After a pass each found row is what its node, its row before, and its settle record after make of it, and it is shown |
| ScanOutcome.TriggeredExactlyWhen | backend/lftpweb/core/engine.py:1372-1382 | A pass hands an item to post-processing exactly when it ends a hold of the gate in DOWNLOADED |
| ScanOutcome.MissingRowRests | backend/lftpweb/core/engine.py:1454-1668 | After a pass every unprotected row that was not found rests as the sweep's rules say, by the row before the pass |
| ScanOutcome.SettleTableMoves | backend/lftpweb/core/engine.py:1225-1242 | A pass advances the settle record of exactly the top-level paths it found and fingerprinted |
| ScanPersist.ItemTables.VisitNodes | backend/lftpweb/core/engine.py:1214-1430 | The node loop writes each found path once, by its previous row, and collects the releases |
| ScanPersist.ItemTables.NoteWriteByOther | backend/lftpweb/core/engine.py:1223-1242 | Writes by other components between passes keep the agreement |
| ScanPersist.PassAgrees | backend/lftpweb/core/engine.py:1214-1668 | After a pass every row and settle record reads what the history with the pass's entry says |
| ScanPersist.PassIsPermitted | backend/lftpweb/core/engine.py:1214-1698 | Every pass's entry is one the history before it permits |
| ScanPersist.StampedByFirstCompletion | backend/lftpweb/core/engine.py:1398-1430 | With no other writer, a completion time is the starting one or that of the first pass that completed the item |
| ScanPersist.OnlyCompletionStamps | backend/lftpweb/core/engine.py:1398-1430 | Only an unprotected write of DOWNLOADED fills the completion time in, and nothing replaces it |
| ScanPersist.EachHoldTriggersOnce | backend/lftpweb/core/engine.py:1670-1698 | Between two triggers of one item somebody wrote the settling hold afresh |
| ScanPersist.TriggersEndAHold | backend/lftpweb/core/engine.py:1377-1382 | A trigger comes with a completing write over a row that read as held |
| ScanPersist.GateHolds | backend/lftpweb/core/engine.py:1353-1363 | The gate lets no unsettled item through to DOWNLOADED |
| ScanPersist.CompletedMeansUnchanged | backend/lftpweb/core/settle.py:153-230 | A pass, full or local, that completes a top-level item with a record under the gate comes a minute or more after a scan since which every complete one saw the same fingerprint; two of them were complete, exactly unless that first one was partial, the first ever to see the item, and the record before the pass counts one, or two if the pass adds none |
| ScanPersist.PartialSightingCounts | backend/lftpweb/core/settle.py:153-216 | Two passes over empty tables, a partial one at 0 and a complete one a minute later, that settle and complete an item after one complete scan |
| ScanPersist.RecordIsAStreak | backend/lftpweb/core/settle.py:153-216 | A settle record dates the scan from which on all complete scans saw its fingerprint and before which, if at all, another was seen, and counts the complete scans since; the first scan is counted even if it was partial, which it can be only if it was the first ever to see the item; first sighting and last change are dated too |
| ScanPersist.LocalPassLeavesSettleAlone | backend/lftpweb/core/engine.py:1225-1242 | A pass without fingerprints leaves the settle table as it was |
| ScanPersist.RemovalTakesTheGracePeriod | backend/lftpweb/core/mount_sentinel.py:177-272 | No pass records a complete item as removed until it was missing for ten minutes, over a mount healthy at both ends, with no pass in between finding it back |
| ScanPersist.MarkOrigin | backend/lftpweb/core/mount_sentinel.py:177-272 | A missing-since mark is the time of the pass that set it, and every pass since found the item missing |
| ScanPersist.CorrectionGoesUnstamped | backend/lftpweb/core/local_delete.py:164-226 | Visiting a row leaves it DOWNLOADED without a completion time exactly when it is protected, was removed, and both copies are back and equal |
| ScanPersist.CleanedRowGoesUnstamped | backend/lftpweb/core/engine.py:1502-1506 | The sweep makes a row DOWNLOADED, unstamped, exactly when the poller cleaned an item that read LOCAL_ONLY and its grace still runs |
| EventBus.Mailbox.Put | backend/lftpweb/core/events.py:33-45 | A queue holds exactly the last messages published since the last one delivered, as many as fit, in order; a full one loses its oldest |
| EventBus.Mailbox.Take | backend/lftpweb/api/ws.py:32-35 | What is delivered was published after all that was delivered before, so delivery is in publish order whatever was dropped; while nothing was, what was delivered and what waits is all that was published |
| EventBus.PutDropsOldest | backend/lftpweb/core/events.py:33-45 | A full queue loses its oldest message and no other, and one with room loses none |
| EventBus.Bus.Publish | backend/lftpweb/core/events.py:33-45 | Every subscriber gets the message, whatever the state of the others, and a mailbox not subscribed, or no longer, is left as it was |
| EventBus.Bus.Subscribe | backend/lftpweb/core/events.py:25-28 | A new subscriber starts with nothing |
| LiveModel.DiffRepairsExactlyWhen | backend/lftpweb/core/engine.py:325-353 | A diff takes the old rows to the new ones, and any other rows there exactly if they agree with the new ones wherever old and new agree |
| LiveModel.StepKeepsGood | backend/lftpweb/core/engine.py:810-842 | Scans, forgets, snapshots, deliveries and writes by others, in any interleaving, keep every row accounted for in the database, the model and each client |
| LiveModel.PublishingKeepsGood | backend/lftpweb/core/engine.py:810-842 | Publishing a scan brings model and clients to the stored rows |
| LivePage.PublishedModelIs | backend/lftpweb/core/engine.py:810-842 | A published scan leaves of its queue exactly the stored rows it wrote, as stored, and every other queue's rows alone |
| LivePage.PublishedMessageSays | backend/lftpweb/core/engine.py:325-353 | Its message names exactly the rows that differ from the model before, and those that left it |
| LivePage.StepsTell | backend/lftpweb/core/engine.py:810-842 | In every run a row is in the model exactly if the last published scan of its queue wrote it, it was stored then, and it was not forgotten since |
| LivePage.PageShowsExactly | backend/lftpweb/api/ws.py:26-41 | A caught-up client that lost nothing shows exactly those rows, each as it is stored, astray rows excepted |
| LivePage.UnwrittenRowIsNotShown | backend/lftpweb/core/engine.py:1702-1717 | It does not show a row that the last published scan of its queue did not write |
| LivePage.StrayWasLed | backend/lftpweb/core/queue.py:3310-3337 | A row is astray only after another writer pushed it or a stored scan of its queue was abandoned |
| LiveModel.ForgettingKeepsGood | backend/lftpweb/core/engine.py:512-557 | Evicting rows takes them from the model and, by their message, from the clients |
| LiveModel.SnapshotIsFaithful | backend/lftpweb/core/engine.py:1772-1803 | A snapshot taken with messages already waiting still ends at the model once they are applied |
| LiveModel.DeliveryKeepsGood | backend/lftpweb/api/ws.py:26-41 | Delivering a message does not change where its client will end |
| LiveModel.CaughtUpClientEqualsTheModel | backend/lftpweb/api/ws.py:26-41 | With scans and forgets alone, a client that has received everything and lost nothing shows the engine's model |
| LiveModel.CaughtUpClientShowsTheModel | backend/lftpweb/api/ws.py:26-41 | With writes by others and failed publishes too, it does so on every row not astray |
| LiveModel.ScanRepairsExactlyWhen | backend/lftpweb/core/engine.py:325-353 | A row a client has wrong is put right by a scan exactly when the scan finds it changed or as shown |
| LiveModel.DroppingIsHarmlessExactlyWhen | backend/lftpweb/core/events.py:33-45 | Losing the oldest message is harmless exactly when later ones name each row it touches, or the row already reads so |
| LiveModel.OverflowLosesARow | backend/lftpweb/core/events.py:13-18 | For a queue of any capacity, a run of scans in which overflowing leaves a caught-up client without a row of the model |
| LiveModel.PushedRowGoesAstray | backend/lftpweb/core/queue.py:3310-3337 | A run in which a row pushed by another component and put back by a scan stays as pushed on the page of a caught-up client that lost nothing |
| LiveModel.AbandonedRowGoesAstray | backend/lftpweb/core/engine.py:810-842 | A run in which a client connects between a stored scan and its failure and keeps the row that was never published |
| LiveModel.ForgetRelPaths | backend/lftpweb/core/engine.py:512-557 | The evicted paths are the known ones, each told once |
| LogTail.TailLines | backend/lftpweb/core/logtail.py:58-97 | The result is the whole lines of what was read, the last of them if there are more than asked for, and so a suffix of the file's lines; not truncated it is exactly the last lines; truncated means the budget was spent; the loop ends |
| LogTail.LinesAreTheFile | backend/lftpweb/core/logtail.py:84-97 | The lines hold no newline and, put together again, are the file, up to a newline at its end |
| LogTail.LinesBelowACut | backend/lftpweb/core/logtail.py:84-97 | Wherever a chunk boundary falls, the lines below it less the first are the file's last lines |
| LogTail.EnoughLines | backend/lftpweb/core/logtail.py:75-77 | There are at least as many lines as newlines |
| Throughput.WalkBuckets | backend/lftpweb/api/metrics.py:175-195 | The walk emits one bucket for each boundary from the first of the window to its last, each with its rows and their total if the process was up, and a gap otherwise |
| Throughput.EachInstantHasItsBucket | backend/lftpweb/api/metrics.py:175-195 | Every instant of the window lies in exactly one bucket, the one at its aligned epoch |
| Throughput.SumValues | backend/lftpweb/api/metrics.py:183-195 | A total does not depend on the order of its entries |
| DayGroups.AggregateDayPoints | backend/lftpweb/api/metrics.py:352-398 | One bucket for each week or month in order of first appearance, each summing exactly its own days |
| DayGroups.SumGroup | backend/lftpweb/api/metrics.py:378-397 | A bucket's bytes by queue, total, up mark, first day and coverage are those of its up days |
| DayGroups.GroupingConservesBytes | backend/lftpweb/api/metrics.py:352-398 | Per queue and in all, buckets carry exactly the bytes of the days that were up |
| DayGroups.GroupsConserve | backend/lftpweb/api/metrics.py:352-398 | Whatever is summed over the days, the buckets add up to the same |
| DayGroups.EachDayHasItsGroup | backend/lftpweb/api/metrics.py:369-376 | A day is in exactly one bucket |
| DayGroups.GroupsFollowTheDays | backend/lftpweb/api/metrics.py:352-398 | For sorted days every day of an earlier bucket is before every day of a later one, and bucket starts strictly increase |
| DayGroups.MonthKeyIsTheCalendars | backend/lftpweb/api/metrics.py:344-349 | The month key of a day is its calendar month: years of 365 days and a leap day by the Gregorian rule, months of their lengths |
| DayGroups.WeekIsSeventh | backend/lftpweb/api/metrics.py:333-341 | The week key counts sevenths of days from the epoch |
| DayGroups.KeysAppearInOrder | backend/lftpweb/api/metrics.py:369-376 | Buckets come in the order in which their keys first appear |
| DayGroups.KeysFollowTheCalendar | backend/lftpweb/api/metrics.py:333-349 | Week and month keys never decrease from day to day, leap years included |
| DayGroups.CoverageIsAShare | backend/lftpweb/api/metrics.py:352-398 | Coverage exists exactly for buckets with an up day, is positive and at most one, and one exactly when no day was down |
| DayGroups.WalkedDaysAreSorted | backend/lftpweb/api/metrics.py:213-242 | The day walk yields consecutive days in order |
| LoginLimiter.LoginRateLimiter.IsBlocked | backend/lftpweb/core/auth.py:418-419 | A key is blocked exactly when enough of its failures since its last success lie inside the window, by the full history |
| LoginLimiter.LoginRateLimiter.Prune | backend/lftpweb/core/auth.py:413-416 | Forgetting old failures loses nothing a later look would count |
| LoginLimiter.LoginRateLimiter.RecordFailure | backend/lftpweb/core/auth.py:421-425 | A failure joins its key's history |
| LoginLimiter.LoginRateLimiter.RecordSuccess | backend/lftpweb/core/auth.py:427-428 | A success ends it |
| LoginLimiter.LoginRateLimiter.RetryAfterS | backend/lftpweb/core/auth.py:430-435 | The hint counts from the oldest failure still in the window |
| LoginLimiter.LoginRateLimiter.Login | backend/lftpweb/api/auth.py:50-74 | A refusal's hint, in whole seconds, is never too short: the block has lifted by then, and had not a second before |
| LoginLimiter.RecentIsWhatCounts | backend/lftpweb/core/auth.py:413-428 | What counts is exactly the key's failures younger than the window with no success of the key since, in order |
| LoginLimiter.BlockLifts | backend/lftpweb/core/auth.py:413-419 | A block lifts when the limit-th youngest failure leaves the window |
| LoginLimiter.RetryAfterExactlyWhen | backend/lftpweb/core/auth.py:430-435 | The hint is exact exactly when the oldest failure counted is that one |
| LoginLimiter.GuardedStaysWithinTheLimit | backend/lftpweb/api/auth.py:50-74 | Recording failures only while unblocked keeps the count within the limit |
| LoginLimiter.LoginRetryIsExact | backend/lftpweb/api/auth.py:50-74 | So for histories made through login the hint is exact |
| LoginLimiter.KeysAreIndependent | backend/lftpweb/core/auth.py:400-435 | A key's standing depends on its own attempts alone |
| ArchiveCleanup.DeleteExtractedArchives | backend/lftpweb/core/archive_cleanup.py:110-273 | All or nothing on containment; otherwise the volumes removed are recorded exactly, and bytes freed and bytes left add up; each reason for withholding applies exactly where it should |
| ArchiveCleanup.RemovedExactly | backend/lftpweb/core/archive_cleanup.py:227-247 | A file is gone afterwards exactly if it is a volume of the batch that could be removed |
| ArchiveCleanup.RemovedInOrder | backend/lftpweb/core/archive_cleanup.py:227-247 | Recorded are exactly the volumes that were there, not locked and not the same file as an earlier one, in their order |
| ArchiveCleanup.VolumesJoin | backend/lftpweb/core/archive_cleanup.py:213-215 | The volumes are those of the heads, one head after the other |
| ArchiveCleanup.Resolve | backend/lftpweb/core/archive_cleanup.py:213-225 | The batch resolves exactly when every volume lies within the root |
| ArchiveCleanup.RecordedBelowItsRelease | backend/lftpweb/core/archive_cleanup.py:236-246 | Recorded paths lie below the item, so a later sweep ties them to the item's own row |
| ScanPersist.ItemTables.RecordArchives | backend/lftpweb/core/archive_cleanup.py:58-74 | Recording adds the paths, again or not, and keeps tables and history in agreement |
| ScanPersist.PurgedIsForgotten | backend/lftpweb/core/archive_cleanup.py:77-107 | A purged path was a spent archive written off by that pass, and until it is recorded anew no later pass takes a file at it for one |
| ScanPersist.PurgedAfter | backend/lftpweb/core/engine.py:1592-1668 | A pass purges exactly the recorded paths that vanished unprotected below a release no longer shown, and the registry keeps the others |
| PathBrowse.ResolveLocalDir | backend/lftpweb/core/browse.py:101-143 | The local walk ends, at the first listable directory up from the request, and says so if that is not the request |
| PathBrowse.ResolveRemoteDir | backend/lftpweb/core/browse.py:219-270 | The remote walk ends, at the first listable directory up from the request or else up from home |
| PathBrowse.ChainIsTheAncestors | backend/lftpweb/core/browse.py:65-69 | For any path at all a walk tries exactly the path, what it reads up to the end of each component, its leading slashes if they are more than one, and the root |
| PathBrowse.ParentIsNearest | backend/lftpweb/core/browse.py:65-69 | What is offered as the parent is the nearest of the other ancestors |
| PathBrowse.AncestorsByComponent | backend/lftpweb/core/browse.py:65-69 | For an absolute path without empty components these are its ancestors at component boundaries |
| PathBrowse.WalkFindsTheNearest | backend/lftpweb/core/browse.py:122-143 | No listable ancestor is closer than the one found |
| PathBrowse.RemoteFailsOnlyWhenAllDo | backend/lftpweb/core/browse.py:228-270 | A remote walk fails exactly when nothing up from the request and nothing up from home can be listed |
| Paths.BelowIsComponentPrefix | backend/lftpweb/core/arrsync.py:291-304 | The test on characters is the test on components |

## Left out

- Sessions, passwords, forwarding headers, settings forms, the frontend's pages and the database schema: no invariant beyond what the database itself enforces.
- Exceptions from the database, the disk or a cancelled task in the middle of a pass; a pass ends early only where a request to the *arr fails. A turn of the poller, a stored scan and a published scan are each one atomic step.
- The clock is read once per turn or pass where the source reads it again for each value; timestamps are numbers.
- The title normalisation and the file name comparison behind a name match: the test is any relation between records and names.
- Names that are not valid text: paths are the same before and after they are stored.
- Log redaction, line levels and decoding in the log reader, and line separators other than newline.
- LogTail.TailLines: for a positive number of lines, since asked for none the source's slice returns every line it read, and for a positive chunk size, since with none its loop does not end.
- Throughput.WalkBuckets: for a window that does not end before it starts, as the source computes it.
- Rows fetched before the first item of a phase: here a turn reads its row when it starts, so a notify retry or a heal notices a push, a dropped debt or a removed row written by others since the pass began, where the source goes by the row it fetched. For the cleanup, which removes bytes, `ArrFetched` says exactly what differs. The scheduler's methods take no writes by others within a pass.
- Resetting an item's tracking, which deletes its rows, settle record and registry entries outright; other writers only write rows here, and record archives.
- The wording of audit events, which are steps of the trail, and the words in a command's answer, which are its four outcomes.
- How long Preflight holds a row, the parsing of `timeleft`, and the warning about mismatched paths.
- The number of days a month or week bucket should have: coverage counts the days present in the window, as the source does. Days before 1970 do not occur.
- A server whose list changes between two pages of one walk, or that misstates its total.
- ArrClient.WalkPages: not for a server that uses pages of no records at all; the walk ends after one request there, with nothing.
- The bounded number of entries a directory listing shows, and the normalisation of a requested local path, which is a parameter.
- The per-queue awaits inside one snapshot: a snapshot reads the stored rows at one moment. A row pushed for a queue that a browser has not been shown is merged by the model's browser and ignored by the real one; such rows count as stray either way.
- LoginLimiter.LoginRateLimiter.Login: one step; the source awaits the password check in between, so two logins at once can both be let through and recorded.
- The directory with the in-flight prefix and hard links in archive cleanup: a volume is its path below the item and the file it resolves to.
- Which rows a scan must leave alone: the protected paths are an input of each pass, any set.
- The transfer queue, the settle fingerprints' computation and the comparison of the two trees: their results are inputs.
