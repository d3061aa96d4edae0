# A verified model of Softarr's core

Softarr finds software releases, takes them through a review workflow and sends the approved ones to a
download client. This project models the parts of it that carry state, loops or arithmetic, and proves what
they promise over all inputs, all runs and all interleavings.

- **Release workflow** (`Workflow*.dfy`, `Scheduler*.dfy`). The transition table, the stored releases with a ghost
  history of commits, the audit log, the override records, and one step for every committed operation of every
  actor: admins, bulk actions, overrides, the scheduler, sends in their three steps, webhooks, the torrent poller,
  deletion and retention. A database session keeps the first copy of a row that it reads (sessions are made with
  `expire_on_commit=False`, `src/softarr/core/database.py:12-16`; the remark at
  `src/softarr/services/release_service.py:178` that a commit expires everything does not hold), and
  `transition_state` checks that copy, not the stored row. The model therefore has sessions with copies that
  may be stale. Safety is proved for every interleaving of every number of sessions and for every sequence of
  whole operations. Conservation of queue slots, finality of DOWNLOADED, entry into the queue from APPROVED and the
  bound of one audit row per queueing do not hold in every run: for each the exact condition is proved for all runs,
  concrete runs show a failure, and runs that commit the release in question from fresh copies are free of them.
  A commit writes only the columns whose new value differs from the session's copy, as the mapper does.
  The scheduler approves automatically a release that it has just stored, and the table has no way from DISCOVERED
  or REJECTED to APPROVED, so in a pass that no other actor interrupts this never succeeds, although the setting
  promises otherwise. It succeeds exactly if the release is still stored and was in a state that leads to APPROVED when
  the session last refreshed its copy: at the end of the analysis or, where the rules' rejection is committed, after the
  reasons are stored. Two concrete runs show others taking it there, one while it is analysed and one after the
  rejection.
- **AI rate limit** (`TokenBucket.dfy`). The token bucket over real numbers, with bounds on what any window of any
  run grants, and the exact statement that a question is refused only to keep such a bound. A limit of zero or below
  grants nothing.
- **Feeds** (`Feed.dfy`, `FeedRanking.dfy`, `Ordering.dfy`). The loop that collapses the items of a feed and the
  stable sort, against a description without dictionary or loop. The Usenet copy of the loop converts the file
  count of an item and the Torznab copy does not, so they agree under an exact condition. Scores and keys are
  described without the functions that compute them.
- **Search filter** (`Text.dfy`, `BooleanFilter.dfy`, `SearchQueries.dfy`, `SearchCase.dfy`). Tokeniser, clause
  splitter and evaluator, against the meaning of queries in disjunctive normal form and their printed forms; the
  case of letters does not matter, in queries and in names.
- **Settings file** (`IniStore.dfy`, `SettingsExchange.dfy`, `IndexerSections.dfy`,
  `IndexerCounters.dfy`). The map of sections that every method loads, changes and saves under one lock; export and
  import, and exactly what an export discloses of secrets; indexers with their fields and counters.
- **Versions and upgrades** (`Decimals.dfy`, `Versions.dfy`, `Upgrades.dfy`). Two parsers, the comparison, the version
  check, the search for upgrades and the scheduler's choice. The version check and the search for upgrades agree
  exactly on the lists whose pick is a maximum; dotted decimals are such, and a concrete list is not.
- **Retention, passwords, backups, pages** (`Retention.dfy`, `Passwords.dfy`, `PasswordReuse.dfy`, `Stamps.dfy`,
  `Backups.dfy`, `Pagination.dfy`, `Collections.dfy`). What a retention pass keeps; which passwords can come back;
  which backups survive pruning; that pages cover a list. The password in use is no part of its history, so it
  may be chosen again, and a reset leaves no trace in the history. The reset endpoint itself
  (`src/softarr/api/v1/users.py:175`) builds its policy service with the wrong arguments and fails; the service
  function behind it is modelled.

Code that updates state is modelled by classes and methods, each proved against a function of the old state;
the properties are then proved about those functions. Results of foreign calls (download clients, search
adapters, `difflib` ratios, title patterns, clocks) are parameters that may take any value.

## Model

| member | source | states |
|---|---|---|
| WorkflowRuns.EveryReleaseIsVetted | src/softarr/services/release_service.py:299-374 | In every interleaving of any number of sessions with stale copies and overrides: a stored release that is approved, queued, downloaded, failed, admin verified or tied to a job was approved at a strictly earlier commit, and its first approval was a review decision or an override |
| WorkflowRuns.ApprovedBefore | src/softarr/services/release_service.py:26-52 | In a legal history every arrival in the queue or at a download outcome has an approval strictly before it |
| WorkflowRuns.FirstApproval | src/softarr/services/release_service.py:338-374 | The first approval is an override or comes from a session that held the release under review |
| WorkflowRuns.DownloadedIsFinal | src/softarr/services/release_service.py:48 | DOWNLOADED is left only by an override or by a commit made from a stale copy |
| WorkflowRuns.StepKeeps | src/softarr/services/release_service.py:299-374 | Every step of every actor keeps the invariant of every release |
| WorkflowRuns.RunKeeps | src/softarr/services/action_service.py:119-404 | The invariant holds over whole runs, including sends interrupted by other actors |
| WorkflowQueue.QueueSlots | src/softarr/services/release_service.py:43-51 | For all sessions, fresh or stale: entries into the queue equal all exits plus one if queued now |
| WorkflowQueue.QueueConservation | src/softarr/services/release_service.py:43-51 | For every run and release: entries equal the exits to DOWNLOADED, DOWNLOAD_FAILED and APPROVED plus one if queued now, if and only if no transition to DISCOVERED, STAGED, UNDER_REVIEW or REJECTED is accepted while the release is stored as queued |
| WorkflowQueue.QueueLedger | src/softarr/services/release_service.py:43-51 | For every run: entries are those exits, plus one if queued now, plus the number of such transitions |
| WorkflowQueue.FreshConservation | src/softarr/services/release_service.py:43-51 | Slots are conserved in every run that commits this release from fresh copies, whatever happens to others |
| WorkflowQueue.DownloadedStays | src/softarr/services/release_service.py:48 | DOWNLOADED is absorbing for a release that is committed from fresh copies and not overridden |
| WorkflowQueue.DownloadedUntil | src/softarr/services/release_service.py:299-374 | For every run: a downloaded release stays so, until it is deleted, if and only if no write to it with another target is accepted along the way |
| WorkflowQueue.StepEnds | src/softarr/services/release_service.py:299-374 | One event takes a stored release out of DOWNLOADED exactly if it is an accepted write with another target; an override from a copy that already is APPROVED writes no state |
| WorkflowQueue.DownloadedIsLast | src/softarr/services/release_service.py:48 | In a history of commits from fresh copies without overrides nothing follows DOWNLOADED |
| WorkflowAudit.AuditsPerQueueing | src/softarr/api/v1/hooks.py:222-250 | In every run the completion audit rows of a release number at most its exits to that outcome plus the callbacks that came late |
| WorkflowAudit.AuditLedger | src/softarr/api/v1/hooks.py:222-250 | For every run and outcome: rows written, owed and lost, with the plain commits from the queue to the outcome, are the exits from the queue to it plus the late callbacks |
| WorkflowAudit.AuditBound | src/softarr/api/v1/hooks.py:222-250 | For every run: the rows of an outcome number at most the exits to it if and only if the late callbacks number at most the plain commits and the rows not written |
| WorkflowAudit.AuditsPerEntry | src/softarr/api/v1/hooks.py:349-379 | For every run: exactly when the rows of both outcomes number at most the entries into the queue |
| WorkflowAudit.CleanAudits | src/softarr/main.py:412-471 | Where no row is owed or lost and no plain transition takes the release from the queue to an outcome, the bound holds for both outcomes if and only if no callback is late |
| WorkflowAudit.OneAuditPerQueueing | src/softarr/api/v1/hooks.py:349-379 | In runs without late callbacks of this release duplicate callbacks are logged at most once per queueing, per outcome and together |
| WorkflowAudit.FreshIsNotLate | src/softarr/api/v1/hooks.py:349-379 | Runs that commit this release from fresh copies have no late callback of it |
| WorkflowAudit.OverridesAreRecorded | src/softarr/services/release_service.py:338-374 | In every run a stored release has one override record for each override of it and no others |
| WorkflowAudit.StepRecords | src/softarr/services/release_service.py:350-364 | For every event: which override record it adds, and exactly when; only deleting the release removes records |
| WorkflowAudit.OverridesAreReasoned | src/softarr/services/release_service.py:350-364 | In every run each override record has a non-empty reason, or was made by a session that held the release as neither RESTRICTED nor BLOCKED |
| WorkflowQueue.FreshExits | src/softarr/services/release_service.py:43-51 | From fresh copies a release leaves the queue for three states only and no callback is late |
| WorkflowRaces.RacingCallbacksLogTwice | src/softarr/main.py:412-471 | A run where NeverLate and the condition of DownloadedUntil fail: a webhook and the poller that both read the release while queued log two outcomes for one queueing and move it out of DOWNLOADED |
| WorkflowRaces.RejectedReleaseIsQueued | src/softarr/services/action_service.py:131-200 | A run where a release rejected while a send waits for the client is queued all the same |
| WorkflowQueue.QueuedFromApproved | src/softarr/services/action_service.py:177-186 | For every run: the release enters the queue from a stored APPROVED only, if and only if no accepted queueing of it finds a state stored other than APPROVED and QUEUED_FOR_DOWNLOAD, where it does not enter anew |
| WorkflowQueue.QueueingIsFresh | src/softarr/services/action_service.py:177-186 | An accepted queueing finds APPROVED stored exactly if it is made from a fresh copy |
| WorkflowRaces.QueueSlotIsLost | src/softarr/services/release_service.py:299-324 | A run where conservation fails: an admin read the release before it was queued and rejects it afterwards; it entered the queue once and made none of the exits |
| WorkflowService.ReleaseService.TransitionState | src/softarr/services/release_service.py:299-324 | Succeeds exactly when the release is stored and its state in the session's copy is one from which the table leads to the target; then the row has the new state and nothing else changed; otherwise nothing is stored |
| Workflow.SourcesMean | src/softarr/services/release_service.py:43-52 | The table read by targets: the states that lead to each state |
| WorkflowService.ReleaseService.ApproveRelease | src/softarr/services/release_service.py:326-336 | Two commits, the transition and the admin trust: exactly when it succeeds, from which states, and the row it leaves |
| WorkflowService.ReleaseService.OverrideRelease | src/softarr/services/release_service.py:338-374 | Succeeds exactly if the release is stored and the session's copy is neither RESTRICTED nor BLOCKED or the reason is not empty; then the row is approved and admin verified, with only the columns written that differ from the copy, and the record is added; otherwise nothing changes |
| WorkflowService.ReleaseService.BulkApprove | src/softarr/services/release_service.py:518-528 | The loop leaves the state and the two reports of its recursive description |
| WorkflowService.ReleaseService.ReceiveHook | src/softarr/api/v1/hooks.py:329-379 | Which statuses, in any case of letters, are ignored, which callbacks are unmatched, skipped and done, and what each leaves; one that is done has moved the row to DOWNLOADED or DOWNLOAD_FAILED as its status says and logged it |
| WorkflowHooks.FindRelease | src/softarr/api/v1/hooks.py:103-154 | The lookups in their order compute the match by id, else by job, else by name, and leave only loaded copies behind |
| WorkflowHooks.MatchMeans | src/softarr/api/v1/hooks.py:103-154 | A stored id is found; otherwise what is found is the only release that holds the job, or a queued one of the name; when nothing is found, and that the lookup raises exactly for a job that two releases hold |
| WorkflowHooks.FirstOfName | src/softarr/api/v1/hooks.py:129-150 | The lookup by name takes the first queued release of the query whose name contains the given one in any case of letters |
| WorkflowHooks.JobDecides | src/softarr/api/v1/hooks.py:121-127 | A callback without an id that carries the job of one release alone finds it, whatever the names and states of others |
| WorkflowHooks.TorrentMatches | src/softarr/api/v1/hooks.py:193-212 | The torrent client's callbacks find a release by id or by the hash it was sent with, never by name, and nothing exactly if there is neither |
| WorkflowHooks.HandleHook | src/softarr/api/v1/hooks.py:329-379 | Ignored, unmatched and raised callbacks change no row; a matched one leaves what AfterHook says of the match |
| WorkflowService.ReleaseService.StartSend | src/softarr/services/action_service.py:47-58 | Only a copy that is approved goes on to the client |
| WorkflowService.ReleaseService.FinishSend | src/softarr/services/action_service.py:159-186 | The job id is committed first and stays even when the transition that follows is refused, which is exactly when the copy is not APPROVED; then the queueing and the refresh |
| WorkflowOutcomes.OperationsReach | src/softarr/services/release_service.py:299-374 | What a transition, an approval, an override and a callback leave is the end of some run |
| WorkflowOperations.SequenceReaches | src/softarr/services/release_service.py:299-374 | Any sequence of transitions, approvals, bulk approvals, overrides, callbacks, send halves, poller passes, scheduler passes, deletions, retention passes and audit prunings ends where some run ends |
| WorkflowOperations.OperationsAreSafe | src/softarr/services/release_service.py:299-374 | So after any such sequence every stored release is vetted and each of its overrides is recorded |
| WorkflowOutcomes.BulkApproveOutcome | src/softarr/services/release_service.py:518-528 | From up-to-date copies exactly the requested releases whose state allows it are approved, each once; no other row changes; the two reports partition the request |
| WorkflowPolling.PollQueued | src/softarr/main.py:412-471 | The poller's loop is its recursive description over the answers of the client |
| WorkflowPolling.PollOutcome | src/softarr/main.py:412-471 | A pass takes exactly the queued releases whose torrents are finished or gone to DOWNLOADED and those whose torrents are broken to DOWNLOAD_FAILED, in the poller's name, logs each once and touches no other |
| WorkflowPolling.VerdictMeans | src/softarr/integrations/qbittorrent.py:41-51 | Which answers of the client mean success, failure or neither, in any case of letters |
| WorkflowPolling.RowAfterPoll | src/softarr/main.py:412-471 | What becomes of any one row under any answers, repeated ids included |
| Scheduler.CheckResults | src/softarr/services/scheduler_service.py:103-139 | For a pass during which no other actor commits: each release added is the only one of its software and version, afterwards each version found is stored exactly once unless two releases of the software shared a version before, and automatic approval does not succeed; the state it leaves as a function of the one before |
| Scheduler.ProcessAndStore | src/softarr/services/release_service.py:126-222 | For such a pass: the whole row that is stored of a result, and that only this row is new; the commits and refreshes in their order |
| SchedulerRuns.ApprovalAccepted | src/softarr/services/release_service.py:299-336 | In any world an approval is accepted exactly if the row is stored and the session holds it as UNDER_REVIEW, QUEUED_FOR_DOWNLOAD or DOWNLOAD_FAILED |
| SchedulerRuns.AutoApproval | src/softarr/services/release_service.py:170-206 | With any events of others between the commits and refreshes that follow the analysis: the automatic approval is accepted exactly if the release is still stored and was in such a state at the session's last refresh, the one after a committed rejection or else the one of the analysis |
| SchedulerRuns.RejectionDecides | src/softarr/services/release_service.py:187-209 | A rejection is committed exactly if a rule rejects, the release is stored, and the table leads to REJECTED from its state at the refresh of the analysis; without one, that state alone decides, and one that a rule wanted to reject is approved from QUEUED_FOR_DOWNLOAD and DOWNLOAD_FAILED only |
| SchedulerRuns.SchedulerApproves | src/softarr/services/analysis_service.py:48-84 | A run in which it succeeds: an admin stages the release and puts it under review while it is analysed |
| SchedulerRuns.RejectedIsApproved | src/softarr/services/release_service.py:193-206 | A run in which it succeeds though nobody acts during the analysis and the rules rejected the release: an admin stages it and puts it under review before the reasons are stored and the copy is refreshed |
| TokenBucket.RateLimiter.AskFor | src/softarr/services/ai_service.py:142-148 | The limiter section: the new bucket and the answer as functions of the old bucket and the clock |
| TokenBucket.TokensStayInRange | src/softarr/services/ai_service.py:70-91 | Tokens stay between zero and the limit in every run |
| TokenBucket.WindowBound | src/softarr/services/ai_service.py:78-91 | Any window of any run under a constant limit L grants at most L plus L / 3600 for every second of the window, and nothing if L is not positive |
| TokenBucket.EpochsBound | src/softarr/services/ai_service.py:143-148 | With any changes of the limit, at most the sum of that bound over the stretches of constant limit |
| TokenBucket.GrantedExactly | src/softarr/services/ai_service.py:70-91 | Under a new limit L, until it changes again: a question is granted exactly if it keeps that bound for every window that ends with it, so the bound is met and nothing is refused without need |
| TokenBucket.DenialsAreInvisible | src/softarr/services/ai_service.py:78-91 | Any number of denied questions followed by one leave the bucket and the answer of that one alone |
| TokenBucket.RetryIsGranted | src/softarr/services/ai_service.py:78-91 | After a denial and no grants, a question 3600/L seconds later is granted, for L at least 1 |
| Feed.FuzzyMatches | src/softarr/adapters/usenet.py:346-367 | The loop answers whether some non-empty term occurs in the title in any case of letters or has a ratio of at least 0.6 |
| Feed.MatchScore | src/softarr/adapters/usenet.py:369-384 | 1.0 if some non-empty term occurs in the title in any case of letters; otherwise the greatest of the terms' ratios, or 0.0 if none is above it |
| Feed.MatchAgreesWithScore | src/softarr/adapters/usenet.py:346-384 | A title matches exactly when its score is at least 0.6 |
| Feed.Round3Means | src/softarr/adapters/usenet.py:253 | Rounded scores are the nearest thousandths, halves to even, and keep the order |
| Feed.CandidateOf | src/softarr/adapters/usenet.py:209-272 | What one item becomes: nothing, an error, or a candidate with its own size and its rounded best score |
| Feed.CandidatesConcat | src/softarr/adapters/usenet.py:209-272 | A feed gives the candidates of its items in their order, or fails if one of them does |
| Feed.KeyMeans | src/softarr/adapters/usenet.py:274 | Two candidates collapse exactly if their names differ in the case of letters only and their versions are the same |
| Feed.ParseNewznabResponse | src/softarr/adapters/usenet.py:209-302 | The loop and the sort give the dictionary's fold, sorted; a number that does not convert fails the whole feed |
| Feed.ParseTorznabResponse | src/softarr/adapters/torznab.py:179-251 | The same of the second copy, which does not convert the file count |
| FeedRanking.RankedIsRanking | src/softarr/adapters/usenet.py:274-285 | One result per name and version, the earliest of the largest, ordered by score, then size, then first appearance of the key |
| FeedRanking.RankingMeans | src/softarr/adapters/usenet.py:274-285 | In plain words: kept are the earliest of the largest of each name and version; a higher score goes first, then a larger size, then what appeared first |
| FeedRanking.RankingIsUnique | src/softarr/adapters/usenet.py:281-285 | That description leaves only one list, so it determines the result |
| FeedRanking.OneResultPerKey | src/softarr/adapters/usenet.py:274-277 | No two results share a lower-cased name and version, and every key of the feed has one |
| FeedRanking.DedupIsIncremental | src/softarr/adapters/usenet.py:274-277 | The survivors of one feed followed by another feed give the dictionary of both feeds together, order included |
| FeedRanking.OrderMattersOnlyForTies | src/softarr/adapters/usenet.py:274-277 | The chosen items are independent of feed order if and only if no key has two different items of its largest size |
| FeedRanking.CopiesAgree | src/softarr/adapters/torznab.py:227-236 | The two adapters return the same list or both fail, exactly unless some relevant item has a file count that does not convert while every relevant size does |
| FeedRanking.CopiesDiffer | src/softarr/adapters/usenet.py:257 | A feed of one item on which they differ: its file count does not convert, and only the Usenet adapter fails |
| BooleanFilter.EvalAndClause | src/softarr/services/search_filter_service.py:88-107 | The loop over a clause computes its meaning by tokens |
| BooleanFilter.Match | src/softarr/services/search_filter_service.py:82-120 | Tokenising, splitting at OR and evaluating compute whether some clause holds |
| BooleanFilter.ApplyBooleanKeeps | src/softarr/services/search_filter_service.py:122-125 | The filter keeps, in order, exactly the results that the expression matches, blank expressions included |
| SearchQueries.PrintedQueryKeeps | src/softarr/services/search_filter_service.py:69-125 | Filtering with any printed DNF query, in any spelling of operators and spaces, keeps exactly the results in whose name its words occur in any case of letters as it denotes; AND binds tighter than OR |
| SearchQueries.ClausesOfQuery | src/softarr/services/search_filter_service.py:109-118 | Splitting the tokens of a printed query gives back its clauses |
| SearchQueries.OrIsUnion | src/softarr/services/search_filter_service.py:109-120 | For all strings, "e1 OR e2" is the order-preserving union |
| SearchQueries.AndIsIntersection | src/softarr/services/search_filter_service.py:88-107 | For OR-free halves "e1 AND e2" is the intersection, unless a dangling NOT of the first half falls on a word of the second |
| SearchQueries.LeakedNotExcludes | src/softarr/services/search_filter_service.py:97-102 | In that case it keeps nothing that the second half keeps, so it is the intersection exactly when both are empty |
| SearchQueries.AndExactly | src/softarr/services/search_filter_service.py:88-107 | For OR-free halves and any list: "e1 AND e2" keeps the intersection if and only if no result of the list matches e1 and all of e2 behind the word that a dangling NOT of e1 falls on |
| SearchQueries.NotLeaksIntoB | src/softarr/services/search_filter_service.py:97-102 | An instance: "a NOT" joined with "b" keeps a result named "a" that is not in the intersection |
| SearchQueries.KeepIsIdempotent | src/softarr/services/search_filter_service.py:122-125 | Every filter leaves a subsequence, and applying it twice is applying it once |
| SearchQueries.SingleWordIsExact | src/softarr/services/search_filter_service.py:61-66 | A word that is no operator filters as the substring filter does |
| SearchCase.BooleanIgnoresCase | src/softarr/services/search_filter_service.py:69-125 | Queries and names that differ in the case of letters only keep the same results |
| SearchCase.ExactIgnoresCase | src/softarr/services/search_filter_service.py:61-66 | The same of the substring filter |
| SearchCase.ExactKeeps | src/softarr/services/search_filter_service.py:61-66 | The substring filter keeps, in order, the results in whose name, or display name without one, the stripped query occurs in any case of letters |
| Text.ContainsMeans | src/softarr/services/search_filter_service.py:61-66 | A string contains exactly the strings that can be cut out of it |
| Text.CaseOf | src/softarr/services/search_filter_service.py:22 | lower() and upper() take each of the 26 letters to its other case and leave every other character |
| Text.CaseMeans | src/softarr/services/search_filter_service.py:22 | Two texts have the same lower case, and the same upper case, exactly if they differ in the case of letters only |
| Text.ContainsIgnoresCase | src/softarr/services/search_filter_service.py:61-66 | The substring test on lower-cased texts finds exactly what occurs letter by letter in any case |
| Text.StripMeans | src/softarr/services/search_filter_service.py:122 | What is stripped is the whitespace at both ends, and all of it |
| IniStore.IniSettingsManager.GetAllMasked | src/softarr/core/ini_settings.py:724-741 | For each definition in order the value and the mark that it is set, read from the file; a secret that is set is shown as four stars and its last four characters, or as four stars if it has no more than four |
| IniStore.IniSettingsManager.ImportConfig | src/softarr/api/v1/settings.py:503-514 | The file that the accepted entries leave; applied plus skipped is the number of entries, applied the number accepted |
| IniStore.IniSettingsManager.Set | src/softarr/core/ini_settings.py:710-722 | The new file; fails exactly for unknown keys |
| IniStore.IniSettingsManager.Get | src/softarr/core/ini_settings.py:697-708 | The stored value, the default where there is none, nothing for an unknown key |
| IniStore.IniSettingsManager.UpdateIndexer | src/softarr/core/ini_settings.py:831-867 | The new file with field updates and rename; a taken name raises and stores nothing, even after field updates; otherwise the saved section read back, which may raise after the save |
| IniStore.IniSettingsManager.CreateIndexer | src/softarr/core/ini_settings.py:791-829 | The new file; fails exactly for a name in use |
| IniStore.IniSettingsManager.DeleteIndexer | src/softarr/core/ini_settings.py:869-878 | The new file; whether there was something to delete |
| IniStore.IniSettingsManager.RecordIndexerResult | src/softarr/core/ini_settings.py:926-952 | The new file; raises exactly when the stored counter cannot be read |
| IniStore.IniSettingsManager.GetIndexerStats | src/softarr/core/ini_settings.py:954-973 | All five statistics as stored, none for an unknown indexer, an error where a number cannot be read |
| IndexerCounters.RecordShows | src/softarr/core/ini_settings.py:926-973 | A recorded result raises its counter by one and becomes the last of its kind; no other statistic changes |
| IndexerSections.IndexerMeans | src/softarr/core/ini_settings.py:750-769 | What a section reads as, key by key, with what stands for a missing key, and exactly when reading raises |
| IndexerSections.CreatedReadsBack | src/softarr/core/ini_settings.py:791-829 | A new indexer reads back as it was given |
| IndexerSections.ChangedReadsBack | src/softarr/core/ini_settings.py:845-852 | A field update changes the field that it names and no other; unknown fields are passed over |
| IndexerSections.ChangedNumbersReadBack | src/softarr/core/ini_settings.py:845-852 | The same of the switch and the priority, which have to be readable |
| IndexerSections.StatsMean | src/softarr/core/ini_settings.py:954-973 | Under which key each statistic is kept |
| Decimals.ParsePrintInt | src/softarr/core/ini_settings.py:943-949 | Reading an integer the way int() does undoes writing it |
| Decimals.ParsePadded | src/softarr/core/ini_settings.py:943-949 | int() reads digits between any whitespace, with a sign or without |
| Decimals.ParseGrouped | src/softarr/core/ini_settings.py:943-949 | An underscore between digits does not count |
| Decimals.ParseRefuses | src/softarr/core/ini_settings.py:943-949 | A text with any other character, or with an underscore at the end, cannot be read |
| Decimals.ParseConcat | src/softarr/core/ini_settings.py:943-949 | The value of digits is by places of ten |
| SettingsExchange.GetAfterSet | src/softarr/core/ini_settings.py:697-722 | A write is read back under its key and changes no other setting |
| SettingsExchange.ImportOfExport | src/softarr/api/v1/settings.py:503-514 | Importing A's export into B gives B A's value of each setting not exported as a mask and leaves B's own value of the rest |
| SettingsExchange.ReimportKeepsSettings | src/softarr/api/v1/settings.py:471-514 | Export then import is the identity on every effective setting of every file |
| SettingsExchange.AppliedOfExport | src/softarr/api/v1/settings.py:503-514 | An export has two entries per setting, of which an import applies those in the clear |
| SettingsExchange.ExportDiscloses | src/softarr/api/v1/settings.py:471-487 | Two files export the same exactly if they agree on all that is no secret and each secret is empty in both, has one to four characters in both, or ends in the same four characters |
| SettingsExchange.ImportTakes | src/softarr/api/v1/settings.py:503-514 | The text that an entry sets, and which entries are passed over |
| SettingsExchange.OthersUnchanged | src/softarr/core/ini_settings.py:831-878 | Every operation leaves every section outside its own as it was |
| SettingsExchange.ImportKeepsIndexers | src/softarr/core/ini_settings.py:710-722 | An import changes no indexer |
| IndexerCounters.CountersCountResults | src/softarr/core/ini_settings.py:926-973 | From a file without indexers, after any operations: an indexer's counters are the results recorded against it since its creation, under all its names |
| IndexerCounters.StepKeeps | src/softarr/core/ini_settings.py:791-878 | Every critical section keeps that invariant for every indexer |
| IndexerCounters.NoLostUpdates | src/softarr/core/ini_settings.py:926-952 | For every interleaving of threads whose operations neither remove nor rename the indexer, a counter grows by the results all of them recorded |
| Versions.VersionTuple | src/softarr/utils/version.py:6-26 | The loop with its break reads the leading numeric parts, (0,) if there are none |
| Versions.ParseUndoesPrint | src/softarr/utils/version.py:6-26 | Any numbers in decimal with any separators, behind any spaces and v's, before any non-numeric tail, parse back |
| Versions.VersionsAreOrdered | src/softarr/utils/version.py:29-43 | The comparison is total, sign-antisymmetric and transitive, and unparseable versions are lowest |
| Versions.VersionIsAbove | src/softarr/utils/version.py:29-43 | One version is above another exactly if its tuple has the greater number where they first differ, or goes on where the other ends |
| Versions.UnreadableIsZero | src/softarr/utils/version.py:6-26 | A version without a digit in front, behind spaces and v's, reads as (0,) |
| Upgrades.ParsersAgree | src/softarr/api/v1/software.py:474-482 | The two version parsers agree on every dotted decimal |
| Upgrades.FindUpgrades | src/softarr/services/release_service.py:631-653 | The loop keeps the newer versions, nothing unless something is downloaded |
| Upgrades.UpgradesConcat | src/softarr/services/release_service.py:649-653 | The upgrades stand in the order of the results |
| Upgrades.UpgradesOfOne | src/softarr/services/release_service.py:649-653 | A result is an upgrade exactly if it has a name and is above what is downloaded |
| Upgrades.SchedulerPick | src/softarr/services/scheduler_service.py:168-187 | The scheduler stops at the first of the upgrades that passes the version pin |
| Upgrades.PinMeans | src/softarr/services/release_rules_service.py:75-113 | What a pin lets through: an exact one its version, a major one what has its value before the first dot, any other everything |
| Upgrades.PickIsFirst | src/softarr/services/scheduler_service.py:168-187 | The first result that has a name, is above what is downloaded and is let through; none exactly if there is none |
| Upgrades.UpdateMeansUpgrade | src/softarr/api/v1/software.py:393-405 | For all lists: a reported update is a listed version that is newer, so there is an upgrade to be found |
| Upgrades.PickIsFirstHighest | src/softarr/api/v1/software.py:393-397 | The check picks the first of the results that the second parser puts highest |
| Upgrades.AgreeExactly | src/softarr/api/v1/software.py:393-412 | For every list: the version check agrees with the search for upgrades, whatever is downloaded, if and only if no listed version is above the one that the second parser puts first |
| Upgrades.NothingDownloaded | src/softarr/api/v1/software.py:399-405 | With nothing downloaded the check reports exactly the picks that have a name |
| Upgrades.CheckAgreesWithUpgrades | src/softarr/api/v1/software.py:393-412 | So on dotted decimals an update is reported exactly when there is an upgrade to be found, and the pick is a maximum |
| Upgrades.CheckMissesUpgrade | src/softarr/api/v1/software.py:474-482 | An instance where the condition fails and the check misses the upgrade: a leading v makes the second parser drop the major number |
| Retention.ReleaseTable.RetentionPass | src/softarr/main.py:263-286 | Exactly the doomed rows are deleted, and how many each part deletes |
| Retention.ReleaseTable.KeepLatestDownloaded | src/softarr/services/release_service.py:609-629 | The slice deletes exactly the downloads with at least that many newer ones of their software |
| Retention.NewestAreKept | src/softarr/services/release_service.py:609-629 | Each software entry is left with min(N, count) downloads, each created later than each deleted one, or at the same time with a smaller id |
| Retention.DownloadGoes | src/softarr/services/release_service.py:609-629 | A download is deleted exactly if its entry is purged and has at least N downloads that were created later |
| Retention.OthersAreKept | src/softarr/services/release_service.py:573-607 | Any other row is deleted exactly when it is discovered or, if enabled, rejected, and over age |
| Retention.LatestAndWantedStay | src/softarr/services/release_service.py:433-448 | A pass changes neither the latest downloaded release nor which entries are wanted |
| WorkflowRetention.RetentionOnTable | src/softarr/main.py:263-286 | On the stored releases of the workflow the pass does what RetentionPass does to the table |
| WorkflowRetention.RetentionOnReleases | src/softarr/main.py:263-286 | Exactly which stored releases a pass deletes, in terms of their state, entry and age |
| WorkflowRetention.RetentionIsDeletes | src/softarr/services/release_service.py:573-629 | The pass is the run of events that deletes the doomed releases, in whatever order |
| Retention.PassIsIdempotent | src/softarr/main.py:263-286 | A second pass at the same time deletes nothing |
| Passwords.AuthService.CheckHistory | src/softarr/services/password_policy_service.py:59-79 | The search loop allows exactly what is not among the last n of the user's history; any password for n not positive |
| Passwords.AuthService.ValidatePassword | src/softarr/services/password_policy_service.py:33-57 | Every broken rule is reported once and nothing else, with the characters of each rule written out; there are no errors exactly if the password is acceptable |
| Passwords.AuthService.SelfServiceChange | src/softarr/api/v1/auth_routes.py:38-75 | The outcome of each check in its order, and the new state |
| Passwords.AuthService.ChangePassword | src/softarr/auth/service.py:130-161 | The new password and the history row of the old one |
| Passwords.AuthService.AdminResetPassword | src/softarr/auth/service.py:123-128 | A reset installs the password and leaves the history alone |
| PasswordReuse.HistoryIsRetired | src/softarr/auth/service.py:145-155 | After any run a user's history is what that user gave up by self-service, in order; resets and other users leave nothing in it |
| PasswordReuse.NoRecentPassword | src/softarr/services/password_policy_service.py:59-79 | In any mixed run a self-service change never installs one of the last n passwords its user gave up by self-service |
| PasswordReuse.PasswordsAreSpaced | src/softarr/services/password_policy_service.py:59-79 | Without resets of the user, passwords 2 to n + 1 places apart differ |
| PasswordReuse.PossiblePasswords | src/softarr/api/v1/auth_routes.py:38-75 | Exactly which lists of passwords a user can go through by self-service |
| PasswordReuse.PossibleChoices | src/softarr/auth/service.py:123-155 | Exactly which choices succeed one after the other when a user's changes and resets are mixed: a change must satisfy the policy and be none of the last n given up by self-service before or during the run |
| PasswordReuse.CurrentMayBeKept | src/softarr/services/password_policy_service.py:59-79 | The password in use may be chosen again |
| PasswordReuse.ResetForgets | src/softarr/auth/service.py:123-128 | The password a reset took away may be chosen right after it |
| Stamps.StampOrder | src/softarr/services/backup_service.py:63 | Stamps compare as text exactly as their clocks do, and are told apart |
| Stamps.StampReads | src/softarr/services/backup_service.py:63 | Each field of the clock reads back from its own place in the stamp |
| Backups.BackupDirectory.PruneOldBackups | src/softarr/services/backup_service.py:106-137 | What is left after pruning, with files that refuse to be deleted; the count is the number of files removed |
| Backups.BackupDirectory.RunBackup | src/softarr/services/backup_service.py:31-103 | When a backup is skipped or fails, what it copies, and what pruning then leaves; nothing is pruned after a failed copy |
| Backups.StampsAre | src/softarr/services/backup_service.py:113-122 | Which names count as files of a backup |
| Backups.CopiesMean | src/softarr/services/backup_service.py:63-89 | Which files a backup leaves, under which names, failed copies included |
| Backups.SuffixIsMostRecent | src/softarr/services/backup_service.py:124-125 | The stamps left by the slice are the most recent min(keep, count) |
| Backups.MostRecentIsUnique | src/softarr/services/backup_service.py:124-125 | There is only one such set |
| Backups.RecentByClock | src/softarr/services/backup_service.py:124-125 | A set that is kept is later by the clock than one that is not |
| Backups.PruneAgain | src/softarr/services/backup_service.py:106-137 | Pruning a pruned directory again, with the same files refusing to be deleted, keeps the same sets and deletes no file |
| Backups.PrunedDirectory | src/softarr/services/backup_service.py:126-136 | The directory then holds exactly the kept sets, and every file that is no backup |
| Backups.NewBackupIsKept | src/softarr/services/backup_service.py:63-96 | A backup taken later than those in the directory survives its own pruning |
| Pagination.PagesCover | src/softarr/schemas/release.py:84 | The announced pages hold every item once in order; all but the last are full, the last is not empty, later ones are |

## Left out

- WorkflowQueue.DownloadedIsLast: for histories that are fresh and free of overrides; WorkflowQueue.DownloadedUntil says for all runs exactly what ends DOWNLOADED.
- WorkflowHooks.HandleHook: the webhook's secret, malformed bodies and notifications are not modelled.
- WorkflowService.ReleaseService.FinishSend: the audit row and the notification of a send, and those of a send that fails at the client, are not modelled; the audit log of the model holds the completion rows.
- WorkflowPolling.PollQueued: one pass is one method, so steps of other actors between its transitions are covered by the run theorems only; the query for queued torrents is an input.
- Scheduler.CheckResults: one pass is one method that no other actor interrupts; SchedulerRuns.AutoApproval covers the others' events from the last refresh of the analysis up to the approval, between all commits and refreshes on the way; the commit of the flag reasons writes no column of the model. The analysis, the reject rules and the confidence of each result are inputs; the later part of a pass that queues an upgrade consists of the halves of a send, and it counts what it queued as automatically approved too.
- Scheduler.ProcessAndStore: the same; the branch in which the analysis raises makes the same commits with no flag.
- Upgrades.AgreeExactly: for a downloaded version that is not the empty string; Upgrades.NothingDownloaded has the other cases.
- Upgrades.SchedulerPick: the pin's texts only; notifications and the queueing that follows are not modelled.
- Feed.ParseNewznabResponse: title cleaning, version extraction, segment detection and the similarity ratio are inputs per item; publishers, links and the preview data are not modelled.
- Feed.ParseTorznabResponse: the same inputs per item.
- IniStore.IniSettingsManager.UpdateIndexer: fields arrive as the text that is stored.
- IndexerCounters.NoLostUpdates: a critical section is one step; failures of the disk while saving are not modelled.
- PasswordReuse.HistoryIsRetired: each password request is one step; the endpoint awaits between the history check and the commit, so two changes of one user at the same time are not covered.
- Retention.ReleaseTable.RetentionPass: one step at one time (the deletions of WorkflowRetention may be interleaved with other events), releases of the same creation time in the order of their ids; the audit-log pruning of the pass is the PruneAudit event of Workflow.
- Passwords.AuthService.ValidatePassword: ASCII letters and digits; the wording of the messages.
- Passwords.AuthService.ChangePassword: hashing is idealised, history rows are in the order they were added, and the time of the change is not kept.
- Backups.BackupDirectory.RunBackup: file permissions and a directory that cannot be made or read are not modelled.
- configparser's text syntax, interpolation, the DEFAULT section and the folding of option names to lower case.
- Floating point: the bucket and the scores are real numbers. Unicode: text is ASCII.
- Bulk rejection and bulk deletion (the loop of bulk approval again), the other search modes (regular expressions and difflib), the flag engine, trust levels, two-factor login, login sessions, notifications, templates and the HTTP layer.
