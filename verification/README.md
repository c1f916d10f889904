# Career OS: verified model of its protocols and text algorithms

This project models five parts of the Career OS back end and proves their central properties in Dafny 4.11.
`dafny verify dfyconfig.toml` checks everything.

1. **The Radar.** Watched companies' job boards are polled under a lease: a poll claims the company's row, fetches,
   triages what it has not seen with an LLM, stores, commits, screens with an LLM, and finalises. Users dismiss,
   promote and retarget meanwhile.
   - `RadarLease` is the lease as a state machine: semaphore, row lock, claim timestamp, staleness, cancellation and
     crashes, at the grain of single database operations.
   - `RadarTriage` and `RadarScreening` are the two loops driven by an arbitrary LLM, a function from call number to
     reply.
   - `RadarFeed` is the state machine of the rows. A poll is three steps in it (store, read what is to be screened,
     write the scores and finalise), a request is one.
   - `RadarPoll` has the theorems about whole polls, `RadarOutcomes` what polls come to column by column, told from
     the board and the replies, and `RadarPipeline` the theorems about duplicate jobs.
   - `RadarService` is a class whose methods are the poller and the request handlers, each proved to do exactly its
     step and to have its outcome.
2. **Retrieval.** `RagChunking` (chunks, ids, re-indexing), `ResumeChunks` (which chunks a resume has) and `RagRanking`
   (per-query top-k, merge by id, global ranking).
3. **Text algorithms.** `JobUrl` and `JobIdentity` (normal forms of URLs, and when two are the same), `FlattenedText`,
   `JobSection`, `Whitespace` and `WhitespaceGaps`, `ClassifierWindows`, `ClassifierVotes`, `PasteHtml`.
4. **Edits and progress.** `ResumeEdits` is what suggestions do to a resume, `ResumeOutcomes` the same told by where
   their text occurs, `ResumeEditor` the in-place code on a deep copy; `Progress` is the improvement tracker.
5. **Derived state.** `SearchMerge` (deduping searches) and `FeedbackLog` (memories and statuses against the log).

`PyText` holds the Python string operations that several parts use; `Options` and `FiniteSets` are general.

Where a property one would expect does not hold, the project states exactly when it does:

- Two polls of one company can run at once when the first outlives its claim (`RadarLease.OverlapIffHolderStale`,
  `RadarLease.OverrunIsReachable`), although the docstring of `claim_company` calls the claim exclusive; and
  finalising clears the claim of whoever holds it.
- A posting that is dismissed or promoted while a poll is scoring it returns to the feed
  (`RadarFeed.FinishKeepsDecisionIff`, `RadarPoll.DismissedDuringScreenReturns`), although the docstring of
  `set_radar_target` says that decisions survive. Which decisions are safe for all replies is
  `RadarFeed.DecisionSurvivesEveryReplyIff`; and decisions stand over every run whose requests keep away from the rows
  within the reach of a screen (`RadarFeed.DecisionStands`).
- A target change while a poll is scoring costs the poll its scores
  (`RadarPoll.TargetChangeDuringScreenLosesScores`).
- A store can be rejected by the unique constraint, and then the poll dies with its claim still set
  (`RadarService.RadarDb.PollClaimed`). It is accepted for every reply of the LLM exactly when no id is listed twice that
  has no row when the poll stores, and whatever becomes of the rows exactly when no id is listed twice at all
  (`RadarPoll.AcceptedForEveryReplyIff`, `RadarPoll.AlwaysAcceptedIff`).
- `normalize_job_url` is not idempotent for a `currentJobId` that does not come back from the URL built on it, such as
  `abc`, so a URL with one can be created twice (`JobUrl.IdempotentIff`, `JobUrl.StableIdIff`,
  `RadarPipeline.PlainTwiceCreatedIff`).
- Beyond the per-query limit the merged ranking need not be the global one (`RagRanking.RanksForEveryEmbedderIff`).
- The last job branch of the vote is dead only for thresholds above -1 (`ClassifierVotes.LastJobBranchIff`).
- The recorded score delta can differ by a tenth from the difference of the recorded scores
  (`Progress.DeltaWithinATenth`).
- Without a vote the order of the chunks can decide (`ClassifierVotes.OrderDoesNotMatterIff`).
- The user interface's scan of the log can differ from the stored status: of a job's feedback when creation times tie
  (`FeedbackLog.EveryScanAgreesIff`), of a profile's also when another profile recorded the last outcome
  (`FeedbackLog.ProfileScanAgreesIff`, `FeedbackLog.EveryProfileScanAgreesIff`).

## Model

| member | source | states |
|---|---|---|
| `RadarLease.StepKeepsPermits` | app/services/radar/poller.py:44-48 | Every step of every run keeps live polls plus free permits equal to the semaphore size, a crash and restart included. |
| `RadarLease.StepKeepsNothingAhead` | app/services/radar/poller.py:58-82 | No claim and no clock reading is ever ahead of the clock, and no run names a company that was never watched. |
| `RadarLease.StepKeepsLockSound` | app/services/radar/poller.py:63-82 | At most one run is inside a company's row lock, and the claim it judged free is still on the row when it commits. |
| `RadarLease.StepKeepsExclusive` | app/services/radar/poller.py:58-82 | If every live poll is younger than the stale limit, each step keeps: one live poll a company, none beside a run about to commit, and the row carries that poll's start time. |
| `RadarLease.LeaseSafety` | app/services/radar/poller.py:58-165 | Over every interleaving of claims, finalises, cancellations, crashes, removals, row locks of other transactions and clock ticks in which polls met the time bound so far, no company has two live polls and each live poll's start is what its row carries. |
| `RadarLease.RunIsSound` | app/services/radar/poller.py:44-82 | The permit, clock and lock invariants hold in every reachable state, with no assumption on how long a poll takes. |
| `RadarLease.OverlapIffHolderStale` | app/services/radar/poller.py:71-80 | Beside a live poll another run gets the row lock if and only if the live claim has reached the stale limit on the clock the other run read and no other transaction has the row locked. |
| `RadarLease.AttemptSucceedsIff` | app/services/radar/poller.py:58-91 | An uninterrupted claim succeeds exactly when the company exists, nobody has its row locked (a claim, an uncommitted posting or target change), and its claim is absent or stale; a failed one changes nothing. |
| `RadarLease.NoCompanyWedged` | app/services/radar/poller.py:60-82 | From every reachable state, after a crash, every watched company can be claimed once the limit has passed. |
| `RadarLease.StepOnRow` | app/services/radar/poller.py:58-155 | What every step makes of a company's row and of the locks on it: rows come only by watching, unclaimed, and go only by unwatching; a claim is set by a commit, cleared by a finish and kept by every other step. |
| `RadarLease.InterruptedClaimStands` | app/services/radar/poller.py:58-91 | Over every run a claim stays on its row, through cancelled polls and crashes, until a poll of the company claims or finishes or the company is no longer watched. |
| `RadarLease.OverrunPollIsJoined` | app/services/radar/poller.py:74-82 | A poll that outlives its claim is joined by a second poll of the same company. |
| `RadarLease.OverrunFinishFreesTheSuccessor` | app/services/radar/poller.py:153-155 | When the overrunning poll finishes it clears the second poll's claim, so a third can start at once. |
| `RadarLease.OverrunIsReachable` | app/services/radar/poller.py:58-165 | The failing states are reachable from an empty service: mutual exclusion really needs the time bound. |
| `RadarTriage.BatchesPartition` | app/services/radar/triage.py:52-56 | Concatenating the batches gives back the input, and each batch has 1 to 60 postings. |
| `RadarTriage.PicksAreDistinctAndNamed` | app/services/radar/triage.py:69-77 | For any list of indices, negative, repeated or out of range: each named position in range is picked once and nothing else. |
| `RadarTriage.PicksInOrder` | app/services/radar/triage.py:69-77 | They come in the order in which the reply first names them. |
| `RadarTriage.TriageBatch` | app/services/radar/triage.py:59-77 | The loop over the reply keeps exactly the picked postings, in order of first mention. |
| `RadarTriage.TriageBatchWithRetry` | app/services/radar/triage.py:80-103 | One retry after an error, the whole batch kept after two, any other exception passed on, and the number of calls. |
| `RadarTriage.TriageBatches` | app/services/radar/triage.py:132-134 | The kept postings of the batches in order, with at most two calls a batch. |
| `RadarTriage.TriagePostings` | app/services/radar/triage.py:106-141 | What triage returns for every LLM behaviour, with at most 2*min(10, ceil(n/60)) calls. |
| `RadarTriage.KeptIsDistinct` | app/services/radar/triage.py:69-77 | The result uses each input position at most once. |
| `RadarTriage.KeptExactly` | app/services/radar/triage.py:80-134 | A posting survives if and only if it lies beyond the 10-batch cap, its batch was refused on both calls, or the reply that decided its batch, on the first call or the second, names its place; which call belongs to which batch is told from the replies alone. |
| `RadarTriage.CrashesIff` | app/services/radar/triage.py:92-100 | Triage raises if and only if a call of a triaged batch does: the first, or the second after a refused first. |
| `RadarTriage.KeptInOrder` | app/services/radar/triage.py:125-141 | What comes through keeps the order of the batches and, within one, that of first mention, or of the list when the batch was refused twice or lies beyond the cap. |
| `RadarTriage.CallsAreBounded` | app/services/radar/triage.py:80-100 | b batches take between b and 2b calls. |
| `RadarTriage.DeadProviderKeepsAll` | app/services/radar/triage.py:92-103 | A provider that refuses every call keeps every posting, in order. |
| `RadarScreening.ScreenPostings` | app/services/radar/screener.py:97-143 | The in-place loop: exactly the attempted rows with an answer change, all within the first cap rows, each to its own reply; every other row is untouched; the count returned is the number of rows changed. |
| `RadarScreening.ScoredIff` | app/services/radar/screener.py:122-141 | A row is scored if and only if no call before its own crashed, no two calls in a row before it were refused, and its own is answered. |
| `RadarScreening.CrashIff` | app/services/radar/screener.py:122-136 | The loop ends in a crash if and only if a call that is made so crashes. |
| `RadarScreening.FailuresBeforeStop` | app/services/radar/screener.py:122-136 | While no failure run has reached the limit K, failures are at most (K-1)*scored plus the current run. |
| `RadarScreening.FailureBound` | app/services/radar/screener.py:122-143 | failures <= (K-1)*(scored+1)+1 for every LLM behaviour and every K >= 1, and without the +1 when the batch is not given up. |
| `RadarScreening.CompletedBatchScoresHalf` | app/services/radar/screener.py:31-31 | A batch of m that is not abandoned scores at least floor(m/2). |
| `RadarScreening.AnsweringProviderScoresAll` | app/services/radar/screener.py:122-143 | A provider that always answers scores the whole batch. |
| `RadarScreening.DeadProviderStopsEarly` | app/services/radar/screener.py:128-136 | A dead provider is given up after exactly K calls and scores nothing. |
| `RadarFeed.RefreshTakesLast` | app/services/radar/poller.py:193-199 | A known row takes title and location from the last incoming item with its id; a missing URL leaves the stored one. |
| `RadarFeed.RefreshSkipsOthers` | app/services/radar/poller.py:190-192 | A row no incoming item speaks of stays as it is. |
| `RadarFeed.FreshIsUnknown` | app/services/radar/poller.py:190-215 | The items that get new rows are exactly the incoming ones whose id the company does not have yet. |
| `RadarFeed.StoredRow` | app/services/radar/poller.py:173-218 | After a store a row is an old one with only its advert and last-seen time changed, or the new row of a fresh item; its columns are those of `RadarOutcomes.StoreComesTo`. |
| `RadarFeed.StoreKeepsRoles` | app/models/__init__.py:186-192 | An accepted store keeps (company, external id) unique. |
| `RadarFeed.StoreKeepsOk` | app/services/radar/poller.py:173-218 | A store, accepted or rejected by the unique constraint, keeps the whole row invariant. |
| `RadarFeed.FinishedRow` | app/services/radar/screener.py:137-141 | Row by row after a finished screen, whichever way the driver treats a scored row that is gone: a scored row carries its own reply, every other row is unchanged. |
| `RadarFeed.FinishedRowShape` | app/services/radar/poller.py:129-155 | A finished screen never touches role, owner or job id, and undoes a decision exactly on the rows it writes, under either treatment of missing rows. |
| `RadarFeed.FinishKeepsOk` | app/services/radar/poller.py:129-155 | A screen keeps the row invariant whatever happened to its rows since they were read. |
| `RadarFeed.PromoteKeepsOk` | app/services/radar/promote.py:42-81 | Promotion keeps the invariant: promoted implies a job, and a posting makes at most one job. |
| `RadarFeed.StepKeepsOk` | app/services/radar/poller.py:85-218 | Every step (poll steps, dismissal, promotion, target change, job creation and deletion, adding and removing companies) keeps the row invariant. |
| `RadarFeed.RunIsOk` | app/services/radar/poller.py:85-248 | In every reachable state: roles unique; new implies no score; screened implies a score in 0..100; promoted implies a job; foreign keys resolve; each posting made at most one job. |
| `RadarFeed.StepKeepsRow` | app/services/radar/promote.py:42-79 | No step clears or replaces a set job id, and none removes a decided row of a company that stays watched. |
| `RadarFeed.JobIdPersists` | app/services/radar/promote.py:42-79 | Over every run, polls interleaved at will, a set job id is the same for as long as its row exists. |
| `RadarFeed.FinishKeepsDecisionIff` | app/services/radar/poller.py:129-155 | A finished screen keeps a decision if and only if it does not write that row: its commit fails, or none of its scored positions holds the row. |
| `RadarFeed.DecisionSurvivesEveryReplyIff` | app/services/radar/poller.py:129-155 | Whatever has become of the rows a screen read, a decision survives it for all replies if and only if its row is not among the first 20 read, or a missing row loses the commit and two neighbours read before the row are gone. |
| `RadarFeed.OtherStepsKeepDecisions` | app/api/radar.py:231-238 | Every step but a finished screen keeps every decision. |
| `RadarFeed.ReachIsUndecided` | app/services/radar/poller.py:129-155 | When no request decided a row within the reach of a screen while it ran, every row that screen can write is still undecided when it finishes. |
| `RadarFeed.DecisionStands` | app/api/radar.py:217-272 | Over every run in which no request dismisses or promotes one of the first 20 rows of a screen between its read and its final commit, and for all replies, the decided set only grows while the company is watched. |
| `RadarFeed.DecidedRoleStaysOut` | app/api/radar.py:291-294 | Over such runs no row for a decided role is ever in a default feed again. |
| `RadarPipeline.PromoteKeepsUniqueUrls` | app/services/radar/promote.py:48-56 | Promotion never adds a second job for a stored URL, whatever the URL. |
| `RadarPipeline.CreateKeepsUniqueUrlsIff` | app/api/jobs.py:41-73 | Creation keeps stored URLs unique if and only if the lookup found a job, or the stored URL is blank or unused. |
| `RadarPipeline.StepKeepsUniqueUrls` | app/api/jobs.py:41-73 | Every step keeps stored URLs unique when the looked-up form of a created URL is its stored form. |
| `RadarPipeline.RunKeepsUniqueUrls` | app/api/jobs.py:41-73 | Over every run whose created URLs are plain with LinkedIn ids that come back, decimal ones among them, no two jobs share a stored URL. |
| `RadarPipeline.TwiceCreatedIff` | app/api/jobs.py:58-73 | Creating one URL twice makes two jobs exactly when normalising it twice differs from normalising it once. |
| `RadarPipeline.PlainTwiceCreatedIff` | app/services/job_url.py:26-35 | For every plain URL that is exactly a currentJobId that does not come back from the URL built on it. |
| `RadarPoll.FreshIsRelevant` | app/services/radar/poller.py:113-120 | With unchanged rows, the items stored as new are exactly the ones triage kept. |
| `RadarPoll.AcceptedForEveryReplyIff` | app/services/radar/poller.py:113-120 | For any ids the poll has read and any rows at the time it stores: the store is accepted whatever triage replies if and only if no id is listed twice that has no row then. |
| `RadarPoll.UnchangedAcceptedIff` | app/services/radar/poller.py:113-120 | With rows unchanged since the ids were read: if and only if no unseen id is listed twice. |
| `RadarPoll.AlwaysAcceptedIff` | app/services/radar/poller.py:113-120 | Whatever becomes of the rows between reading the ids and storing: if and only if no id is listed twice. |
| `RadarPoll.StoreAddsFresh` | app/services/radar/poller.py:217-218 | A store adds one row for each fresh item and no other. |
| `RadarPoll.PollConserves` | app/services/radar/poller.py:106-120 | new_postings + dropped_by_triage equals the number of unseen eligible postings, for every LLM behaviour. |
| `RadarPoll.DeadProviderStoresAll` | app/services/radar/poller.py:228-235 | With no LLM client, or one that refuses every call, every eligible posting ends up stored. |
| `RadarPoll.ScreenDrains` | app/services/radar/poller.py:238-248 | With an answering provider a screen takes exactly the oldest rows, up to the limit, off the backlog. |
| `RadarPoll.BacklogDrains` | app/services/radar/poller.py:127-131 | n pending postings are drained after exactly ceil(n/20) quiet polls with an answering provider, and not before. |
| `RadarPoll.DismissedDuringScreenReturns` | app/services/radar/poller.py:129-155 | From any state, a pending posting dismissed while an answering poll scores it is back in the default feed when the poll finishes. |
| `RadarPoll.TargetChangeDuringScreenLosesScores` | app/api/radar.py:233-252 | For every LLM behaviour, a target change while a poll scores costs the poll all its scores. The rest of its commit is lost too if and only if a row was scored and the flush raises over missing rows; otherwise the company counts as just polled, so the re-poll the change asked for waits for the interval. |
| `RadarPoll.DismissedThenTargetChangeIff` | app/api/radar.py:233-238 | A pending row dismissed while it is scored, followed by a target change. For each LLM behaviour the dismissal survives if and only if the row is not scored, or another one is and the flush that misses it raises. For all behaviours it survives if and only if the row is beyond the limit, or that flush raises and two rows were read before it. |
| `RadarOutcomes.FinishComesTo` | app/services/radar/poller.py:129-155 | What a finished screen leaves, from the replies alone: a row whose call was made and answered is screened with that score and reason; the company was just polled and is failed if a call that was made crashed, else active, unless the session held that status already; a commit that does not go through leaves all rows as they were. |
| `RadarOutcomes.StoreComesTo` | app/services/radar/poller.py:173-218 | What an accepted store leaves: a listed row is seen now with the last title and location and the last URL given; every other new row is new, unscored, and carries the id, advert and description of an item that had none; every item has a row. |
| `RadarOutcomes.AcceptedIff` | app/services/radar/poller.py:217-218 | A store is accepted if and only if the company is there and no two items share an id that has no row. |
| `RadarOutcomes.PollComesTo` | app/services/radar/poller.py:106-120 | The same for what a poll stores of a board: known rows are seen again by whatever the board lists, new rows are made for listed items. |
| `RadarOutcomes.PollStoresWhatPasses` | app/services/radar/poller.py:113-120 | Of the unseen postings exactly those have a row afterwards that pass: no LLM client, beyond the cap, a batch refused twice, or named by the deciding reply. There are as many new rows as postings that pass. |
| `RadarOutcomes.RejectedIff` | app/services/radar/poller.py:113-120 | An undisturbed store is rejected if and only if two unseen postings with one id pass. |
| `RadarOutcomes.TriageCrashesIff` | app/services/radar/poller.py:113-120 | Triage ends a poll in an error if and only if a call of one of its batches raises what it does not catch. |
| `RadarOutcomes.ScreenedCountIsAnswers` | app/services/radar/screener.py:122-143 | The number reported as screened is the number of calls that are made and answered. |
| `RadarOutcomes.FilterIsWanted` | app/services/radar/poller.py:106-107 | Filtering selects exactly the wanted items, in the order of the board. |
| `RadarOutcomes.FreshIsUnseen` | app/services/radar/poller.py:112-113 | The unseen items are exactly the wanted ones without a row, in that order. |
| `RadarOutcomes.ReportTells` | app/services/radar/poller.py:99-155 | A whole poll told from the board and the replies (`PollTells`): when it errs, dies or finishes, which rows it stores and screens, and what becomes of the company. |
| `RadarService.SplitIncoming` | app/services/radar/poller.py:190-215 | The upsert loop: known rows refreshed in order, the rest collected, against the specification on the old rows. |
| `RadarService.RadarDb.ClaimCompany` | app/services/radar/poller.py:58-82 | Claims exactly when the company exists, its row is not locked by another transaction, and its claim is absent or stale; writes nothing else. |
| `RadarService.RadarDb.StorePostings` | app/services/radar/poller.py:173-218 | Does the store step. Fails exactly when the company is gone or two items share an id without a row; otherwise says what is written, row by row, and how many rows are new. |
| `RadarService.RadarDb.UnscreenedPostings` | app/services/radar/poller.py:238-248 | Returns every unscored row of the company once, oldest first. |
| `RadarService.RadarDb.ScreenAndFinalise` | app/services/radar/poller.py:129-155 | Does the finish step on whatever the rows have become. It commits if and only if the company is there and, where a missing row loses the commit, every answered row is; then rows and company are as `RadarOutcomes.FinishComesTo` tells and the claim is released, else nothing changes. |
| `RadarService.RadarDb.SetRadarTarget` | app/api/radar.py:217-272 | Stores the trimmed target; the new and screened rows of the profile are gone and all others stay; its active companies become due and are returned; the count is that of the rows gone. |
| `RadarService.RadarDb.DismissPosting` | app/api/radar.py:334-345 | The row becomes dismissed and nothing else changes; a missing one is reported. |
| `RadarService.RadarDb.FindJob` | app/api/jobs.py:41-46 | Finds a job with the URL if there is one. |
| `RadarService.RadarDb.PromotePosting` | app/services/radar/promote.py:32-90 | A posting with a job keeps it. Otherwise it becomes promoted, decided and out of every default feed, and names a job that has its normalised URL or else a new one made for it with that URL; without either, when extraction fails, nothing changes. No other row or job changes. |
| `RadarService.RadarDb.CreateJobRow` | app/api/jobs.py:49-74 | A conflict if and only if a job has the twice-normalised URL; otherwise one new job with the once-normalised URL and no other change. |
| `RadarService.RadarDb.AddWatchedCompany` | app/api/radar.py:134-166 | Adds an active, never polled, unclaimed company unless the profile already watches that board. |
| `RadarService.RadarDb.RemoveWatchedCompany` | app/api/radar.py:189-195 | Removes the company and its postings; jobs stay. |
| `RadarService.RadarDb.PollClaimed` | app/services/radar/poller.py:99-155 | A claimed poll end to end, told from the board and the replies: it errs exactly when the board is not read or a triage call crashes, dies with its claim set exactly when two unseen postings with one id pass, and else stores exactly what passes, reports as many as new, screens the oldest waiting rows by their replies, and leaves the company active if and only if no attempted screening call crashed. |
| `RadarService.RadarDb.PollCompany` | app/services/radar/poller.py:85-165 | A whole poll: refused, changing nothing, exactly when the claim is; otherwise all that `PollClaimed` tells, and what becomes of the claim. |
| `JobUrl.RawIdempotentIff` | app/services/job_url.py:41-62 | Normalising a plain URL gives a plain URL, which normalises to itself if and only if the LinkedIn id it took, if any, comes back. |
| `JobUrl.StableIdIff` | app/services/job_url.py:26-35 | Exactly which job ids come back from the URL built on them: decimal ones; and ones with a question mark whose two sides, read as path and query, name no job and are canonical. |
| `JobUrl.IdempotentIff` | app/services/job_url.py:38-62 | On every plain URL, normalize_job_url twice is normalize_job_url once if and only if the LinkedIn id comes back. |
| `JobUrl.TrackingInsertion` | app/services/job_url.py:9-23 | Inserting a tracking parameter anywhere in the query leaves the result unchanged. |
| `JobUrl.HostlessIsStable` | app/services/job_url.py:48-62 | An authority without a host, before any path: the canonical form has none and is then left alone. |
| `JobUrl.QueryRoundTrip` | app/services/job_url.py:55-60 | The pairs written into the canonical query are read back from it. |
| `JobIdentity.IdentifiedIff` | app/services/job_url.py:48-62 | Two plain URLs with scheme and authority that name no LinkedIn job have one normal form if and only if they agree on the scheme and host in lower case, on the path up to the slashes at its end, and on the untracked parameters in order. |
| `JobIdentity.NormalFormParts` | app/services/job_url.py:48-62 | The normal form read back has that scheme, the lower-case host alone, the path without its trailing slashes (or one slash), and exactly the untracked parameters in order. |
| `JobIdentity.NormalFormOf` | app/services/job_url.py:48-62 | The normal form from what is written: user, port, fragment and trailing slashes go, scheme and host become lower case, path and untracked parameters stay. |
| `JobIdentity.PathIdNormalForm` | app/services/job_url.py:26-46 | A path that names a LinkedIn job: the URL built on the digits after the leftmost /jobs/view/ that digits follow. |
| `JobIdentity.QueryIdNormalForm` | app/services/job_url.py:31-46 | A query that does: the URL built on the first currentJobId that is not empty. |
| `JobIdentity.UnaddressedIsKept` | app/services/job_url.py:48-50 | A URL without scheme or authority that names no job is returned as it is. |
| `JobIdentity.UnsafeIsNotRead` | app/services/job_url.py:49-49 | Tabs and line ends anywhere in a URL, and blanks and control characters in front of it, are not read. |
| `JobIdentity.SurroundingSpace` | app/services/job_url.py:38-42 | White space around a URL does not matter, and a blank one is none. |
| `JobIdentity.ParamsDoNotMatter` | app/services/job_url.py:48-62 | The parameters of the last path segment do not matter, for the schemes that have them. |
| `JobIdentity.FieldIsRead` | app/services/job_url.py:31-31 | A query field is read as its key and value, a missing value as empty, and an empty field as none. |
| `RagChunking.DecimalInjective` | app/services/rag/chunking.py:55-55 | Decimal printing is injective. |
| `RagChunking.IdInjective` | app/services/rag/chunking.py:43-129 | Chunk ids parse uniquely: equal ids mean equal section, index and highlight index. |
| `RagChunking.ChunkStructuredResume` | app/services/rag/chunking.py:37-120 | The nested loops build exactly the specified chunks; a headline of blanks only is rejected by the chunk schema. |
| `ResumeChunks.ChunksOfResume` | app/services/rag/chunking.py:37-120 | A structured resume has exactly these chunks: the headline, each skill, degree, project description and highlight that is not blank, each with its id, its text behind its caption, and its section. |
| `ResumeChunks.ResumeInOrder` | app/services/rag/chunking.py:37-120 | They come by section, then by entry, the entry's own before its highlights. |
| `ResumeChunks.ChunksOfPlainText` | app/services/rag/chunking.py:123-135 | A plain resume has one chunk for each paragraph, numbered in order, or one for the whole text when it has none. |
| `ResumeChunks.ParagraphOf` | app/services/rag/chunking.py:124-124 | The paragraphs are the parts that are not blank, trimmed, in order. |
| `ResumeChunks.DecimalSpells` | app/services/rag/chunking.py:55-55 | The digits in an id spell its number, without a leading zero. |
| `RagChunking.StructuredIdsDistinct` | app/services/rag/chunking.py:37-120 | The chunk ids of any structured resume are pairwise distinct. |
| `RagChunking.PlainIdsDistinct` | app/services/rag/chunking.py:123-135 | The chunk ids of any plain resume are pairwise distinct. |
| `RagChunking.ReindexNeverCollides` | app/services/rag/indexing.py:44-80 | Re-indexing distinct chunks never violates the (profile_id, chunk_id) key; afterwards the profile's rows are exactly its chunks and other profiles' rows are untouched. |
| `RagChunking.ReindexSucceedsIff` | app/services/rag/indexing.py:44-80 | Re-indexing goes through if and only if the chunk ids are distinct. |
| `RagChunking.ReindexResume` | app/services/rag/indexing.py:51-72 | So re-indexing any structured resume goes through. |
| `RagRanking.SortDescSorts` | app/services/rag/retrieval.py:97-97 | The sort yields a descending permutation. |
| `RagRanking.MergeScoredChunks` | app/services/rag/match_context.py:19-25 | The dictionary loop computes the merge by id that the theorems are about. |
| `RagRanking.Retrieve` | app/services/rag/match_context.py:28-43 | The collecting loop computes the retrieval that the theorems are about. |
| `RagRanking.TopKExact` | app/services/rag/match_context.py:28-43 | The first min(per query, total) results carry exactly the largest best-over-queries scores in descending order, and each its chunk's true best. |
| `RagRanking.ResultIsHonest` | app/services/rag/match_context.py:19-43 | The whole result is descending, names no chunk twice and never claims more than a chunk's best score. |
| `RagRanking.WideQueriesMatchGlobalRanking` | app/services/rag/match_context.py:55-57 | When each query may return as many chunks as the total, or as there are, the scores are those of the global ranking. |
| `RagRanking.RanksForEveryEmbedderIff` | app/services/rag/match_context.py:28-57 | Exactly when the whole result can be relied on: its scores are the global ranking's for every embedder if and only if a query may return as many chunks as the total, or as there are, or there is nothing to show. |
| `RagRanking.SingleQueryIsGlobalRanking` | app/services/rag/match_context.py:55-57 | With one query the list is the global ranking itself, chunk by chunk. |
| `RagRanking.MatchRanksExactly` | app/services/rag/match_context.py:46-70 | Both for every structured resume, with its ids proved distinct rather than assumed. |
| `FlattenedText.NormalizeFlattenedJobText` | app/services/capture_text_normalization.py:130-148 | Terminates although the text grows; with at most three non-blank lines every occurrence of every marker ends up at the start of a line and before a newline, a blank or the end; otherwise the text is returned as it is. |
| `FlattenedText.LinesPartAtBreak` | app/services/capture_text_normalization.py:91-92 | A line break parts the lines before it from those after it. |
| `FlattenedText.LoneLine` | app/services/capture_text_normalization.py:91-92 | A text without a break is one line, trimmed, or none when it is blank. |
| `FlattenedText.BreakAtMarker` | app/services/capture_text_normalization.py:135-147 | One marker's pass settles that marker and keeps the earlier markers settled. |
| `FlattenedText.TraceAddsOnlyNewlines` | app/services/capture_text_normalization.py:140-145 | What the passes do to the text is insert newlines and nothing else. |
| `FlattenedText.SettledIsFixed` | app/services/capture_text_normalization.py:130-148 | A text whose markers are settled is left alone. |
| `FlattenedText.InsertKeepsSettled` | app/services/capture_text_normalization.py:140-145 | A break put in for one marker never unsettles another. |
| `FlattenedText.NoOverlap` | app/services/capture_text_normalization.py:146-147 | An occurrence that overlaps the end of a settled one cannot exist, so skipping past it misses nothing. |
| `FlattenedText.AllMarkersAreGood` | app/services/capture_text_normalization.py:57-68 | Every marker of the list has the shape the two previous facts need. |
| `JobSection.ExtractFromLines` | app/services/capture_text_normalization.py:151-173 | The section starts at the first heading and runs to the first stop or noise line. Unless the heading is plain it is introduced by exactly those of the up to four lines before it that have at most 120 characters and are neither stop nor noise, in order. |
| `JobSection.FindFirstMarker` | app/services/capture_text_normalization.py:106-117 | The leftmost place of any marker, and of several there the first in the list. |
| `JobSection.FindFirstStop` | app/services/capture_text_normalization.py:120-127 | The leftmost place of any stop marker. |
| `JobSection.ExtractInline` | app/services/capture_text_normalization.py:176-185 | The heading is the first marker of the list at the leftmost place of any; the body runs from there to the first stop marker after it, or to the end. |
| `JobSection.CutHasNoStop` | app/services/capture_text_normalization.py:182-184 | Cutting at the first stop leaves a text in which no stop marker stands. |
| `Whitespace.CollapsedIsNormal` | app/services/capture_text_normalization.py:95-99 | The result is trimmed, has no blank before a newline, no three newlines and no two blanks in a row: each later pass keeps what the earlier ones established. |
| `Whitespace.FixedIffNormal` | app/services/job_paste_parser.py:52-55 | The texts collapsing leaves alone are exactly those normal forms. |
| `Whitespace.CollapsePastedIdempotent` | app/services/job_paste_parser.py:52-55 | Collapsing twice is collapsing once. |
| `Whitespace.CollapseCapturedIdempotent` | app/services/capture_text_normalization.py:95-99 | The same for captured text, whose normal form has no carriage return either. |
| `Whitespace.CollapseKeepsInk` | app/services/job_paste_parser.py:52-55 | Collapsing keeps every character that is not whitespace, in order. |
| `WhitespaceGaps.PassesCollapseGaps` | app/services/job_paste_parser.py:52-55 | What the three passes compute: every word stays, and every gap between words becomes its newlines, at most two, and one blank for two or more blanks after the last of them. |
| `WhitespaceGaps.CollapseByGaps` | app/services/job_paste_parser.py:52-55 | So the collapsed text is the words with their gaps so collapsed, stripped. |
| `WhitespaceGaps.EveryTextIsWoven` | app/services/job_paste_parser.py:52-55 | Every text is made of words and gaps in turn, so the two results before speak of all texts. |
| `WhitespaceGaps.ReturnsVanish` | app/services/capture_text_normalization.py:95-99 | Captured text is collapsed as if its carriage returns were not there. |
| `ClassifierWindows.ChunkTextForClassification` | app/services/document_classifier/chunking.py:4-33 | The loop terminates. Blank text gives nothing, before a bad size and then a bad overlap give their errors; text that fits is one chunk; otherwise the windows. |
| `ClassifierWindows.LongTextIsWindows` | app/services/document_classifier/chunking.py:20-33 | The chunks of a longer text are its 1 + ceil((n - size)/step) windows that are not blank, trimmed and in order, window i reaching from i steps on as far as the size allows. |
| `ClassifierWindows.WindowCount` | app/services/document_classifier/chunking.py:20-31 | The window count is 1 + ceil((n - size)/(size - overlap)) when n > size, else 1. |
| `ClassifierWindows.WindowAt` | app/services/document_classifier/chunking.py:23-31 | Window i is the slice that starts at i steps; the last is the one that reaches the end. |
| `ClassifierWindows.WindowsRebuild` | app/services/document_classifier/chunking.py:20-31 | Dropping the overlap of every window but the first and concatenating rebuilds the text. |
| `ClassifierWindows.WindowsAdvance` | app/services/document_classifier/chunking.py:23-31 | No window lies inside its predecessor: it starts later and ends later. |
| `ClassifierWindows.EveryInkIsCovered` | app/services/document_classifier/chunking.py:11-33 | Every character that is not whitespace is in an emitted chunk. |
| `ClassifierWindows.ChunksFit` | app/services/document_classifier/chunking.py:11-33 | No chunk is blank, untrimmed or longer than the chunk size. |
| `ClassifierVotes.AggregateChunks` | app/services/document_classifier/page_classifier.py:48-121 | The one-pass loop and its chain of returns compute the vote that the theorems are about. |
| `ClassifierVotes.AggregateIsVerdict` | app/services/document_classifier/page_classifier.py:48-121 | The verdict from who votes: the first highest resume vote decides when the job side has none, or fewer votes, or as many and a lower best; else the first highest job vote; else the first of the most confident chunks; a score outside 0..1 fails. |
| `ClassifierVotes.BestIsFirstHighest` | app/services/document_classifier/page_classifier.py:67-79 | The best vote is the first of the highest-scoring votes. |
| `ClassifierVotes.LastJobBranchIff` | app/services/document_classifier/page_classifier.py:112-117 | The last job branch can be reached if and only if the threshold is at most the score the search starts from, -1. |
| `ClassifierVotes.OrderDoesNotMatter` | app/services/document_classifier/page_classifier.py:57-117 | Label, confidence and validity are invariant under any permutation of the chunks when any vote counts. |
| `ClassifierVotes.OrderDoesNotMatterIff` | app/services/document_classifier/page_classifier.py:57-121 | Exactly when every order of the chunks gives the same label, confidence and validity: some vote can be elected, or all chunks of the highest confidence have one label. |
| `ClassifierVotes.JobVoteNeverBackfires` | app/services/document_classifier/page_classifier.py:81-117 | A further job vote put in anywhere never turns a job post into a resume. |
| `PasteHtml.PasteHtmlParser.HandleStartTag` | app/services/job_paste_parser.py:14-21 | A stripped tag deepens by one; a breaking tag outside stripped ones adds a newline. |
| `PasteHtml.PasteHtmlParser.HandleEndTag` | app/services/job_paste_parser.py:23-30 | The end of a stripped tag rises by one unless nothing is open; a breaking tag outside stripped ones adds a newline. |
| `PasteHtml.PasteHtmlParser.HandleData` | app/services/job_paste_parser.py:32-38 | Text outside stripped tags is added trimmed with a blank after it, unless it is blank. |
| `PasteHtml.PasteHtmlParser.Feed` | app/services/job_paste_parser.py:58-61 | Feeding events runs the machine over them. |
| `PasteHtml.MachineReadsTree` | app/services/job_paste_parser.py:14-38 | On the events of any well-nested forest, from any state, the machine appends exactly the tree-recursive readable text and ends at the depth it began with. |
| `PasteHtml.DocumentIsRead` | app/services/job_paste_parser.py:9-41 | From the initial state it ends with that text and depth 0. |
| `PasteHtml.TreePieces` | app/services/job_paste_parser.py:32-38 | What is read of a document besides separators is every text under no stripped tag, trimmed, unless it is blank, in order. |
| `PasteHtml.DepthOnAnyStream` | app/services/job_paste_parser.py:14-30 | On any event stream at all the depth is opened minus closed stripped tags, less the lowest value that has had. |
| `PasteHtml.DepthIsOpenTags` | app/services/job_paste_parser.py:14-30 | Anywhere in a well-nested document the depth is the number of stripped tags open there. |
| `PasteHtml.UnclosedHidesTheRest` | app/services/job_paste_parser.py:15-17 | A stripped tag that is never closed hides everything after it. |
| `ResumeEdits.AllConserves` | app/services/resume_suggestion_apply.py:65-153 | Any list of suggestions keeps the number, order and identity of entries and every other key; total highlights never fall and rise by at most one a suggestion; the old skills stay a prefix. |
| `ResumeOutcomes.EditedIff` | app/services/resume_suggestion_apply.py:79-153 | What one suggestion does, by where its text occurs: a quoting rewrite replaces the first occurrence in the text and the first highlight that holds the quotation, or is it up to outer space; an add goes to the first entry admitted by the hint that lacks it, else to the first entry; a new skill goes to the end; nothing else changes. |
| `ResumeOutcomes.ComesToIff` | app/services/resume_suggestion_apply.py:79-153 | A list of suggestions is each applied to what the one before it left. |
| `ResumeOutcomes.FirstRewrittenIff` | app/services/resume_suggestion_apply.py:11-16 | The rewrite of a list: its first quoted highlight becomes the suggestion, and without one nothing changes. |
| `ResumeOutcomes.AddedAtPlaceIff` | app/services/resume_suggestion_apply.py:19-62 | The add to a list: at the end of the highlights of its place, and without a place nothing changes. |
| `ResumeEdits.RewriteTouchesFirstMatch` | app/services/resume_suggestion_apply.py:11-16 | A rewrite changes at most one highlight, the first match in entry and list order, into the suggestion. |
| `ResumeEdits.RewriteWithoutMatch` | app/services/resume_suggestion_apply.py:11-16 | Without a match a rewrite changes nothing. |
| `ResumeEdits.AddNeverDoubles` | app/services/resume_suggestion_apply.py:19-62 | An add never duplicates a highlight within its entry. |
| `ResumeEdits.AddLandsAtTaker` | app/services/resume_suggestion_apply.py:24-39 | An add goes to the end of the first entry that the hint admits and that can take it, else of the very first entry, and nowhere else. |
| `ResumeEdits.AddIsLostIff` | app/services/resume_suggestion_apply.py:19-39 | An add is lost exactly when the list is malformed, or no admitted entry nor the first one can take it. |
| `ResumeEdits.AllKeepSkillsDistinct` | app/services/resume_suggestion_apply.py:6-8 | Skills distinct up to case and outer whitespace stay so under any list of suggestions. |
| `ResumeEdits.AddedSkillsArrive` | app/services/resume_suggestion_apply.py:97-104 | Every skill that is suggested is there in the end, in some spelling. |
| `ResumeEdits.NothingStructured` | app/services/resume_suggestion_apply.py:86-93 | Without structured data only text and headline can change. |
| `ResumeEditor.ReplaceHighlight` | app/services/resume_suggestion_apply.py:11-16 | The in-place loop replaces the first match and says whether there was one. |
| `ResumeEditor.EntryList.RewriteEntries` | app/services/resume_suggestion_apply.py:112-124 | Over the entries, in place: only the first matching entry is changed. |
| `ResumeEditor.EntryList.AppendHighlight` | app/services/resume_suggestion_apply.py:19-39 | In place: the hinted loop and the fallback to the first entry; a missing highlight list is created on the entry. |
| `ResumeEditor.ResumeDoc.DeepCopy` | app/services/resume_suggestion_apply.py:74-74 | Copies every dictionary and every list: the copy shares nothing with the original and holds the same. |
| `ResumeEditor.ApplySuggestions` | app/services/resume_suggestion_apply.py:65-153 | Applies every suggestion in order with the effect `ResumeOutcomes.EditedIff` tells, on new objects down to every list, and leaves each of the caller's dictionaries and lists as it was. |
| `Progress.MarkApplicationStep` | app/services/application_progress.py:23-35 | Does the marking of `Progress.MarkWrites` on the given metadata. |
| `Progress.MarkResumeApplied` | app/services/application_progress.py:38-59 | Does the apply of `Progress.ApplyWrites` on the given metadata. |
| `Progress.RecordMatchRemeasurement` | app/services/application_progress.py:62-89 | Does the re-measurement of `Progress.RemeasureWrites` on the given metadata and reports whether it raised. |
| `Progress.MarkWrites` | app/services/application_progress.py:23-35 | Marking adds the completion flag and time to a dictionary entry, which keeps its other fields; any other entry gives way to them; nothing else changes. |
| `Progress.ApplyWrites` | app/services/application_progress.py:38-59 | Applying replaces the resume entry by a completed one with the rounded score, the gaps and the analysis as its baseline, waiting. |
| `Progress.RemeasureWrites` | app/services/application_progress.py:62-89 | Recorded where the resume entry waits for another analysis and has a baseline that reads as a number, with the difference to it; raises exactly where the baseline is there and does not; otherwise ignored. |
| `Progress.Round1IsNearestTenth` | app/services/application_progress.py:52-52 | The rounding is to the nearest tenth, of two to the even one. |
| `Progress.RunNeverRaises` | app/services/application_progress.py:38-89 | Over every run from empty metadata, no re-measurement raises. |
| `Progress.OtherKeysUntouched` | app/services/application_progress.py:24-35 | Over every run no other metadata key changes, appears or disappears. |
| `Progress.DoneStaysDone` | app/services/application_progress.py:98-103 | A step that is done stays done over every run from any metadata. |
| `Progress.MarkedIsDone` | app/services/application_progress.py:23-35 | A step that was marked or applied in the run is done at its end. |
| `Progress.RunShowsPhase` | app/services/application_progress.py:23-89 | Over every run from empty metadata the stored entry shows exactly the state machine's phase: awaiting has a baseline and no re-measured field, and marking keeps the baseline. |
| `Progress.FirstOtherIsRecorded` | app/services/application_progress.py:75-80 | After an apply the first analysis other than the baseline's is recorded and all later ones are ignored. |
| `Progress.LastApplyDecides` | app/services/application_progress.py:38-89 | The same on the stored metadata: what happened before the last apply is forgotten. |
| `Progress.DeltaWithinATenth` | app/services/application_progress.py:86-87 | With one-decimal half-even rounding the stored delta is within 0.1 of the difference of the stored scores, and differs at all exactly when the new score lies between two tenths and the baseline is an odd number of tenths. |
| `Progress.RecordedDeltaWithinATenth` | app/services/application_progress.py:82-88 | That bound for every re-measurement recorded in every run. |
| `SearchMerge.MergeResults` | app/services/search/composite.py:70-84 | The early-exit nested loops return exactly the first results of the deduped concatenation, as many as the cap allows; a cap below 1 acts as 1. |
| `SearchMerge.FlattenConcat` | app/services/search/composite.py:70-84 | The concatenation is the batches one after the other. |
| `SearchMerge.DedupeKeepsFirsts` | app/services/company_research.py:83-92 | Deduping keeps exactly the results at the first occurrences of each folded URL, in order. |
| `SearchMerge.FirstPositionsAreFirst` | app/services/company_research.py:83-92 | Those positions are all the first occurrences, in increasing order. |
| `SearchMerge.DedupeSearchResults` | app/services/company_research.py:83-92 | The loop computes that dedupe. |
| `SearchMerge.DedupeIncremental` | app/services/company_research.py:144-145 | Deduping after every batch equals deduping everything once. |
| `SearchMerge.DoneAfterMeans` | app/services/company_research.py:103-146 | Getting through k steps means k search decisions, as many searches as queries asked, none failed. |
| `SearchMerge.RunAgentSearchLoop` | app/services/company_research.py:95-148 | For every agent and client: at most 5 steps and 5 searches, the collected list is the dedupe of the batches the searches returned, in order, and the loop ends only on synthesise, exhausted steps or a failing call. |
| `FeedbackLog.FeedbackTables.SyncCareerMemory` | app/services/memory/context.py:17-52 | Deactivates the profile's active memories with the draft's key, then adds the draft. |
| `FeedbackLog.FeedbackTables.SyncJobApplicationStatus` | app/services/jobs/application_status.py:14-41 | Writes the parsed status of an outcome event on its job, saved when it does not parse. |
| `FeedbackLog.FeedbackTables.ValidateEvent` | app/schemas/feedback.py:58-104 | Accepts exactly the events whose payload is valid for their kind and that name the job and the analysis their kind requires. |
| `FeedbackLog.FeedbackTables.ValidateReferences` | app/api/feedback.py:18-44 | Accepts exactly the events whose profile, job and analysis exist, the analysis being of this profile and this job. |
| `FeedbackLog.FeedbackTables.CreateFeedback` | app/api/feedback.py:47-69 | Refuses exactly the events that either check refuses; else logs the event and derives both. |
| `FeedbackLog.RunGrows` | app/api/feedback.py:47-69 | What each operation of a run adds: exactly the accepted events to the log, and profiles, analyses and saved jobs. |
| `FeedbackLog.ActiveIsFold` | app/services/memory/context.py:17-52 | Over every run the active memories are exactly the drafts of the log that no later event with the same profile and key replaced, in log order. |
| `FeedbackLog.ActiveKeysUnique` | app/services/memory/context.py:24-33 | At most one active memory for a profile and key. |
| `FeedbackLog.LatestDraftIsActive` | app/services/memory/context.py:24-44 | It is the draft of the latest event with that key. |
| `FeedbackLog.StatusIsFold` | app/services/jobs/application_status.py:14-41 | Over every run each job's stored status is that of its latest outcome event, or saved. |
| `FeedbackLog.NewestIsLast` | frontend/src/lib/applicationStatus.ts:27-35 | When creation times strictly increase, the newest outcome of a job in any list that has the job's outcomes, in whatever order, is the last of the log. |
| `FeedbackLog.ScanAgrees` | frontend/src/lib/applicationStatus.ts:23-57 | Then the interface's scan of the job's own feedback, or of any list with the job's outcomes, agrees with the stored status, over every run and every order of delivery. |
| `FeedbackLog.ProfileScanAgreesIff` | app/api/feedback.py:77-87 | Its scan of one profile's feedback agrees with the stored status if and only if the profile's last outcome of the job, or saved, carries the status of the last outcome of any profile. |
| `FeedbackLog.EveryScanAgreesIff` | app/api/feedback.py:90-100 | With creation times that may tie: every delivery of the job's feedback, newest first, shows the stored status if and only if every outcome of the job at the greatest creation time carries it. |
| `FeedbackLog.EveryProfileScanAgreesIff` | app/api/feedback.py:77-87 | The same for one profile's feedback: if and only if every newest of the profile's outcomes of the job carries the stored status, and without any the stored status is saved. |

## Left out

- LLM, search and board clients, the embedder and the drafts made from feedback: arbitrary functions or arguments.
- SQLAlchemy, FastAPI, Alembic, auth, settings, logging: only what they make of a request's reads and writes.
- Promotion and job creation are one step each: the extraction call inside them is not interleaved with other requests, and a match analysis is not modelled.
- Polls and requests of different companies share no rows but jobs; the lease and the rows are two state machines, joined in `RadarService` for a poll with nothing in between.
- `matches_criteria`: an arbitrary test of a posting; its branches are independent filters.
- `update_watched_company` and `mark_company_viewed`: they only set columns that no property here reads, apart from the status.
- The missing-profile branch of `poll_company`: deleting a profile also deletes its companies.
- `PATCH` on jobs and profiles: they write fields directly, un-normalised URLs included; the run theorems exclude them.
- Job deletion is modelled only as far as postings refer to jobs; match analyses and feedback events that refer to one are not.
- JobIdentity.IdentifiedIff: stated for the URLs of `JobUrl.IdempotentIff`.
- JobUrl.IdempotentIff: percent-decoding, plus signs, IP literals, path parameters and characters outside printable ASCII are excluded. `urlunparse` is that of CPython 3.12.4 and later; 3.12.0 to 3.12.3 drop the empty authority before a path with two leading slashes.
- RadarPipeline.PlainTwiceCreatedIff: stated for those URLs; `RadarPipeline.TwiceCreatedIff` covers all.
- RadarFeed.FinishScreen: whether a flush that finds a scored row gone raises or passes over it is up to SQLAlchemy and the database driver, neither of which is part of this model. Both are modelled (`MissingRows`), and every result is stated for both or for each.
- RadarLease.Finalise: does not wait for locks of other transactions, which only adds runs.
- JobUrl.TrackingInsertion: stated for URLs of printable ASCII; percent-encoded parameter names are not decoded.
- Case folding is ASCII lower-casing (an arbitrary function in `SearchMerge`); Unicode normalisation is not modelled.
- pgvector search: approximate and external; the ranking theorems are about the in-memory path. The embedder is a similarity of query and text, so scores are exact reals.
- RagChunking.PlainIdsDistinct: the regular expression that splits paragraphs is given as its result.
- The regular expressions of headings, stops and noise lines in `JobSection`: arbitrary tests of a line. The later clean-up of a section is `Whitespace`.
- `str.splitlines` in `FlattenedText`: a carriage return and newline pair counts as two breaks, which adds only a blank line.
- The HTML tokeniser, character references and `html.unescape`: the parser's events are the input.
- PasteHtml.DocumentIsRead: for documents in which every stripped tag is closed; `PasteHtml.DepthOnAnyStream` covers all streams.
- Classifier scores and progress scores are reals, not floating-point numbers.
- ResumeEditor.ApplySuggestions: the structured data is a tree of dictionaries and lists, as a decoded JSON value is.
- Resume lists hold strings: an element of another type, which would raise, is not modelled.
- SearchMerge.RunAgentSearchLoop: the queries are taken after stripping; prompts and traces are not modelled.
- Limits on loading memories, the formatting of prompts, payload normalisers, the intake handoff, cover letters, PDF export, React components and the browser extension: short or presentational.
- Eventual screening of every posting is not claimed: without an answering provider two permanently failing oldest postings can block the rest.
