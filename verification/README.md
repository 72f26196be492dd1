# Verification of the study-session backend

A Dafny model of the PDF study backend: a user uploads a PDF, a background generation asks a language
model for notes and questions, and the outcome is kept in three places that must tell the same story (the
session store, the `user_sessions` table and the write-once `question_bank`). The model covers

* the session protocol over the three stores, as a step system with arbitrary interleaving, losses, late
  answers, crashes and expiry (`Protocol*.dfy`), the same operations as imperative code that is proved to
  perform exactly those steps (`GenerationTask.dfy`), and the stores themselves (`SessionStores.dfy`,
  `UserStores.dfy`, `QuestionBank.dfy`, `BulkSync.dfy`);
* the model clients: circuit breaker, token cache, retry loop and the three-stage pipeline (`CircuitBreaker.dfy`,
  `TokenCaches.dfy`, `Clients.dfy`, `ClientReplies.dfy`, `ClientSpacing.dfy`);
* reading a model response: fence stripping and recovery of a truncated question list (`JsonScan.dfy`,
  `JsonPrint.dfy`, `Truncation.dfy`, `ExtractJson.dfy`);
* sanitising and chunking: the multiple-choice and fill-in validators (`RawValues.dfy`,
  `GreedyFilter.dfy`, `Filtering.dfy`, `McqValidator.dfy`, `Blanks.dfy`, `FillValidator.dfy`) and section
  grouping and chunking of the parsed PDF (`PdfSections.dfy`). `CoercionLaws.dfy`, `McqLaws.dfy`,
  `FillLaws.dfy` and `SectionLaws.dfy` say what their results are in terms of the raw input.

`PyText.dfy` holds the Python string operations the services use. `dafny verify dfyconfig.toml` checks
everything.

## What the protocol model assumes

* At most one generation runs per session: the step that starts one requires that none is in flight.
  The code does not mark the record before scheduling, so it does not ensure this itself.
* Ids made by the server are fresh, and an id a client sends to POST /user/sessions was never issued before.
* `update_status` is one atomic step, and database ids of synced rows are numbered in insertion order.
* A database statement is done (`Up`), never applied (`Lost`), or applied with its answer lost (`Late`);
  a process may die between any two awaits, and a record may expire at any time.

## Where the code differs from what is written about it

* README.md:53 of the repository describes agreement between a completed record and its ready row. It fails in
  three cases, characterised exactly (`ProtocolAgreement.AgreementBreaksIff`) and each reachable: the answer of a
  row delete is lost (`ProtocolProgress.LostDeleteIsReachable`), generation dies inside its finalize
  (`DeadFinalizeIsReachable`), or the second half of a delete fails unnoticed (`FailedForgetIsReachable`).
* README.md:53, item 4, offers the self-heal as the repair of a lost row update. It looks at pending rows only, so a
  row left failed by an earlier generation stays failed although the document is banked
  (`ProtocolHealing.SyncLossRepairedIff`, reachable by `ProtocolProgress.FailedRowStaysFailed`).
* README.md:53, item 3, lets the owner back in after the record is gone. That holds over every run that does not
  lose the bank save of the result (`ProtocolBank.ResultOutlivesRecord`, exact step by step in
  `ProtocolBank.UnbankedIff`); a lost save followed by expiry answers not found (`ProtocolProgress.LostSaveForgets`).
* An exception that `_run_generation` does not name leaves its session processing: start_generation
  (app/routers/generate.py:273) then answers "processing" without starting, until the PDF is uploaded again or the
  record is gone (`ProtocolStuck.StuckIff` for the exact entry, `StuckUntilFreed` for the exact exit).
* app/services/anthropic_client.py:41 speaks of one probe request after the minute; every request is let in
  until the next failure is recorded (`CircuitBreaker.AdmitsAllAfterRecovery`).
* app/services/timely_client.py:171 says the next retry re-authenticates after a 401; the retry loop stops on
  401, so only a later request does (`Clients.EvictionEndsTheLoop`).
* app/routers/user.py:188 promises that bulk sync is idempotent; it is exactly when no inserted session lacks
  a `pdf_hash` (`BulkSync.IdempotentIff`).
* Validating fill-in questions again is not always the identity: a sentence may keep whitespace at its end
  (`FillValidator.FixpointIff`). Two passes always suffice.
* Recovery of a truncated list is exact at every cut if and only if every object's brace depth stays positive until
  its last character and is zero there (`Truncation.CutsExactIff`); a brace inside a string breaks that, whether it
  closes or opens.

## Model

| member | source | states |
|---|---|---|
| ProtocolInvariants.StepKeeps | app/routers/generate.py:68-226 | every enabled step of upload, generation, delete, expiry, insert and self-heal, under any fault, keeps origins, unique keys, provenance and the legs on which a record may read complete or processing |
| ProtocolInvariants.AlwaysInv | app/routers/generate.py:68-226 | the invariant holds in every reachable state |
| ProtocolAgreement.CrossStoreAgreement | app/routers/generate.py:43-92 | over every interleaved run that tears the session nowhere, an owned record that reads complete has a ready row of the same user, id and hash, except while its finalize or its delete is half-way |
| ProtocolAgreement.QuietAgreement | app/routers/user.py:136-151 | after any run in which no two-store operation was cut short and nothing is in flight, every completed record has its ready row |
| ProtocolAgreement.AgreementBreaksIff | app/routers/generate.py:82-92 | from any reachable state a step leaves a completed record without its ready row and without excuse if and only if it kills a generation inside its finalize, loses the answer of a delete, or fails a delete's second half, while nothing else accounts for the difference |
| ProtocolTheorems.LostDeleteDisagrees | app/routers/user.py:143-151 | losing the answer of the row delete always leaves a completed record without a row |
| ProtocolTheorems.DeadFinalizeDisagrees | app/routers/generate.py:82-86 | dying between marking the record and settling the row always leaves them disagreeing |
| ProtocolProgress.UploadCanComplete | app/routers/generate.py:68-226 | from every reachable state a new PDF with text can be brought to complete, ready and banked, and its owner is then served what the model answered |
| ProtocolProgress.LostDeleteIsReachable | app/routers/user.py:143-151 | the first disagreement is reachable, with no step pending that would mend it |
| ProtocolProgress.DeadFinalizeIsReachable | app/routers/generate.py:82-92 | so is the second |
| ProtocolProgress.FailedForgetIsReachable | app/routers/user.py:143-151 | and the third: the row is gone, forgetting the record failed and was swallowed |
| ProtocolTheorems.ContentProvenance | app/routers/generate.py:196-226 | completed records and bank entries hold content generated from a document with text and with that very hash |
| ProtocolTheorems.BankWriteOnce | app/services/question_bank.py:78-86 | no run changes or drops a bank entry |
| ProtocolTheorems.GeneratesFromParsedText | app/routers/generate.py:100-114 | in every reachable state a generating session works from the parsed text of its own document, never from stored content |
| ProtocolBank.RetryTakesBankOrFails | app/routers/generate.py:94-114 | in every reachable state a generation that began on anything but parsed text never generates and never offers content to the bank; what it finishes with is the bank's content for its document |
| ProtocolLaws.BankHitCompletes | app/routers/generate.py:94-98 | a scheduled run whose document is banked and whose row is in place ends complete and ready with the bank's content, generating nothing |
| ProtocolTheorems.RowLifeCycle | app/services/user_store.py:215-257 | over every run rows keep owner and hash, a row that left pending never returns to it, and a deleted row's id never comes back |
| ProtocolTheorems.OneOwnerOneDocument | app/routers/upload.py:83-113 | (user, hash) stays unique and row and record of an id always share owner and hash |
| ProtocolTheorems.ReuploadReusesId | app/services/user_store.py:215-257 | uploading a PDF again returns the existing row's id, adds no row and never downgrades its status |
| ProtocolLaws.UploadWritesRow | app/services/user_store.py:215-257 | an upload the table took leaves the owner's row with its hash and metadata, pending if new, and goes on under the row's id if the answer came |
| ProtocolTheorems.ServesOwnContent | app/routers/generate.py:298-357 | under any fault a served result is content of the session's own document, given to the session's own user, and no completed record fails to parse |
| ProtocolLaws.RecordAnswers | app/routers/generate.py:329-345 | the owner of a record gets the answer of its status, a completed one its own content, and nobody else gets anything |
| ProtocolLaws.MissAnswers | app/routers/generate.py:298-320 | without a record, the bank's content for the user's own row if both answers come, else not found |
| ProtocolBank.UnbankedIff | app/routers/generate.py:216-226 | one step leaves a completed session's content unbanked and not on its way if and only if it loses that session's bank save, or kills the process on the way to it, with the document banked by nobody else |
| ProtocolBank.ResultOutlivesRecord | app/routers/generate.py:347-357 | over every run that loses no such save, a completed session with a row of its owner, once its record is gone, is served to him from the bank then and after every further run, until the row is deleted or the PDF uploaded again |
| ProtocolBank.AfterExpiry | app/routers/generate.py:298-320 | after expiry a completed session with a row of its owner is served its document's bank entry, or not found if there is none |
| ProtocolProgress.LostSaveForgets | app/services/question_bank.py:88-89 | a reachable completed, ready session whose bank save was lost answers not found after expiry |
| ProtocolStuck.StuckIff | app/routers/generate.py:127-193 | a step leaves a session processing with nobody working on it if and only if it ends its generation by death or an unnamed exception while the record reads processing |
| ProtocolStuck.ProcessingIsAttended | app/routers/generate.py:127-193 | over every run without such a step, a session that reads processing has a generation at work |
| ProtocolStuck.StuckUntilFreed | app/routers/generate.py:271-276 | it stays so at every step except a new upload, expiry or deletion of its record |
| ProtocolStuck.StuckForever | app/routers/generate.py:271-276 | over every run without those its owner is told it is in progress and no generation can start |
| ProtocolProgress.StuckIsReachable | app/routers/generate.py:133-152 | that state is reachable by an exception that no handler names |
| ProtocolHealing.ListingHeals | app/services/user_store.py:98-156 | the three statements of a listing promote exactly the user's pending rows with a banked hash, leave none, and change nothing else in any store |
| ProtocolHealing.ListingIdempotent | app/services/user_store.py:98-156 | listing again changes nothing |
| ProtocolHealing.SyncLossRepairedIff | app/routers/generate.py:82-92 | a run whose row update was not reported and whose content is banked, generated or taken from the bank, is ready after the next listing if and only if the update was applied after all or the row did not read failed |
| ProtocolProgress.FailedRowStaysFailed | app/services/user_store.py:112-117 | the other case is reachable: a failed generation, then one whose row update is lost |
| GenerationTask.Backend.SyncStatus | app/routers/generate.py:43-65 | reports success exactly for guests or when the answer arrives and one row matched |
| GenerationTask.Backend.FinalizeReady | app/routers/generate.py:82-92 | complete only if the row is known to be ready, otherwise failed with the result kept |
| GenerationTask.Backend.Fail | app/routers/generate.py:78-80 | record and row both go to failed, the rest unchanged |
| GenerationTask.Backend.RunGeneration | app/routers/generate.py:68-226 | performs only protocol steps and leaves the three stores in the specified final state for every outcome of its stages, also when an exception escapes: then row and bank are untouched and the record stays processing at its last mark |
| GenerationTask.RunLeaves | app/routers/generate.py:68-226 | case by case, the status and result a run leaves: complete exactly when it has content and its row is reported ready, then over a ready row |
| ProtocolLaws.FailureIsMarked | app/routers/generate.py:78-80 | a failing run marks record and row failed, keeps the parsed text and can be started again |
| ProtocolLaws.UnreportedSyncIsFailure | app/routers/generate.py:82-92 | a finished run whose row update is not reported ends failed with the result kept |
| GenerationTask.Backend.SaveToBank | app/routers/generate.py:219-226 | inserts unless an entry exists, swallowing failure |
| GenerationTask.Backend.UploadPdf | app/routers/upload.py:82-132 | row first, then the record with the parsed text under the row's id, or under the tentative id if the upsert raised |
| GenerationTask.Backend.DeleteSession | app/routers/user.py:136-151 | two-step delete: the record goes only after the row's deletion was confirmed |
| QuestionBank.Bank.GetCached | app/services/question_bank.py:45-64 | content only when select and hit count both succeed, contents unchanged, every answer counted |
| QuestionBank.Bank.SaveToBank | app/services/question_bank.py:67-89 | insert or ignore; existing entries untouched |
| SessionStores.LocalStore.UpdateStatus | app/services/session_store.py:82-100 | mutates the live record in place and does what the value model does |
| SessionStores.LocalStore.Replay | app/services/session_store.py:67-109 | any operation sequence gives the value model's observations although records are aliased; whoever keeps a record sees owner and document unchanged |
| SessionStores.RedisStore.Replay | app/services/session_store.py:67-109 | the copying backend gives the same observations for every operation sequence |
| SessionStores.OthersUntouched | app/services/session_store.py:82-109 | operations on some sessions leave all others as they were |
| SessionStores.UpdateIsProtocolStep | app/services/session_store.py:82-100 | the store's update is the protocol's atomic update_status |
| SessionStores.UpdateKeepsTheRest | app/services/session_store.py:94-99 | an update writes status and progress; message and result stay unless new ones are given |
| UserStores.UserStore.UpsertSession | app/services/user_store.py:194-257 | a subject that is not the user's own raises and writes nothing; otherwise inserts, or updates the conflicting row with ready and failed kept; the returned id is the row's |
| UserStores.UserStore.UpdateSessionStatus | app/services/user_store.py:259-271 | only the owner's row changes; reports whether one matched |
| UserStores.UserStore.DeleteSession | app/services/user_store.py:273-284 | deletes the owner's row and cascades to its reviews |
| UserStores.UserStore.GetSessions | app/services/user_store.py:98-156 | heals as specified; the answer lists every session of the user once, newest first, with the rows the table now holds; a failing heal shows what was read |
| UserStores.CollectPending | app/services/user_store.py:112-117 | collects ids and hashes of exactly the pending rows with a hash, in order |
| UserStores.MatchBank | app/services/user_store.py:130-134 | the collected ids whose hash is banked |
| UserRows.OthersRowsUntouched | app/services/user_store.py:259-284 | no status update, delete or heal of a user touches the rows of another, or makes a row |
| UserStores.UserStore.SyncSubjects | app/services/user_store.py:81-94 | runs its statements up to a crash; counts all items when it completes |
| UserStores.UserStore.SyncSessions | app/services/user_store.py:286-314 | ownership check first, then insert or ignore per session |
| UserStores.UserStore.SyncReviews | app/services/user_store.py:354-372 | insert or ignore per review; an unknown session raises |
| UserStores.Sync | app/routers/user.py:180-198 | the three passes in order, stopped by the first that raises or by a crash at any statement |
| BulkSync.SyncExtends | app/services/user_store.py:286-314 | no sync alters or removes an existing row of any table |
| BulkSync.CrashThenFull | app/routers/user.py:180-192 | a request cut off anywhere and sent again equals one full request if and only if the part that ran inserted no session without a hash |
| BulkSync.IdempotentIff | app/routers/user.py:187-192 | sending the payload twice equals once if and only if every session it inserts has a hash |
| BulkSync.FirstIsStored | app/services/user_store.py:81-94 | the first statement for a key that was free is stored just as it was sent |
| UserStores.SessionSent | app/services/user_store.py:302-314 | a session sent first under its key, and any session without a hash, is stored under a new id with the status and metadata sent |
| UserStores.SubjectsAndReviewsSent | app/services/user_store.py:354-372 | a subject or review sent first under its key is stored with the colour or schedule sent |
| UserStores.ForeignSubjectStops | app/services/user_store.py:292-303 | a session of somebody else's subject ends the request with all subjects stored and no session or review |
| UserStores.GoesThroughIff | app/routers/user.py:190-192 | a request goes through exactly when its subjects are the user's own and the sessions of its reviews exist |
| CircuitBreaker.Breaker.IsOpen | app/services/anthropic_client.py:35-44 | true exactly when five failures follow the last success and the last failure is under 60 seconds old |
| CircuitBreaker.Breaker.RecordFailure | app/services/anthropic_client.py:51-60 | counts the failure and opens at the fifth |
| CircuitBreaker.Breaker.RecordSuccess | app/services/anthropic_client.py:46-49 | clears the streak |
| CircuitBreaker.Breaker.Replay | app/services/openai_client.py:23-58 | over any event sequence under a non-decreasing clock every question is answered from the recorded history alone |
| CircuitBreaker.StreakIs | app/services/anthropic_client.py:46-54 | the counter is the number of failures at the end of the history, back to the last success |
| CircuitBreaker.AdmitsAllAfterRecovery | app/services/anthropic_client.py:40-43 | once the minute is over every request is let in, however many ask, until a failure is recorded |
| CircuitBreaker.FailureSpacing | app/services/anthropic_client.py:35-60 | a call that did not overlap the failure before it, after five in a row, ends at least 60 seconds after it |
| CircuitBreaker.FailureDensity | app/services/anthropic_client.py:74-126 | sequential calls record at most 5 + floor(T/60) failures in a span of T seconds without a success |
| CircuitBreaker.DensityIsTight | app/services/anthropic_client.py:27-44 | the bound is attained for every number of failures |
| ClientSpacing.TurnsAreCalls | app/services/anthropic_client.py:74-126 | the calls that a worker's attempts make the breaker record form a run of non-overlapping calls admitted by it |
| ClientSpacing.WorkerFailureDensity | app/services/anthropic_client.py:74-126 | whatever mix of retry loops and stages a worker runs one after the other, 5 + floor(T/60) bounds its recorded failures in a span of T seconds without a success |
| TokenCaches.ServedIff | app/services/timely_client.py:36-43 | the token served is exactly the one last granted to that key, under 55 minutes ago and not evicted since |
| TokenCaches.EvictedUntilGranted | app/services/timely_client.py:170-172 | after an eviction nothing is served for the key until a new grant |
| TokenCaches.TokenCache.Lookup | app/services/timely_client.py:38-43 | answers from the map what the history of grants and evictions says |
| TokenCaches.TokenCache.Store | app/services/timely_client.py:73-74 | records a grant with its expiry |
| TokenCaches.TokenCache.Pop | app/services/timely_client.py:172 | records an eviction |
| Clients.Service.GetAccessToken | app/services/timely_client.py:36-74 | a cached token is used; otherwise the reply decides between a grant and an error, none of which reaches the breaker |
| Clients.Service.Complete | app/services/timely_client.py:146-203 | sorts each reply, a success body that cannot be decoded included, into outcome, breaker record and eviction, whatever other calls did meanwhile |
| Clients.Service.Call | app/services/anthropic_client.py:66-126 | admission, authentication and completion as a function of the past |
| Clients.ParseFailureClearsStreak | app/services/anthropic_client.py:91-92 | a reply that cannot be parsed still clears the breaker's streak |
| ClientReplies.AnswerEndsTheLoop | app/services/anthropic_client.py:150-152 | an answer that parses ends the loop on that very attempt with just that, after 2^i - 1 seconds of back-off, and clears the streak |
| ClientReplies.FencedReplyEndsTheLoop | app/services/anthropic_client.py:150-152 | with the real parser: a complete fenced reply ends it with what json.loads makes of the payload |
| ClientReplies.PlainReplyEndsTheLoop | app/services/openai_client.py:128-160 | the same without a fence |
| ClientReplies.RateLimitEndsTheLoop | app/services/anthropic_client.py:99-103 | 429 ends the loop at once with 429, and the breaker cannot tell that the turn took place |
| ClientReplies.BadKeyEndsTheLoop | app/services/anthropic_client.py:93-98 | 401 likewise |
| ClientReplies.BillingEndsTheLoop | app/services/openai_client.py:103-108 | each provider's refusal over billing ends the loop at once with 503, uncounted |
| ClientReplies.ProviderFailureIsRetried | app/services/anthropic_client.py:104-126 | timeouts, lost connections and all other statuses are one failure more for the breaker, raise 504 (a timeout) or 502, and are retried while an attempt is left, then 500 |
| ClientReplies.UnreadableAnswerIsRetried | app/services/timely_client.py:194-236 | an answer that does not parse clears the streak and is retried |
| ClientReplies.UnusableAnswer | app/services/timely_client.py:194-203 | a success without a readable text clears the streak; with TimelyGPT it raises 502 and is asked again, with the SDKs the exception escapes |
| ClientReplies.EscapeEndsTheLoop | app/services/anthropic_client.py:153-161 | an exception that no handler names ends the loop |
| ClientReplies.BlockedEndsTheLoop | app/services/anthropic_client.py:74-78 | an open breaker ends the loop with 503 at whichever attempt finds it open |
| ClientReplies.TokenTrouble | app/services/timely_client.py:45-71 | a key refused by the authentication ends the loop with 401; other trouble with the token raises 504 (a timeout) or 502 and is retried; nothing is counted, granted or evicted |
| Clients.Service.GenerateWithRetry | app/services/anthropic_client.py:130-166 | the first attempt that is not retried gives the result; otherwise 500 after the last; sleeps 2^j - 1 seconds after j retried failures |
| Clients.GoodRunUnique | app/services/timely_client.py:206-241 | that description fits exactly one run |
| Clients.RetryBounds | app/services/anthropic_client.py:144-161 | at most retries + 1 attempts and 2^retries - 1 seconds, reached exactly on the last attempt |
| Clients.OpenBreakerFailsFast | app/services/anthropic_client.py:74-78 | an open breaker ends the loop at once with 503, no sleep, no token and nothing recorded |
| Clients.EvictionEndsTheLoop | app/services/timely_client.py:170-176 | a 401 ends the loop on that very attempt and leaves the key without a token |
| Clients.TruncatedReplyAccepted | app/services/timely_client.py:223-225 | a fenced question list cut short is not retried: the loop accepts exactly the questions printed whole, or retries if there is none |
| Clients.TruncatedPlainReplyAccepted | app/services/openai_client.py:84-92 | the same for a reply without a fence |
| Clients.Service.Stages | app/routers/generate.py:133-182 | the three stages in order, each from the world the one before left; the first failure ends them, as do notes that are rejected or whose validation lets an exception escape |
| Clients.PipelineBounds | app/routers/generate.py:133-182 | at most 3(retries + 1) requests and 3(2^retries - 1) seconds of back-off |
| JsonScan.ScanExact | app/services/json_utils.py:17-32 | on any text the spans recorded are exactly those that open at depth zero, stay positive and return to zero |
| JsonScan.ScanIncreasing | app/services/json_utils.py:20-32 | the spans are disjoint, in order, and end in a closing brace |
| JsonScan.ScanMonotone | app/services/json_utils.py:20-32 | a longer text only appends spans |
| JsonScan.ParseAllAppend | app/services/json_utils.py:28-31 | a slice that fails to parse never disturbs its neighbours |
| JsonScan.RecoverPartialQuestions | app/services/json_utils.py:12-36 | the loop over depth, obj_start and questions returns the parsable closed slices after the bracket, or None |
| JsonPrint.PrintedObjectBalanced | app/services/json_utils.py:21-27 | every printed JSON object (sections 2 and 4 of RFC 8259, any whitespace at any level) without braces in its strings has positive depth inside and zero at its end |
| Truncation.CutRecovers | app/services/json_utils.py:12-36 | a list of balanced objects cut anywhere yields exactly the objects wholly before the cut |
| Truncation.CutsExactIff | app/services/json_utils.py:17-32 | recovery is exact at every cut if and only if every object is balanced |
| Truncation.BraceInStringNotRecovered | app/services/json_utils.py:25-32 | a brace inside a string breaks it |
| Truncation.TruncationRoundTrip | app/services/json_utils.py:12-36 | head, key and bracket included: a response cut anywhere after the bracket recovers exactly the whole objects |
| Truncation.LongerRecoversMore | app/services/json_utils.py:12-36 | for arbitrary text after the bracket, a longer response never recovers fewer |
| Truncation.NoKeyNothing | app/services/json_utils.py:14-16 | without the questions key nothing is recovered |
| Truncation.PrintedQuestionsSurvive | app/services/json_utils.py:12-36 | printed questions, however nested and indented, cut and read back: exactly those printed whole, in order |
| ExtractJson.ExtractJson | app/services/json_utils.py:39-58 | unfence, parse, else recover, else the generation error |
| ExtractJson.FencedReplyLoads | app/services/json_utils.py:42-50 | a complete fenced reply gives exactly what json.loads makes of its payload |
| ExtractJson.PlainReplyLoads | app/services/json_utils.py:42-50 | so does a complete reply without a fence, between any whitespace |
| ExtractJson.HopelessReplyRaises | app/services/json_utils.py:51-58 | an unfenced reply that is no JSON and names no questions raises |
| ExtractJson.FenceRoundTrip | app/services/json_utils.py:42-48 | a complete fence with any tag, surroundings and indent of its closing line gives back exactly its payload |
| ExtractJson.OpenFence | app/services/json_utils.py:44-48 | a fence that never closes loses at most whitespace and backticks at the end |
| ExtractJson.FencedCutRecovers | app/services/json_utils.py:49-54 | a fenced question list cut short recovers exactly the objects printed whole |
| ExtractJson.PlainCutRecovers | app/services/json_utils.py:39-58 | so does one that was never fenced |
| GreedyFilter.KeptIsGreedy | app/services/response_validator.py:211-223 | the kept items are an ordered subsequence, pairwise apart, and every dropped item has an earlier kept witness |
| GreedyFilter.GreedyUnique | app/services/response_validator.py:211-223 | no other selection has these properties |
| RawValues.CoerceLevel | app/services/response_validator.py:49-64 | always 1 to 5, and fails only for infinity |
| McqValidator.ValidateMcq | app/services/response_validator.py:154-250 | the loop returns the built questions kept by the greedy filter, rejects an empty list, and crashes only where a coercion or the model raises |
| McqValidator.IsDuplicate | app/services/response_validator.py:211-219 | true exactly when some seen question shares more than 70% of the keywords |
| McqLaws.ScreenIff | app/services/response_validator.py:166-192 | exactly the well-posed questions pass: a question, four different non-empty options, and an answer that is one of A to D in either case |
| McqLaws.ValidatedSaysRaw | app/services/response_validator.py:166-245 | every validated question says field by field what its raw question says, in the order of the response: the named letter as key, a short explanation replaced by the sentence naming that letter |
| McqLaws.RejectedIff | app/services/response_validator.py:247-248 | a response is rejected exactly when it has no well-posed question |
| McqLaws.CrashNeedsBreak | app/services/response_validator.py:226-245 | the validator raises only over a well-posed question with an unusable id, level or type |
| CoercionLaws.LevelFrom | app/services/response_validator.py:49-64 | the level, or else the difficulty, or else 3: easy, medium and hard are 2, 3 and 4, and a number gives the nearest level to its whole part |
| McqValidator.ValidatedIsGreedy | app/services/response_validator.py:211-223 | the validated questions are the greedy selection of the well-formed ones |
| McqValidator.ValidatedIsSettled | app/services/response_validator.py:169-250 | every validated list is non-empty, coerced, distinct in options, explained in 20 characters and pairwise at most 70% alike |
| McqValidator.ValidationIsFixpoint | app/services/response_validator.py:154-250 | feeding validated questions back in with equal concept ids returns the same list, even if that pass would pick another of the concepts as fallback |
| Blanks.PartsBare | app/services/response_validator.py:276 | no leftmost-split part but the last ends in an underscore |
| Blanks.KeepFirstNormalises | app/services/response_validator.py:270-277 | exactly one blank is left, the first; the text around blanks is the same; doing it again changes nothing |
| Blanks.NormalFixedIff | app/services/response_validator.py:270-277 | stripping and normalising again is the identity if and only if no blanks at the end follow whitespace after the first blank |
| Blanks.SpaceIsLeft | app/services/response_validator.py:274-277 | the other case occurs for every text before the first blank |
| Blanks.TwoPassesSuffice | app/services/response_validator.py:270-277 | a second pass always settles the sentence |
| FillValidator.ValidateFill | app/services/response_validator.py:257-314 | the loop returns the built questions that pass the checks |
| FillLaws.ValidatedSaysRaw | app/services/response_validator.py:265-309 | every well-posed question is validated, in the order of the response, and says field by field what its raw question says; the variants are the non-blank ones, stripped, in order |
| FillLaws.RejectedIff | app/services/response_validator.py:311-312 | a response is rejected exactly when it has no well-posed question |
| FillLaws.CrashIff | app/services/response_validator.py:295-309 | the validator raises exactly over a well-posed question with an unusable id, level or type |
| FillValidator.OneBlankEach | app/services/response_validator.py:270-277 | every validated sentence has exactly one blank and the text of its raw sentence |
| FillValidator.SecondPassStrips | app/services/response_validator.py:257-314 | validating again strips the sentences and changes no other field |
| FillValidator.FixpointIff | app/services/response_validator.py:257-314 | it is the identity if and only if no accepted sentence leaves whitespace at its end |
| FillValidator.ThirdPassIsIdentity | app/services/response_validator.py:257-314 | a third pass never changes anything |
| PdfSections.ExtractSections | app/services/pdf_parser.py:50-111 | the nested loop over pages and lines computes the grouping |
| PdfSections.GroupingConserves | app/services/pdf_parser.py:67-96 | the lines of the sections in order are exactly the non-blank, non-heading lines in order |
| SectionLaws.EveryLine | app/services/pdf_parser.py:61-86 | every non-blank line of a page is grouped under its page number, and is a heading exactly when it is under 120 characters and holds, at some position, the text of a word of its page set as a heading |
| SectionLaws.NoOtherLine | app/services/pdf_parser.py:61-86 | and every grouped line is such a line |
| SectionLaws.PagesConserved | app/services/pdf_parser.py:57-96 | the lines of all sections are the stripped lines of all pages in order, but the blank and the marked ones |
| SectionLaws.SectionsTitled | app/services/pdf_parser.py:82-84 | a section is the introduction or is named after a marked line of its first page |
| SectionLaws.SectionTexts | app/services/pdf_parser.py:75-96 | each section holds its lines, joined and cleaned |
| SectionLaws.BareDocument | app/services/pdf_parser.py:98-109 | without a body line the cleaned pages make up the one section |
| PdfSections.SectionsArePlaced | app/services/pdf_parser.py:67-96 | each section is the whole run of lines between two headings, with the title and pages of those headings |
| PdfSections.RangesInOrder | app/services/pdf_parser.py:75-95 | page ranges lie in 1..n, run forwards and follow one another |
| PdfSections.AlwaysASection | app/services/pdf_parser.py:98-111 | there is always a section, and its range is proper exactly when there is a page |
| PdfSections.ChunkSections | app/services/pdf_parser.py:114-132 | the loops compute the chunking, for every limit |
| PdfSections.ChunkSizes | app/services/pdf_parser.py:123-131 | a long section becomes just enough parts of 1 to limit words, with its page range |
| SectionLaws.PartIs | app/services/pdf_parser.py:123-131 | part i, numbered from one in its title, holds the words from i * limit up to (i + 1) * limit |
| PdfSections.ChunkingConserves | app/services/pdf_parser.py:114-132 | for every positive limit the words of the document are unchanged and no chunk exceeds the limit |
| PdfSections.ChunkingIdempotent | app/services/pdf_parser.py:114-132 | chunking again changes nothing |
| PdfSections.BadLimitLoses | app/services/pdf_parser.py:123 | a zero limit raises and a negative one drops the section |
| PyText.WordsOfJoin | app/services/pdf_parser.py:118-128 | splitting what a join of words built gives the words back |
| PyText.WordsAreRuns | app/services/pdf_parser.py:118 | splitting gives, in order, the maximal runs of the text without whitespace |

## Left out

- The network, the SDKs, Redis, asyncpg and pdfplumber: each call is an outcome chosen by the environment.
- HTTP routing, status codes of the routers, authentication, key format checks, logging and metrics: no property of the kind modelled here lives there.
- Prompt texts and question counts: string templates and a clamp.
- The regular expressions of `_clean_text` and `_tokenize` and the font test of `_is_heading` are parameters; the keyword-overlap warning has no effect and is not modelled.
- `validate_notes`: branch-by-branch coercion; in the pipeline it accepts, rejects, or lets an exception escape.
- Old `error_message` values and the `session_id` inside cached content: the code keeps stale ones, so nothing is claimed.
- The non-atomic read-modify-write of `update_status` on Redis, and two generations of one session at once: the code claims no agreement there.
- `_ensure_id` writes the new id into the caller's dict; the validators here take values, so that update in place is not captured.
- McqValidator.ValidateMcq: `str.upper` is modelled for ASCII letters, which decide alone whether the answer is one of A to D; the 70% test is stated over exact ratios, where the float quotient agrees.
- GenerationTask.Backend.RunGeneration: an exception out of the session store itself and the death of the process are steps of the protocol only (TaskDie).
- Clients.Service.GetAccessToken: the lookup and the grant of one request are not interleaved with other users of the same key; other tasks' breaker events are.
- Clients.Service.Stages: the question validators that follow the stages are separate modules, so validation failures after the third stage are not part of it.
- UserStores.UserStore.SyncReviews: subject ownership and the sessions a review may refer to are fixed for one request.
- A stored empty-string hash: the upload path never makes one, and the model has a hash or none.
- `get_subjects`, `create_subject`, `delete_subject`, `create_session`, `get_due_reviews`, `upsert_review`: one statement each, covered where the protocol needs them by a row insert.
