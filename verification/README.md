# Family portal: the state it keeps, and what it promises about it

A Dafny model of the hard parts of a family finance portal: the vector-index synchroniser, the
per-user chat limiter, the balance ledger and its readers, the refresh scheduler, the text
algorithms of the chat prompt, and the multi-collection search. `dafny verify dfyconfig.toml`
checks every file.

| files | what they model |
|---|---|
| `QuestionLog`, `Limiter`, `LimiterRuns` | The chat limiter as a class with pruned deques, slots and a sweep, against a specification that keeps the whole log; then whole runs of calls. |
| `ChunkSets`, `PointStore`, `DocumentPoints`, `Indexer` | Chunk-set files, the point store one client call at a time, crashes between calls, and whole indexing runs. |
| `TaxLaw` | The tax-law index: reading the file, guarded replacement, interruption and restart. |
| `EmbeddedSets` | From the embedding service to both indexes: whose vector a point carries. |
| `Embeddings` | Batching, bounded retries, and answers put back in input order. |
| `Cents`, `Timestamps`, `Ledger`, `LedgerRuns`, `BalanceReaders`, `DayVisits`, `LedgerCases` | Money text, ISO times, the two balance tables and their transactions, whole runs of writes, the readers that must agree, how large a day can grow, and runs on which things go wrong. |
| `Fetch`, `DocumentRows`, `Scheduler`, `SchedulerTables`, `LedgerDays` | Paged fetches with one retry budget, the document writer, every interleaving of jobs, triggers, snapshots and deliveries as a state machine, and the same with a calendar. |
| `AccountNames`, `AccountMatching`, `AccountTurns`, `AccountExclusion`, `AccountSearch`, `AccountCases` | Longest-name-first matching with blanking, from characters to tokens to positions; who is found, and exactly when a name inside a longer one is found as well. |
| `PassageText`, `PassageLines`, `SectionNames`, `CleaningLimits`, `Prompt`, `PromptBalances` | Cleaning retrieved text and exactly how far it goes, the fenced SOURCES section and its reader, and the whole system prompt. |
| `Search` | The filtered top-k merge. |
| `Texts`, `Decimals`, `Sets`, `Jsons` | Stripping, decimal digits, finite sets and decoded JSON, shared by the rest. |

Classes follow the source's objects; a loop in the source is a loop here, proved against a function
of its inputs or of the old state, and the theorems are about those functions. A crash or an
interrupted session is a parameter (`fault`) saying how many client calls took effect. Anything the
portal cannot see (the server, the clock, which point a scroll returns, Unicode tables) is an
arbitrary parameter.

What is assumed, and nowhere proved: SHA-256 over canonical JSON is injective, so a digest is the
model and chunks it was computed from; UUIDv5 (section 5.5 of RFC 9562) is injective on its name,
so a point id is that name; NFKC introduces no line break and upper-casing leaves capitals, `#` and
white space alone; one Qdrant call is atomic; one SQLite transaction is atomic; the portal is one
process.

Where the code and its documentation differ, the model follows the code, proves exactly when the
documented property holds, and gives an input on which it does not:

- A day's history is said to hold the balances of the day's last write. `today` is read before the
  write lock is taken, so writes may commit out of day order. `HistoryExactIff`: the day is right
  if and only if its last successful write left no account behind; day order is enough
  (`HistoryIsFaithful`), and writes commit in day order if none is under way when the date changes
  (`QuietNightsAreFaithful`). `CanCommitIff` says exactly which orders the scheduler can commit.
  `HistoryGoesWrong` is one of three writes on which the day is wrong, and `DayGrowsWithoutBound` a
  family of them that put any number of rows on one day; `BoundPerVisit` is the bound that remains.
- A text that says the longer of two names is said to match only the longer. `ExcludedIff`: an
  account mentioned only inside other names is found if and only if such a name is said twice
  running, because the replacement takes the space behind a match with it and misses a match that
  follows at once. `ShorterIsFoundToo`: "brokerage two. brokerage two is larger" finds both.
- A malformed document is said to be skipped rather than to fail the refresh. `DocumentsAreComplete`:
  a refresh of documents fails if and only if a row to be written holds a text the database driver
  cannot store (half of a surrogate pair, which JSON can carry); `OneTitleFailsAll` is such a list.
- Chat's overall total and the headline are the same number while a USD account is stored; after
  the last one is gone the headline is empty and chat still states an older day. `ChatAgreesIff` is
  the condition, `ChatGoesStale` the run.
- A cleaned label is said to hold no fence markers. `LabelFenceIff`: it holds no run of three marks
  if and only if the cleaned title has none across its line breaks. `LabelWithFence`: three lines
  of one `>` each give the label `> > >`. Three marks side by side never appear.
- A cleaned passage is said not to open a heading of its own. `PassageHeadingIff`: it does if and
  only if a kept line has a second run of `#` behind its first. `PassageWithHeading`: `# # x`
  becomes `# x`, and `x` when cleaned again; `StripMarksTwiceIff` is the same condition for that.
- A cleaned label is said to hold no table pipes. They are replaced before normalisation, so
  (`LabelPipeIff`) it holds one if and only if NFKC makes one in a kept line; `LabelWithPipe` is
  such a title.

## Model

| member | source | states |
|---|---|---|
| Limiter.ChatLimiter.Acquire | app/chat/limits.py:219-246 | The decision is the one a limiter keeping the full log would give; a grant appends one question and hands out a new ticket, a refusal records nothing. |
| Limiter.ChatLimiter.Release | app/chat/limits.py:248-258 | Marks exactly this ticket's question released, once, and never frees another ticket's slot. |
| Limiter.ChatLimiter.Refund | app/chat/limits.py:260-271 | Marks exactly this ticket's question refunded, once: the deque loses one stamp of that value, or nothing if it was already pruned. |
| Limiter.ChatLimiter.Sweep | app/chat/limits.py:289-300 | At most once a minute; keeps the slots younger than 300 s and the pruned deques of users with a recent question or a slot, and stands for the same log as before. |
| Limiter.ChatLimiter.QuotaDecision | app/chat/limits.py:237-242 | Pruning a deque does not change the quota decision of the full log. |
| Limiter.Prune | app/chat/limits.py:238-239 | Dropping expired stamps from the front leaves exactly the stamps inside the window. |
| Limiter.RefundStandsFor | app/chat/limits.py:267-271 | Removing a stamp by value from a pruned deque agrees with removing it from the full list. |
| LimiterRuns.Replay | app/chat/limits.py:219-300 | For every sequence of acquire, release and refund calls over any users, limits and nondecreasing clock, the pruned and swept limiter answers exactly as the full log does, and no deque ever holds more stamps than the largest hourly limit its user was given. |
| LimiterRuns.QuotaHolds | app/chat/limits.py:232-246 | No window of 60 or 3600 seconds ever holds more of a user's un-refunded questions than the largest limit any of its calls used; with fixed limits, than those. |
| LimiterRuns.OneInFlight | app/chat/limits.py:232-258 | At any instant at most one unreleased question younger than 300 s exists per user, abandoned tickets released late included. |
| QuestionLog.GrantIffRoom | app/chat/limits.py:232-246 | A question is granted if and only if the slot is free and both windows have room. |
| QuestionLog.RefusalNamesTheBlocker | app/chat/limits.py:232-287 | A refusal names the question in flight exactly when there is one, and otherwise the window that will be the last to have room, the hour when both open together. |
| QuestionLog.QuotaWaitIsExact | app/chat/limits.py:273-287 | After a quota refusal every attempt before now plus the wait is refused and every attempt from then on granted; the hint is the ceiling of the wait, from 1 to 3600, whatever limits the log was built with. |
| QuestionLog.StampsRefund | app/chat/limits.py:260-271 | Which of two equal stamps a refund removes makes no difference. |
| ChunkSets.ResolveConsent | app/retrieval/chunk_sets.py:171-181 | Consent needs a true from every chunk, a missing value counting as false, and from the set when it says anything; a set without chunks needs its own. |
| ChunkSets.IsTaxReturn | app/retrieval/chunk_sets.py:184-201 | A set counts as a tax return exactly when a category or type anywhere names one, or nothing classifies it. |
| ChunkSets.MarksIff | app/retrieval/chunk_sets.py:184-201 | A text marks a tax document exactly when, stripped and folded, it is one of the names up to hyphens and spaces; any other value that is not null marks it too. |
| ChunkSets.ResolveConfidential | app/retrieval/chunk_sets.py:204-212 | Confidential unless every value given, by the set or by a chunk, is false. |
| ChunkSets.ResolveSha256 | app/retrieval/chunk_sets.py:154-168 | One hash when all that give one agree, none when none does, an error otherwise. |
| ChunkSets.ParseChunkSet | app/retrieval/chunk_sets.py:237-296 | Accepts exactly the well-shaped files of this document; the set carries the document-level values and hash, every non-blank chunk at its own position, and each field from the chunk or else the set. |
| ChunkSets.KeepChunks | app/retrieval/chunk_sets.py:215-296 | Blank chunks are dropped without renumbering the others; each payload holds exactly the contract's and the document's fields, each the chunk's own value, or else the set's, or else null. |
| PointStore.PointNameInjective | app/retrieval/qdrant_store.py:104-114 | The name "document:index" determines both parts, even when the document id holds colons. |
| PointStore.PointNameReads | app/retrieval/qdrant_store.py:104-114 | The name is the document, a colon and the position in digits. |
| PointStore.FamilyDocsWriter.ReplaceDocument | app/retrieval/qdrant_store.py:385-452 | Batches in order, then one delete of what is not reused; refused locally without a call when a vector has the wrong size; a fault leaves exactly a prefix of those calls. |
| PointStore.RefusedIff | app/retrieval/qdrant_store.py:385-452 | What is refused is a vector of the wrong size, a point of another document, or a position twice. |
| PointStore.FamilyDocsWriter.UpsertBatches | app/retrieval/qdrant_store.py:420-440 | Every batch written in order, or exactly those before the fault. |
| PointStore.FamilyDocsWriter.DeleteDocument | app/retrieval/qdrant_store.py:305-315 | The document has no point left, every other document has the same points, and no point is altered. |
| PointStore.FamilyDocsWriter.ReadStored | app/retrieval/qdrant_store.py:322-359 | Reads one arbitrary point of the document with the two counts, or nothing when it has none. |
| PointStore.FamilyDocsWriter.ReadDocumentIds | app/retrieval/qdrant_store.py:361-383 | Page by page, exactly the documents that have a point. |
| DocumentPoints.CompleteMeansExact | app/retrieval/qdrant_store.py:243-255 | If the one point returned makes `complete` true, the document's points are exactly the positions and payloads of one chunk set, gaps included. |
| DocumentPoints.ExactMeansComplete | app/retrieval/qdrant_store.py:243-255 | Conversely, exactly the points of one set make `complete` true for every point. |
| DocumentPoints.NamesCount | app/retrieval/qdrant_store.py:104-114 | A set has as many point ids as chunks, however its positions are spaced. |
| DocumentPoints.VerdictDoesNotDependOnPick | app/retrieval/qdrant_store.py:322-359 | Whichever point the server returns, the verdict and the digest are the same. |
| DocumentPoints.SessionKeeps | app/retrieval/qdrant_store.py:385-452 | Stopped after any number of calls, other documents are untouched and a document that had points still has some; run to its end, exactly the new set remains. |
| DocumentPoints.EveryHistory | app/retrieval/qdrant_store.py:305-452 | After any history of full and interrupted writes and removals, `complete` is true of a point if and only if its document holds exactly one chunk set, and no unconsented tax return is stored. |
| DocumentPoints.SessionCarries | app/retrieval/indexer.py:369-400 | A write run to its end stores each chunk with the vector at its own position. |
| DocumentPoints.EveryVector | app/retrieval/indexer.py:369-400 | If every write was given the vectors of its chunks' texts, then after any history, interrupted writes included, every point carries its own text's vector. |
| EmbeddedSets.EmbeddedTells | app/retrieval/indexer.py:352-355 | What the embedding client returns for a set's texts are such vectors, whatever the batches and retries. |
| EmbeddedSets.EmbeddedLawTells | app/retrieval/tax_law.py:335-337 | The same for a tax-law file's subtopics. |
| Indexer.SkipIffUpToDate | app/retrieval/indexer.py:155-195 | The skip decision, from one arbitrary point and two counts, is exactly "this set is already stored". |
| Indexer.DocumentIndexer.CheckUnchanged | app/retrieval/indexer.py:184-195 | Skips exactly when the collection already holds this set under this model. |
| Indexer.DocumentIndexer.IndexChunkSet | app/retrieval/indexer.py:322-367 | From any reachable store, one uninterrupted call leaves exactly the set's points, none without consent or when empty, each with its own chunk's vector; interrupted, it keeps other documents and never empties a document being replaced. |
| Indexer.OutcomeMeans | app/retrieval/indexer.py:322-367 | Without a fault, each outcome has its own condition: no consent, nothing to do, nothing to store, a refused key, vectors of the right size or not. |
| Indexer.DocumentIndexer.Write | app/retrieval/indexer.py:369-400 | Fails without a call on vectors of the wrong size, otherwise leaves exactly the new set, every chunk with the vector at its own position. |
| Indexer.DocumentIndexer.IndexFile | app/retrieval/indexer.py:281-320 | A refused request fails this file only; a success leaves exactly what the file wants; no other document changes. |
| Indexer.DocumentIndexer.DropUnreadable | app/retrieval/indexer.py:303-320 | An unreadable file's document goes whole exactly when the one point the server returns is a tax return's; otherwise nothing changes. |
| Indexer.UniformUnreadable | app/retrieval/indexer.py:303-320 | When a document's points agree about being a tax return, which one is returned makes no difference. |
| Indexer.DocumentIndexer.SweepOrphans | app/retrieval/indexer.py:249-279 | Refused exactly on an empty directory or when five or more and over half of the documents would go; otherwise it removes exactly the documents without a file. |
| Indexer.DocumentIndexer.Run | app/retrieval/indexer.py:218-247 | With no failed file and no skipped sweep the collection matches the directory; every stored tax return has consent, and every point its own text's vector if the files were given such, whatever faults strike; undisturbed, the run ends with no failure. |
| Indexer.DocumentIndexer.IndexFiles | app/retrieval/indexer.py:238-240 | The loop over the files: one outcome each, and every file exact when none failed. |
| Indexer.DirectoryDecides | app/retrieval/indexer.py:218-247 | Two collections that match a directory hold the same points, whatever histories led to them. |
| Indexer.SweptKeeps | app/retrieval/indexer.py:249-279 | A sweep, finished or cut short, never touches a document on disk. |
| TaxLaw.ReadSubtopics | app/retrieval/tax_law.py:185-222 | The nested loops accept exactly the files with objects, lists and text where they belong and no blank subtopic id, and list every subtopic in order. |
| TaxLaw.ParseIs | app/retrieval/tax_law.py:225-245 | A file is refused exactly when malformed or when an id repeats, blank subtopics included; otherwise it gives the subtopics with content and the count of the others. |
| TaxLaw.FileReadsBack | app/retrieval/tax_law.py:185-222 | Any topics, written out as a file, read back as their subtopics in order, each with its own title and content under its own topic. |
| TaxLaw.FileIsKnowledge | app/retrieval/tax_law.py:225-245 | And become a knowledge base of those with content, unless an id repeats. |
| TaxLaw.ContentKeepsDistinct | app/retrieval/tax_law.py:225-245 | The knowledge base keeps exactly the subtopics with content, each id once. |
| TaxLaw.TaxLawIndexer.Run | app/retrieval/tax_law.py:308-357 | An unusable file leaves the collection identical; otherwise the run has the effect of one guarded replacement. |
| TaxLaw.TaxLawIndexer.IndexFile | app/retrieval/tax_law.py:327-357 | A guard refusal changes nothing, a finished run leaves exactly the file's subtopics, each with its own vector, a stopped one a prefix of its calls. |
| TaxLaw.TaxLawIndexer.StalePointIds | app/retrieval/tax_law.py:389-415 | Refuses exactly when five or more and over half of the stored points would go, and otherwise names exactly those the file lacks. |
| TaxLaw.TaxLawIndexer.StoredPointIds | app/retrieval/tax_law.py:417-436 | Page by page, every stored id once. |
| TaxLaw.FinishedRunHolds | app/retrieval/tax_law.py:327-357 | A finished run leaves exactly the file's non-blank subtopics. |
| TaxLaw.RestartPassesGuard | app/retrieval/tax_law.py:403-415 | Wherever a run that passed the guard stops, the same file passes the guard again. |
| TaxLaw.RestartFinishes | app/retrieval/tax_law.py:327-357 | Such a restart finishes and leaves exactly the file's subtopics. |
| TaxLaw.RunKeepsTold | app/retrieval/tax_law.py:327-387 | Refused, stopped anywhere or finished, a run that was given the vectors of its title-and-content texts leaves every point with its own text's vector, if they had it before. |
| Embeddings.ParseAcceptsIff | app/retrieval/embeddings.py:164-209 | An answer is accepted if and only if it is a 200 with one usable full-size vector for every position (a pigeonhole: no index repeated or out of range). |
| Embeddings.ParsePutsInOrder | app/retrieval/embeddings.py:199-209 | Each vector ends at the position its entry names, in whatever order the entries came. |
| Embeddings.RetryDelayDoubles | app/retrieval/embeddings.py:212-234 | Seconds the service gives are used as they are up to the cap; otherwise the delay starts at one second and doubles up to the cap. |
| Embeddings.AttemptEndsAt | app/retrieval/embeddings.py:358-376 | Requests go on through transient failures only, each waited for as its header or its attempt says, and stop at the first other answer or the last attempt; that answer decides, so a refusal at any attempt is never tried again. |
| Embeddings.EmbeddingClient.EmbedBatch | app/retrieval/embeddings.py:341-376 | The attempt loop is the recursive specification, requests and waits included. |
| Embeddings.EmbeddingClient.EmbedDocuments | app/retrieval/embeddings.py:311-326 | The batch loop is the recursive specification; a failed batch discards the earlier ones. |
| Embeddings.AttemptIsTruthful | app/retrieval/embeddings.py:341-376 | A batch that succeeds returns each text's own vector, retries notwithstanding. |
| Embeddings.EmbedIsTruthful | app/retrieval/embeddings.py:311-326 | One vector per text, in order, for every batch size and every order of entries. |
| Embeddings.EmbedFailsOnABatch | app/retrieval/embeddings.py:311-376 | A client fails only because one of its batches did, on its last request: an answer not worth repeating, or the last allowed attempt. |
| Embeddings.GoodServiceEmbeds | app/retrieval/embeddings.py:311-326 | A service that never fails is asked once for each batch and never waited for. |
| Embeddings.AttemptIsBounded | app/retrieval/embeddings.py:341-376 | At most the allowed attempts, and at most 30 s of waiting between two of them. |
| Embeddings.EmbedIsBounded | app/retrieval/embeddings.py:311-326 | At most attempts times batches requests. |
| Embeddings.BatchesIsCeiling | app/retrieval/embeddings.py:323-325 | The number of batches is the text count over the batch size, rounded up. |
| Cents.RoundsHalfToEven | app/balances.py:42-54 | The result is the nearest cent, and the even one of two equally near; nothing else is. |
| Cents.CentsMean | app/balances.py:42-54 | For every text with a point, signed or not, the cents are the nearest to the number its digits spell, and the even ones of two equally near. |
| Cents.WholeCentsMean | app/balances.py:42-54 | A text without a point is a hundred times its number. |
| Cents.TextMeans | app/balances.py:42-54 | The digits on both sides of the point, with zeros up to the fourth place, are the number of ten-thousandths. |
| Cents.DecimalForms | app/models.py:217-219 | Every text a delivery may send is of one of these forms. |
| Cents.RoundIsMonotone | app/balances.py:42-54 | Larger amounts never give fewer cents. |
| Cents.NegatedText | app/balances.py:42-54 | A minus sign in front of an amount's text negates its cents. |
| Cents.CentsBound | app/models.py:217-219 | Every accepted amount stays within 10^14 cents. |
| Cents.CentsRoundTrip | app/balances.py:57-69 | Printing any whole number of cents with two places and converting back gives the same cents; the text is one a delivery may send exactly below 10^14 cents. |
| Timestamps.IsoOrder | app/scheduler.py:171-172 | The text order of stored times is their chronological order, although zero microseconds are omitted. |
| Timestamps.IsoInjective | app/scheduler.py:171-172 | Two stored times with the same text are the same instant. |
| Timestamps.DateReads | app/scheduler.py:171-172 | A stored time reads back its year, month and day at their places. |
| Timestamps.ClockReads | app/scheduler.py:171-172 | And its hour, minute, second and, unless it is zero, six digits of fraction. |
| Ledger.PrefixIsProvider | app/models.py:147-157 | The prefix the deletes match on selects exactly the provider's accounts. |
| Ledger.Tables.ReplaceBalances | app/balances.py:90-149 | Other providers' rows as they were and exactly the delivered rows for those named; no insert ever meets a taken account id. |
| Ledger.DeliveredIsStored | app/balances.py:123-149 | Every delivered row is stored under its own account with its own columns, its value in cents and the delivery's fetch time. |
| Ledger.Tables.DropUnreportedFromDay | app/balances.py:152-182 | Removes from the day exactly the named providers' accounts that are no longer stored. |
| Ledger.Tables.SnapshotDaily | app/balances.py:185-210 | Every stored account is on the day with its own figures, and no other row of any day changes or goes; the count is those accounts. |
| Ledger.Tables.StoreDelivery | app/scheduler.py:789-831 | The three steps in one transaction, or, failing at any statement, nothing. |
| Ledger.Tables.SnapshotBalancesDaily | app/scheduler.py:834-868 | One snapshot, or nothing when it fails. |
| LedgerRuns.Replay | app/scheduler.py:789-868 | Running the tables over any deliveries and snapshots, any of them failing at any statement, gives the state the run stands for. |
| LedgerRuns.OtherDaysUntouched | app/balances.py:152-210 | A write changes no row of another day. |
| LedgerRuns.DayExactIff | app/balances.py:152-210 | A successful write leaves its day equal to the stored balances if and only if no account of an absent provider was in the day without being stored. |
| LedgerRuns.HistoryExactIff | app/balances.py:123-210 | Over every run, in any order of days, a day's history is the balances as they stood after its last successful write if and only if that write left nothing behind. |
| LedgerRuns.HistoryIsFaithful | app/balances.py:123-210 | Over every run in day order with any writes rolled back, each day's history is the balances as they stood after its last successful write. |
| LedgerRuns.OutOfOrderKeepsGhost | app/scheduler.py:811-824 | Without day order a replaced account stays in a day it no longer belongs to. |
| LedgerCases.HistoryGoesWrong | app/scheduler.py:811-824 | Two deliveries and a late snapshot, which the scheduler can commit, after which day 1 is wrong. |
| LedgerRuns.RowsShareFetchTime | app/balances.py:123-149 | All rows of a provider carry the fetch time of its last delivery. |
| LedgerRuns.FreshnessIsLaggard | app/cache.py:289-316 | The oldest stored text is the last delivery of the provider that has gone longest without one, and nothing else is. |
| LedgerRuns.TableBound | app/models.py:366-384 | No reachable table has more than 6000 rows, and every amount in it stays within 10^14 cents. |
| BalanceReaders.GroupsAddUp | app/cache.py:523-572 | Any grouping adds up to the whole, in totals and in account counts. |
| BalanceReaders.GroupingsAgree | app/cache.py:523-572 | Category and entity groups give one total, the headline's, and their counts are the USD accounts. |
| BalanceReaders.CategoryGroupIs | app/cache.py:523-541 | A category's group is the stored dollar accounts of that category, in total and count. |
| BalanceReaders.EntityGroupIs | app/cache.py:544-572 | An entity's group is the stored dollar accounts it owns, if it is cached under a name. |
| BalanceReaders.UnknownGroupIs | app/cache.py:544-572 | The accounts of all others are one group without a name. |
| BalanceReaders.TrendIs | app/cache.py:575-596 | The trend has a point for a day exactly when the day lies in the window and holds a dollar account; the point is their sum. |
| BalanceReaders.AllTotalsAgree | app/routes/_context.py:103-124 | After every successful write in day order the category totals, entity totals, headline, trend point and chat total are one number. |
| BalanceReaders.ChatAgreesIff | app/chat/balances.py:170-247 | Chat and the headline agree if and only if a USD account is stored or the history never had one. |
| LedgerCases.ChatGoesStale | app/chat/balances.py:170-247 | A dollar account replaced by a euro account, which the scheduler can commit: no headline, and chat still states the day before. |
| BalanceReaders.TotalBound | app/models.py:366-384 | The stored USD total and every group of every grouping of it stay within 6·10^17, inside signed 64 bits. |
| BalanceReaders.DayBound | app/cache.py:575-596 | So do a history day's total and groups, with at most 6000 rows, when the day's last write left nothing behind. |
| BalanceReaders.EveryDayBound | app/cache.py:575-596 | And therefore every day's in every run in day order. |
| DayVisits.BoundPerVisit | app/cache.py:575-596 | In any order of days, a history day holds at most 6000 rows, and its total is at most 6·10^17 cents, for each time the run comes to that day from another. |
| DayVisits.OneVisit | app/scheduler.py:811-824 | In day order it comes there at most once. |
| LedgerCases.DayGrowsWithoutBound | app/cache.py:575-596 | No fixed bound holds: for every n, deliveries of one account on day 2, with as many late ones that read the date on day 1, put n rows and almost n trillion dollars on day 1, and the scheduler can commit them in that order. |
| Fetch.RetryAfterIsClamped | app/scheduler.py:252-285 | Whole seconds of any number of digits (section 10.2.3 of RFC 9110) give clamp(1, n, 60); everything else gives the default. |
| Fetch.GetEnds | app/scheduler.py:297-337 | A request waits out rate limits, one retry and one wait of the header's length for each, until a shutdown ends a wait or an answer decides that is no rate limit or comes with the retries spent. |
| Fetch.GetJson | app/scheduler.py:299-336 | The retry loop is the recursive specification, with its budget, requests and waits. |
| Fetch.GetItems | app/scheduler.py:339-385 | The page loop is the recursive specification, one budget shared by all pages. |
| Fetch.FetchIsBounded | app/scheduler.py:339-385 | Whatever the server does: at most 53 requests and 180 s of waiting. |
| Fetch.NeverPartial | app/scheduler.py:339-385 | A result is a bare list of objects, or pages 1..k in order as the server sent them, k the first that reaches the announced total, at most 50. |
| Fetch.SteadyFetchIff | app/scheduler.py:339-385 | Through any rate limits the retries can wait out, a fetch from a steady server succeeds exactly when at most 50 pages, none empty on the way, add up to the total; it then returns those pages. |
| Fetch.BareFetch | app/scheduler.py:363-364 | Behind as many rate limits as there are retries, a bare list of objects is the result, and one of anything else fails the fetch. |
| Fetch.FirstPageDecides | app/scheduler.py:365-371 | Without an announced total the first page is all; a total that is no number, or a body of another shape, fails the fetch. |
| DocumentRows.Connection.WriteDocuments | app/scheduler.py:723-768 | The loop leaves the table of kept rows and returns how many there are, or raises at the first that cannot be stored. |
| DocumentRows.KeptIsFirst | app/scheduler.py:723-768 | A row is kept if and only if it is the first usable item with its id. |
| DocumentRows.ItemReadsBack | app/scheduler.py:682-720 | Every field of an item ends in its own column; id and title are stripped, and a category that is not one of the seven becomes the default. |
| DocumentRows.ItemStorable | app/scheduler.py:682-720 | Its row can be stored exactly when each of its seven texts can. |
| DocumentRows.UnusableItems | app/scheduler.py:629-705 | Nothing but an object with an id and a text title becomes a row. |
| DocumentRows.OddIdsAreRefused | app/scheduler.py:629-647 | An id that is not one segment of a path is not usable. |
| DocumentRows.FlagFailsClosed | app/scheduler.py:682-720 | A flag that is missing, or anything but a JSON false, hides the document. |
| DocumentRows.StoredIsFirst | app/scheduler.py:723-768 | An id is stored exactly when some item offers it, with the first such item's row. |
| DocumentRows.VisibleOnlyWhenFalse | app/scheduler.py:629-720 | A document is open to viewers exactly when that item's flag is JSON false; its id is one path segment and its category an allowed one. |
| Scheduler.RunKeeps | app/scheduler.py:157-168 | Every interleaving keeps the lock tables and open transactions consistent. |
| Scheduler.OneRunPerService | app/scheduler.py:419-426 | At most one run per service is past its try-lock. |
| Scheduler.OneWriter | app/scheduler.py:451-458 | At most one process holds the write lock. |
| Scheduler.Serializable | app/scheduler.py:429-470 | The database is what the committed work gives when done one after the other. |
| Scheduler.NeverStuck | app/scheduler.py:388-470 | An unfinished process can move, or the holder of the write lock it waits for can: no deadlock. |
| Scheduler.EveryEventAdvances | app/scheduler.py:388-470 | Every event of a process brings it nearer its end and moves no other. |
| Scheduler.NoLockLeaks | app/scheduler.py:423-426 | When every process is done, every lock is free. |
| SchedulerTables.RefreshRuns | app/scheduler.py:478-581 | A refresh gets through if and only if no element is malformed and no key repeats (performance rows with a null date, which SQLite keeps side by side, excepted); it then replaces its tables whole and leaves the others and the ledger. |
| SchedulerTables.EntriesAreStored | app/scheduler.py:478-581 | After a refresh every element stands in its table under its key with its own columns and the fetch time. |
| SchedulerTables.ServicesWriteApart | app/scheduler.py:478-768 | Two services never write the same table. |
| SchedulerTables.DocumentsAreComplete | app/scheduler.py:723-768 | A document refresh gets through if and only if the driver can store the text of every row it writes; nothing malformed or repeated fails it. |
| SchedulerTables.OneTitleFailsAll | app/scheduler.py:723-768 | One new document with a title that cannot be stored fails the refresh of every document. |
| SchedulerTables.TablesAreWhole | app/scheduler.py:429-470 | In every interleaving, with failures and restarts, each dataset table is empty or exactly the rows of the latest committed payload, which was complete. |
| SchedulerTables.LedgerIsSerial | app/scheduler.py:789-868 | Interleaved with refreshes, the ledger is a serial run of its committed writes. |
| SchedulerTables.HistoryUnderConcurrency | app/scheduler.py:789-868 | So every day's history is faithful when the writes committed in day order. |
| LedgerDays.QuietNightsAreFaithful | app/scheduler.py:811-868 | They do, and it is, in every interleaving in which no ledger write is between reading the date and committing when the date changes. |
| LedgerDays.SnapshotsWaited | app/scheduler.py:846-868 | In every interleaving, a snapshot's day is not before that of anything committed up to the snapshot before it. |
| LedgerDays.CanCommitIff | app/scheduler.py:811-868 | And nothing else is guaranteed: a sequence of valid writes, in whatever order of days, is what some interleaving commits if and only if its snapshots waited so. |
| AccountNames.PaddedIsSpaced | app/chat/balances.py:135-145 | A padded text is its words, each between single spaces. |
| AccountNames.WordsReadBack | app/chat/balances.py:135-145 | Words of lower-case letters and digits, joined by spaces, read back as those words. |
| AccountNames.SeparatorSplits | app/chat/balances.py:135-145 | Every other character only separates words. |
| AccountNames.ReplaceIsBlank | app/chat/balances.py:106-132 | Replacing a padded name in a padded text is blanking a run of words. |
| AccountNames.HasIsRun | app/chat/balances.py:106-132 | Finding a padded name in a padded text is finding a run of whole words. |
| AccountMatching.MaskIsBlank | app/chat/balances.py:106-132 | Blanking, which shifts the text, is masking in place. |
| AccountMatching.FoundIsRun | app/chat/balances.py:106-132 | A name is found in a blanked text if and only if its words stand unmasked somewhere. |
| AccountMatching.MaskTakes | app/chat/balances.py:130 | Blanking hides the runs the left-to-right scan takes, and no word beside them. |
| AccountMatching.LoneTaken | app/chat/balances.py:130 | A run that no other run of the name overlaps is taken unless the run ending where it starts was. |
| AccountTurns.LongestFirstIs | app/chat/balances.py:121-125 | The accounts are tried once each, longest normalised name first, equal lengths in table order. |
| AccountTurns.MatchIsNamed | app/chat/balances.py:107-110 | Whoever is found is named by a whole-word run of an original text. |
| AccountTurns.ClearMatches | app/chat/balances.py:107-112 | Whoever has a mention that no account tried earlier touches is found. |
| AccountExclusion.ExcludedIff | app/chat/balances.py:109-112 | An account whose every mention lies inside a mention of a longer name, or of an equal one earlier in the table, that no third name tried before overlaps, is found if and only if such a name is said twice running and only one account tried earlier has it. |
| AccountExclusion.EqualNameIsCovered | app/chat/balances.py:121-131 | The later of two accounts with one name is such an account, if no third name overlaps its mentions. |
| AccountCases.TwiceRunning | app/chat/balances.py:123-130 | Whatever the words x and y: with "x" and "x y" in the table, a text that begins "x y x y" finds "x". |
| AccountCases.ShorterIsFoundToo | app/chat/balances.py:109-112 | A text in which every mention of the shorter name lies inside the longer, and the shorter is found. |
| AccountSearch.AccountsNamedIn | app/chat/balances.py:106-132 | Names and texts lower-cased first; in table order; exactly the accounts whose name stands among the words not blanked at their turn, hence sound, complete for clear mentions, and exclusive as ExcludedIff says. |
| AccountSearch.LoweredNamedIn | app/chat/balances.py:117-132 | The same for names and texts already lower-cased. |
| AccountSearch.MatchAll | app/chat/balances.py:125-130 | The loop over padded strings finds an account exactly when its words stand at its turn. |
| PassageText.CleanPassageByLine | app/chat/prompt.py:83-102 | The line loop is the recursive specification. |
| PassageText.LineThen | app/chat/prompt.py:93 | A line ends at the first of the line breaks, CR LF being one, and what follows is split on its own. |
| PassageText.CutHasNoFenceRun | app/chat/prompt.py:52-53 | Cutting leaves no run of three marks, with or without spaces or tabs between them. |
| PassageText.CutTwice | app/chat/prompt.py:52-53 | A second cut finds nothing to do. |
| PassageText.MarksKeep | app/chat/prompt.py:97 | Removing heading marks makes no new run of marks and no line break. |
| PassageText.CutUnchangedIff | app/chat/prompt.py:52-53 | Cutting leaves a line alone if and only if no mark starts a run of three. |
| PassageText.CutKeepsWording | app/chat/prompt.py:93-96 | Cutting takes away only marks and the spaces between them. |
| PassageText.StripMarksIs | app/chat/prompt.py:52 | What goes is the whole first run of `#` after the indentation and the white space after it; a line without one is left alone. |
| PassageText.HarmlessTextStays | app/chat/prompt.py:83-102 | Text without marks, fences or section names is only stripped. |
| SectionNames.PassageIsItsLines | app/chat/prompt.py:83-102 | A cleaned passage is exactly its lines that are no section name, each normalised, cut and stripped of heading marks, in their order, and the ends stripped. |
| SectionNames.SectionNameIff | app/chat/prompt.py:78-80 | A line reads as a section name if and only if, upper-cased, its runs of capitals are the words of a heading, whatever stands around and between them. |
| PassageText.CleanHasNoFenceRun | app/chat/prompt.py:83-102 | Cleaned text holds no run of three marks, with or without spaces between them, so no fence. |
| PassageText.OneSpacedKeepsSolid | app/chat/prompt.py:114 | Joining a label's lines rewrites white space only. |
| PassageText.OneSpacedIs | app/chat/prompt.py:114 | What is joined holds no white space but single blanks. |
| PassageText.SlashedIs | app/chat/prompt.py:114 | A label's pipes become slashes, and nothing else changes. |
| PassageText.LabelHasNoTriple | app/chat/prompt.py:105-115 | A cleaned label holds no three marks in a row. |
| PassageText.LabelIsOneLine | app/chat/prompt.py:105-115 | A cleaned label is one line. |
| CleaningLimits.LabelFenceIff | app/chat/prompt.py:105-115 | A label holds no run of three marks if and only if the cleaned title has none across its line breaks. |
| CleaningLimits.OneSpacedRunIff | app/chat/prompt.py:114 | Joining lines by single spaces makes a run exactly where only white space stood between three marks. |
| CleaningLimits.LabelWithFence | app/chat/prompt.py:105-115 | A title whose label is a spaced run of three. |
| CleaningLimits.StrippedOpensIff | app/chat/prompt.py:97 | A stripped line still opens a heading if and only if a second run of `#` followed the first. |
| CleaningLimits.StripMarksTwiceIff | app/chat/prompt.py:97 | Stripping twice changes nothing more under exactly the opposite condition. |
| CleaningLimits.PassageHeadingIff | app/chat/prompt.py:83-102 | A cleaned passage opens a heading if and only if a kept line had a second run of `#`. |
| CleaningLimits.PassageWithHeading | app/chat/prompt.py:83-102 | A passage that still opens a heading, and loses it when cleaned again. |
| CleaningLimits.LabelPipeIff | app/chat/prompt.py:105-115 | A label holds a pipe if and only if a kept line holds one after NFKC. |
| CleaningLimits.LabelWithPipe | app/chat/prompt.py:105-115 | A title without a pipe whose label has one. |
| PassageLines.CleanKeepsTest | app/chat/prompt.py:101-102 | For any test white space cannot change, the lines of the stripped passage pass it exactly when the kept lines do. |
| PassageLines.HeadingsAreNames | app/chat/prompt.py:66-80 | Both heading lines read as section names. |
| PassageLines.NoLineIsAHeading | app/chat/prompt.py:78-102 | No line of a cleaned passage reads as a section name, its stripped first and last lines included. |
| Prompt.SourcesSectionByPassage | app/chat/prompt.py:161-180 | The passage loop is the recursive specification. |
| Prompt.SourcesRoundTrip | app/chat/prompt.py:161-180 | A line reader recovers exactly the kept labels and bodies from the printed section. |
| Prompt.SourcesAreTheUseful | app/chat/prompt.py:146-180 | What is read back is, for every result whose cleaned text is not empty and for no other, its label and its cleaned text, in result order. |
| Prompt.LabelMeans | app/chat/prompt.py:127-143 | A document is named by its cleaned title, a law by its cleaned number and then title, with fixed words where nothing is left of one. |
| Prompt.PagesMean | app/chat/prompt.py:118-124 | The pages a label names are the citation's, first and last in order. |
| Prompt.SameSectionSamePassages | app/chat/prompt.py:146-180 | Two searches that print the same section kept the same passages. |
| Prompt.SourcesHeadings | app/chat/prompt.py:161-180 | The section holds its own heading line once and the other never. |
| PromptBalances.BalanceSectionByRow | app/chat/prompt.py:183-210 | The row loops are the section's specification. |
| PromptBalances.GroupedReadsBack | app/balances.py:72-87 | Dropping the thousands commas gives the digits back. |
| PromptBalances.CommasAre | app/balances.py:84 | Counted from the right, every fourth place is a comma and no other is. |
| PromptBalances.AmountIsInjective | app/balances.py:72-87 | No two amounts of one currency print alike. |
| PromptBalances.AmountMeans | app/balances.py:72-87 | A printed amount has a minus sign exactly for a debt, a dollar sign or the currency behind, and the digits of its cents. |
| PromptBalances.AccountRowReads | app/chat/prompt.py:183-210 | Read between its bars, an account's row gives its name, category, entity, balance and date, as long as no cell holds a bar. |
| PromptBalances.TotalRowReads | app/chat/prompt.py:183-210 | And a total's row its label, amount and date. |
| PromptBalances.TableByLine | app/chat/prompt.py:183-210 | Line by line, the heading and then every account and every total in its order under its own lines, or a notice when there is nothing to show. |
| PromptBalances.PromptByLine | app/chat/prompt.py:213-228 | The prompt is the stripped instructions, the table and the passages, in this order, a blank line between them. |
| PromptBalances.OneOfEachHeading | app/chat/prompt.py:183-228 | For any passages, titles and account names and one-line dates, the two sections together hold exactly one line for each heading. |
| PromptBalances.OneHeadingMoreThanInstructions | app/chat/prompt.py:213-228 | In the whole prompt each heading line appears once more than in the instructions. |
| Search.FilterMeans | app/retrieval/search.py:269-298 | A family point passes the filter if and only if the caller may see it and its entity was asked for. |
| Search.DropConfidentialIs | app/retrieval/search.py:364-379 | The second check is the identity when the filter held, and always lets through exactly the points flagged false. |
| Search.CutIsTopK | app/retrieval/search.py:510-511 | The first k of sorted candidates that cover the eligible points are a top k of them (a pigeonhole). |
| Search.CoversUnion | app/retrieval/search.py:475-511 | Candidates of two collections together cover both. |
| Search.SortKeepsTies | app/retrieval/search.py:510 | Equal scores stay in the order the collections answered in. |
| Search.Run | app/retrieval/search.py:475-511 | The collection loop, each collection once, is the recursive specification. |
| Search.SearchIsTopK | app/retrieval/search.py:475-511 | When each collection answers with its own top k, the result is a top k of every eligible point of the existing requested collections. |
| Search.EligibleIs | app/retrieval/search.py:269-298 | Eligible is every point of a requested collection that exists, if the caller may see it and, in the family's, its entity was asked for. |
| Search.FailsIffAllMissing | app/retrieval/search.py:475-511 | A search fails if and only if no requested collection exists, and otherwise names exactly those that do not. |
| Search.ViewersSeeOnlyOpen | app/retrieval/search.py:364-379 | Whatever the index answers, a viewer is shown no family point that is not flagged false. |

## Left out

- HTTP, SQLite and Qdrant transport, threads, logging and settings: they are atomic steps, arbitrary answers and faults here.
- SHA-256, UUIDv5, NFKC and Unicode case tables: taken as stated above, not computed.
- Vector similarity: scores are opaque reals, and each collection's own top k is a hypothesis of `SearchIsTopK`.
- Cents.CentsRoundTrip: exact for every number; the 28 digits decimal arithmetic keeps are far beyond the 6·10^17 any total reaches.
- Float rounding: clock values, delays and vector entries are reals; a non-finite vector entry is an unusable entry.
- `reset()` on the limiter, and which chat outcomes refund a question (app/routes/chat.py): branch-by-branch policy.
- DocumentPoints.EveryHistory: covers points written by this writer; a payload with a missing or foreign-typed field never arises and is not modelled.
- ChunkSets.ParseChunkSet: case folding is a parameter.
- TaxLaw.TaxLawIndexer.Run: a malformed file is one error here; which of its faults the message names is not modelled.
- Fetch.NeverPartial: a later page that is not an object counts as a failure, and an element of a bare list that is a list of pairs is not turned into an object.
- Fetch.FetchIsBounded: bounds waiting for rate limits, not the time of the requests themselves.
- DocumentRows.Connection.WriteDocuments: which texts the database driver can store is an arbitrary set; a `char` here cannot be half of a surrogate pair.
- LedgerDays.CanCommitIff: the clock never goes back; a date is read at one instant, when the job comes back with its work.
- SchedulerTables.TablesAreWhole: speaks of the dataset tables; `refresh_log` is written outside the write lock, so nothing is claimed of it.
- AccountSearch.AccountsNamedIn: what lower-casing does to a text is a parameter.
- SchedulerTables.RefreshRuns: the columns of entities, holdings, performance and positions are opaque values; only documents are read field by field.
- Scheduler.NeverStuck: fetch, commit and lock operations end; fairness of the thread pool is not modelled.
- LedgerRuns.HistoryIsFaithful: needs writes to commit in day order, which the source does not enforce; HistoryExactIff needs no order.
- BalanceReaders.AllTotalsAgree: compares totals and counts; the order of groups, their display names and the oldest as-of date are not modelled.
- PromptBalances.OneOfEachHeading: as-of dates are assumed to be one line, as stored dates are; the instructions file is outside the claim.
- Search.Run: building a citation from a payload (pages, section, title) is left out, as are the request's own checks.
- `build_payload`, `query_text`, the collection-creation calls and the command-line entry points: easy members only.
- Routes, templates, middleware, sign-in, document downloads, answer rendering, migrations and browser scripts.
