# Verified model of the conversation store, its search index and the chunk store

A Dafny 4.11 model of the parts of the memory crate where state, concurrency and arithmetic meet,
with proofs of what they promise.  `dafny verify dfyconfig.toml` checks everything.

**Conversation store.**  Any number of calls run at once.  Each public operation is a sequence of
atomic steps: taking or freeing one lock, or one action between lock steps (`StoreProtocol`).  The
shared state is the transcripts, the thread log, the optional warm index, the optional append
journal and all lock tables, with the weak per-thread mutex registry and its eviction.  Every write
to a file may fail.  Proved over every run from an empty workspace: the locks are taken in rank
order and no reachable state is a deadlock (`StoreLockOrder`); the published index agrees with the
transcripts except for rows of a call that still holds the thread's lock (`StoreSafety`,
`StoreRuns`); searches see returned appends and miss what was removed (`StoreHistory`); counts,
timestamps and transcripts in replies are exact (`StoreReplies`).  The state also carries auxiliary
history: for each thread the rows recorded so far for the journal and those settled in the index,
and the threads whose statistics line could not be written.

**Inverted index.**  The class `InvertedIndex` with posting lists, tombstones and reverse map, its
in-place two-pointer intersection and its two-phase search, proved to answer like a plain scan.  What
a query asks for is said over the positions of its text (`Unicode`, `InvertedIndex`), and what
normalising does not see over its characters (`Tokenize`).  The Unicode lower-case mapping of a
character and the parsing of timestamps are parameters.

**Token-budget splitter** (`TokenBudget`), **semantic splitter** (`SemanticLines`,
`SemanticChunks`) and **chat units** (`ChatUnits`, `Produce`): loops proved against recursive
functions, and the functions proved to tile, bound and preserve the text.  Where they cut is proved
over positions: `TokenBoundaries` for paragraphs, sentences and words, `SemanticLayout` for sections,
paragraphs and the lines and paragraphs that share a chunk.

**Delete cascade**: a pure account of the tables (`ChunkTables`) and the class `ChunkStore`, which
deletes table by table in the program's order (`ChunkDelete`).

**Episodic archive**: the front-matter printer and parser (`Archive`, over `JsonString`, `Decimal`
and `TextScan`), the directory scan (`ArchiveSession`) and concurrent writers (`ArchiveWriters`).

**Smaller cores**: the LIKE escaper (`LikePattern`), the circuit breaker (`ConnectionBreaker`) and
the connection cache with its init lock (`Connection`).

Where the code and its comments differ, the model follows the code:

- The comment at `src/memory/conversations/store_ops.rs:120-123` says reads repair a failure between
  the two appends.  `StoreReplies.FailedStatisticsLine` says exactly when the next listing measures
  the thread again: when its count was unknown before.  `StoreReplies.RepairLeavesKnown` says a known
  count is never repaired, and `StoreLostCount.ListingStaysWrong` gives a run whose last listing
  reports an empty thread that holds a message.
- A delete can take entity rows of chunks of another kind, because trees are found by scope alone
  and the cascade removes entity rows by tree.  `ChunkTables.SurvivorLosesEntities` says which chunks
  lose rows, `ChunkTables.SurvivorsKeepEntities` when none does, and `ChunkTables.EmailLosesEntity`
  gives a case.  Ingest files the rows of chunks under no tree
  (`src/memory/ingest/pipeline.rs:143-148`), so such rows come from callers of `persist_score` or
  `index_entities` that name a tree.
- A delete checks whether a raw file is still referenced, but not whether a content file is.
  `ChunkTables.RemovedFilesAreUnreferenced` gives the exact condition under which no referenced file
  is removed, `ChunkTables.OwnFilesAreSafe` the naming rule that ensures it, and
  `ChunkTables.SharedFileIsRemoved` a case.
- The clean-up of an orphaned source takes every gate whose source id goes on with `@` after the
  source's own, although only gate keys of versions are made so (`src/memory/ingest/pipeline.rs:108-120`).
  `ChunkDelete.OrphanGatesUnused` says exactly when it removes no gate of a source that has chunks,
  and `ChunkDelete.AliceTakesGate` gives a case.
- The semantic splitter is documented to carry a heading over to the later chunks of its section.  The
  pieces of a paragraph that is too large do not carry it; the heading comes before them as a chunk of
  its own (`SemanticLayout.SectionMeaning`).
- Splitting a chat blob at a message boundary gives the units of both halves exactly when the left
  half is blank or has a header of its own (`ChatUnits.SplitsAtBoundary`); `ChatUnits.IntroIsDropped`
  gives a case where it has none.

## Model

| member | source | states |
|---|---|---|
| ConversationTypes.LookupFindsFirst | src/memory/conversations/store.rs:287-308 | a lookup by id finds a row whenever the transcript has one, and it is the earliest |
| ConversationTypes.FindMessageById | src/memory/conversations/store.rs:287-308 | the line-by-line scan returns that earliest row |
| ConversationTypes.InsertMirrors | src/memory/conversations/inverted_index.rs:129-171 | appending a row and inserting it keeps the index equal to the first occurrence of every id of the transcript, even when the id repeats |
| ConversationTypes.RebuildMirrors | src/memory/conversations/store_ops.rs:326-337 | dropping a thread's documents and inserting the kept rows makes the index mirror exactly those rows |
| ThreadLog.NormalizeLabels | src/memory/conversations/store.rs:220-241 | the loop yields the labels in their current spelling, each once, in first-seen order |
| ThreadLog.NormalizedLabelsMeaning | src/memory/conversations/store.rs:220-241 | a label is in the result exactly when some input label has it as current spelling, and no label repeats |
| ThreadLog.NormalizedLabelsOrder | src/memory/conversations/store.rs:220-241 | the labels come in the order of the first input that has each as current spelling |
| ThreadLog.FoldThreadLog | src/memory/conversations/store_index.rs:335-430 | the loop over the log lines computes the table that FoldLife, FoldFields and FoldedLabelsCanonical describe |
| ThreadLog.FoldLife | src/memory/conversations/store_index.rs:335-430 | after any log a thread is live exactly when an upsert created it and nothing deleted it since, and it keeps the creation time of that upsert |
| ThreadLog.DeadSinceDelete | src/memory/conversations/store_index.rs:397-399 | in the log of a dead thread every upsert is followed by a delete |
| ThreadLog.FoldFields | src/memory/conversations/store_index.rs:335-430 | a live thread has the title of its last upsert, the normal form of the last labels an upsert carried since its creation or else the inferred ones, and the last parent and personality an upsert carried since then or else none |
| ThreadLog.FoldedLabelsCanonical | src/memory/conversations/store_index.rs:335-430 | labels of a folded thread are always in canonical form |
| StoreLocks.StoreLocks.Thread | src/memory/conversations/store_locks.rs:31-40 | fetching a thread's mutex prunes exactly the entries nobody references, returns the registered mutex or a fresh one, and registers it |
| StoreLocks.StoreLocks.RecordIndexAppend | src/memory/conversations/store_locks.rs:47-51 | an append is added to the journal when a cold build is running and to nothing otherwise |
| StoreLocks.StoreLocks.FinishIndexBuild | src/memory/conversations/store_locks.rs:53-55 | hands out every journaled append in order and closes the journal |
| StoreLocks.StoreLocks.RemoveThread | src/memory/conversations/store_locks.rs:62-65 | evicts one thread's entry and leaves the others |
| StoreLockOrder.StartDisciplined | src/memory/conversations/store.rs:65-86 | the whole program of every call takes its locks in the rank order lifecycle, index build, thread, metadata, and holds what each action relies on |
| StoreLockOrder.OneMutexPerThread | src/memory/conversations/store_locks.rs:31-69 | two operations holding Arcs for one thread id hold the same mutex, although the registry is weak and entries are evicted |
| StoreLockOrder.OneHolderPerThread | src/memory/conversations/store_locks.rs:31-69 | so at most one operation at a time is inside one thread's critical section |
| StoreLockOrder.WriterAlone | src/memory/conversations/store_ops.rs:363-398 | while the lifecycle write guard is held no other operation holds any lock |
| StoreLockOrder.FetchArcStep | src/memory/conversations/store_locks.rs:31-40 | fetching an Arc keeps all lock tables in agreement with the program counters |
| StoreLockOrder.NoDeadlock | src/memory/conversations/store.rs:65-86 | whenever some operation is unfinished, some operation's next step is enabled, even if new readers must wait for a waiting writer |
| StoreLockOrder.ReadyHasStep | src/memory/conversations/store.rs:65-86 | an enabled operation really has a successor state |
| StoreSafety.ThreadStep | src/memory/conversations/store_ops.rs:140-189 | a step of the holder of one thread's mutex keeps the conditions of every thread |
| StoreSafety.ScanOne | src/memory/conversations/store_index.rs:66-78 | reading one transcript under its lock extends the part of the scan that, with the journal, says what the recorded rows say |
| StoreSafety.DrainCompletes | src/memory/conversations/store_index.rs:82-89 | draining the journal under the metadata lock makes the scanned index hold every settled row and nothing else |
| StoreSafety.RecordKeepsScan | src/memory/conversations/store_ops.rs:164-187 | an append during the scan is journaled, so the scan stays sound |
| StoreSafety.LogStatsThread | src/memory/conversations/store_ops.rs:338-357 | the statistics line of a truncation agrees with the kept rows |
| StoreSafety.RepairKeepsThread | src/memory/conversations/store_index.rs:193-243 | measuring a thread makes its statistics agree with its transcript, whatever they were |
| StoreSafety.PatchedShape | src/memory/conversations/store_ops.rs:257-297 | patching metadata changes no id, no timestamp, no document and no length |
| StoreSafety.EmptyThreads | src/memory/conversations/store_ops.rs:412-430 | after the wipe no thread, row or document is left to account for |
| StoreSafety.NextSafe | src/memory/conversations/store_ops.rs:18-431 | every step of every operation, with or without a failing write, and every new call keep the invariant of locks, threads, index and journal |
| StoreRuns.RunSafe | src/memory/conversations/store_ops.rs:18-431 | every state of every run satisfies that invariant |
| StoreRuns.IndexMirrorsTranscript | src/memory/conversations/store_index.rs:36-90 | whenever nobody works on a thread, the published index holds exactly the first occurrence of every message id of its transcript; a dead thread has no row; no two rows share an id that begins with "agent:" |
| StoreRuns.IndexLag | src/memory/conversations/store_ops.rs:164-187 | at every other moment the difference belongs to an operation holding that thread's lock; for an append it is the last row alone |
| StoreRuns.StatisticsAgree | src/memory/conversations/store_index.rs:193-243 | statistics of a thread nobody works on are unknown or equal the transcript's count and last timestamp, unless a statistics line failed |
| StoreRuns.LostSince | src/memory/conversations/store_ops.rs:177-185 | statistics go wrong only by a step in which a statistics line of that thread cannot be written |
| StoreRuns.StatisticsExact | src/memory/conversations/store_index.rs:193-243 | in every run in which no statistics line of the thread failed, its known count and last timestamp are the transcript's own whenever nobody works on it |
| StoreRuns.DeadlockFree | src/memory/conversations/store.rs:65-86 | in every state of every run with unfinished work some step is possible |
| StoreRuns.SharedMutex | src/memory/conversations/store_locks.rs:31-69 | over every run, live operations on one thread id share one mutex object and one holder |
| StoreHistory.RunServes | src/memory/conversations/store_ops.rs:18-431 | over every run each operation's pending action belongs to the program of its request |
| StoreHistory.IndexedStays | src/memory/conversations/store_index.rs:36-106 | what is indexed stays indexed, across cold builds and drops of the cache, until an action of a truncation, deletion or purge removes it |
| StoreHistory.AbsentStays | src/memory/conversations/store_index.rs:36-106 | what is not indexed stays away until an append adds it |
| StoreHistory.SearchSeesAppend | src/memory/conversations/store_ops.rs:102-189 | a search called after `append_message` returned runs on an index containing the message, unless a truncation or deletion of the thread or a purge was in progress between the step that wrote the row and the answer of the search |
| StoreHistory.SearchAfterDelete | src/memory/conversations/store_ops.rs:363-409 | a search called after `delete_thread` returned sees no message of the thread that is not appended again |
| StoreHistory.SearchAfterPurge | src/memory/conversations/store_ops.rs:412-430 | a search called after `purge_threads` returned sees no message that is not appended again |
| StoreHistory.SearchAfterTruncate | src/memory/conversations/store_ops.rs:299-359 | a search called after `delete_messages_from` returned misses every message that was only in the cut part, unless appended again |
| StoreHistory.TruncationRemoved | src/memory/conversations/store_ops.rs:313-337 | the transcript becomes the rows before the first occurrence of the id, the index then holds exactly those of the thread, and the answer is the number of the others |
| StoreReplies.ListedExact | src/memory/conversations/store_index.rs:193-243 | a listing shows every live thread with known numbers, equal to the transcript's own for threads nobody was changing |
| StoreReplies.PurgedExact | src/memory/conversations/store_index.rs:432-440 | a purge reports every live thread and every message of each |
| StoreReplies.SummaryExact | src/memory/conversations/store_index.rs:293-327 | the summary an upsert returns is the transcript's own; a new thread starts with zero messages and its creation time |
| StoreReplies.TitleUpdated | src/memory/conversations/store_ops.rs:192-222 | after the step of an `update_thread_title` that answered a summary, the thread was live and has the new title and its other fields as before |
| StoreReplies.LabelsUpdated | src/memory/conversations/store_ops.rs:224-255 | after the step of an `update_thread_labels` that answered a summary, the thread was live and has the normal form of the new labels and its other fields as before |
| StoreReplies.ThreadEnsured | src/memory/conversations/store_ops.rs:18-53 | after the step of an `ensure_thread` that answered a summary, the thread is live with the given title and with each of parent, personality and labels that was given |
| StoreReplies.MessageUpdated | src/memory/conversations/store_ops.rs:257-297 | an `update_message` that answered a row has replaced the metadata of the first row with the id, answers that row as stored, and changed no other row |
| StoreReplies.TranscriptExact | src/memory/conversations/store_ops.rs:55-85 | `get_messages` returns the whole settled transcript of a live thread and nothing for another |
| StoreReplies.FailedStatisticsLine | src/memory/conversations/store_ops.rs:177-185 | after a failed statistics line the next listing measures again if and only if the count was unknown; otherwise the count stays one short |
| StoreLostCount.ListingStaysWrong | src/memory/conversations/store_ops.rs:120-123 | for every thread and message, a run at whose end no call is in progress and a listing has answered zero messages for a transcript that holds the message |
| StoreReplies.RepairLeavesKnown | src/memory/conversations/store_index.rs:200-204 | the repair loop never changes a thread whose count is known |
| Tokenize.Normalize | src/memory/conversations/tokenize.rs:57-81 | the loop computes the normal form of the text |
| Tokenize.NormalizedContains | src/memory/conversations/tokenize.rs:57-81 | a piece found verbatim in a text is found in normal form in the normal form |
| Tokenize.NormalizedClean | src/memory/conversations/tokenize.rs:26-53 | normal forms are in lower case and contain no combining mark, precomposed letter, full-width form or half-width katakana |
| Tokenize.CaseDoesNotMatter | src/memory/conversations/tokenize.rs:33-35 | texts with the same lower case have the same normal form |
| Tokenize.MarksDoNotMatter | src/memory/conversations/tokenize.rs:36-38 | a text with a combining mark has the normal form of the text without it |
| Tokenize.DiacriticsDoNotMatter | src/memory/conversations/tokenize.rs:39-41 | a text with a letter with a diacritic has the normal form of the text with its base letter |
| Tokenize.NormalizedIdempotent | src/memory/conversations/tokenize.rs:57-81 | normalising twice is normalising once, for every lower-case mapping that is itself idempotent and lowers as Unicode does on the tables' characters |
| Tokenize.Ngrams | src/memory/conversations/tokenize.rs:245-283 | the walk over maximal runs yields the windows of one script class in order |
| Tokenize.GramsMembers | src/memory/conversations/tokenize.rs:245-283 | exactly the windows of two CJK or three other characters of one class are n-grams |
| Tokenize.ContainsGrams | src/memory/conversations/tokenize.rs:245-283 | every n-gram of a substring is an n-gram of the whole text |
| Postings.IntersectSorted | src/memory/conversations/inverted_index.rs:423-445 | the in-place merge leaves exactly the common elements, ascending, in the front of the array |
| Ranking.SortedByRankCorrect | src/memory/conversations/inverted_index.rs:301-311 | sorting keeps exactly the elements and orders them by rank |
| Ranking.PrefixIsTop | src/memory/conversations/inverted_index.rs:310-311 | truncating a complete ranking leaves min(limit, all) members that no omitted one outranks |
| InvertedIndex.MatchedTermsBounds | src/memory/conversations/inverted_index.rs:275-290 | the match count is all terms exactly when each occurs and zero exactly when none does |
| InvertedIndex.MatchedTermsCount | src/memory/conversations/inverted_index.rs:275-290 | the match count is the number of places in the list of terms whose term occurs in the text |
| Unicode.SplitsIntoWords | src/memory/conversations/inverted_index.rs:235-245 | a query is split into exactly its words, the stretches without white space between white space or an end, in order and each as often as it stands there |
| TextScan.WordsInOrder | src/memory/conversations/inverted_index.rs:235-245 | the words one after the other are the query without its white space |
| InvertedIndex.QueryTermsMeaning | src/memory/conversations/inverted_index.rs:235-245 | the terms are, in order, the normal forms of exactly the words that have three bytes at least, before or after normalising |
| InvertedIndex.WordGivesTerm | src/memory/conversations/inverted_index.rs:235-245 | every word that stands in the query and is long enough gives its normal form as a term |
| InvertedIndex.VerbatimWordMatches | src/memory/conversations/inverted_index.rs:235-290 | a message that contains verbatim what stands between white space or ends at two positions of the query, when long enough, is among the matches |
| InvertedIndex.InvertedIndex.Insert | src/memory/conversations/inverted_index.rs:129-171 | adds the message's document under its key, or nothing when the key is present, and keeps postings and reverse map exact |
| InvertedIndex.InvertedIndex.RemoveDoc | src/memory/conversations/inverted_index.rs:198-217 | tombstones one live document and removes it from every posting list, dropping lists that become empty |
| InvertedIndex.InvertedIndex.RemoveThread | src/memory/conversations/inverted_index.rs:173-188 | erases exactly the documents of one thread |
| InvertedIndex.InvertedIndex.CandidatesForTerm | src/memory/conversations/inverted_index.rs:346-367 | yields exactly the live documents that have every n-gram of the term, or nothing for a term without n-grams |
| InvertedIndex.CandidatesCover | src/memory/conversations/inverted_index.rs:346-367 | the candidates of a term include every live document that contains it |
| InvertedIndex.CandidateCount | src/memory/conversations/inverted_index.rs:253-260 | there are as many candidate documents as candidate messages, so the limit compares what it means |
| InvertedIndex.InvertedIndex.RecencyFallback | src/memory/conversations/inverted_index.rs:388-421 | returns the most recent searched messages with score zero |
| InvertedIndex.InvertedIndex.Search | src/memory/conversations/inverted_index.rs:222-329 | unless a term is too broad the hits are a best selection, by match count then recency, of the messages a linear scan finds, each scored matched over total terms; otherwise the most recent messages |
| TokenBudget.AtomicTiles | src/memory/chunks/produce_split.rs:76-199 | the mutually recursive splitting ends, its segments tile the text exactly, and each fits the budget or is one character |
| TokenBudget.PushAtomicSegments | src/memory/chunks/produce_split.rs:76-94 | the loops over separators, sentences, words and characters append exactly those segments |
| TokenBudget.TailOverlap | src/memory/chunks/produce_split.rs:211-233 | the backward loop takes exactly the specified trailing segments |
| TokenBudget.OverlapWeight | src/memory/chunks/produce_split.rs:211-233 | the carried overlap weighs at most the cap and is never the whole piece |
| TokenBudget.OverlapReaches | src/memory/chunks/produce_split.rs:211-233 | the overlap reaches the wanted weight with no segment to spare, unless one more would exceed the cap or repeat the whole piece |
| TokenBudget.PackSegments | src/memory/chunks/produce_split.rs:43-72 | the greedy loop emits exactly the specified windows |
| TokenBudget.PiecesFit | src/memory/chunks/produce_split.rs:29-72 | when every character is light enough, every piece with its overlap is within the budget, for every budget down to one |
| TokenBudget.PiecesAreWindows | src/memory/chunks/produce_split.rs:43-72 | pieces are windows over a tiling of the text: first starts at 0, last ends at the end, starts and ends increase strictly, neighbours overlap within the cap and by the wanted weight, no more and no less, as far as the cap and repetition allow, and a piece ends only where the next segment would not fit |
| TokenBudget.PiecesRebuild | src/memory/chunks/produce_split.rs:43-72 | dropping what each piece repeats of its predecessor gives the text back |
| TokenBudget.HeavyCharacterStays | src/memory/chunks/produce_split.rs:183-199 | a one-character text over the budget is returned unchanged |
| TokenBudget.SplitByTokenBudget | src/memory/chunks/produce_split.rs:29-72 | the whole method, with saturating 32-bit arithmetic, computes the pieces that TokenBoundaries.PiecesAreStretches and PiecesAreWindows describe |
| TokenBoundaries.CutsAreJustified | src/memory/chunks/produce_split.rs:76-199 | a segment ends at a paragraph break or inside a paragraph over the budget, at a sentence end or inside a sentence over it, and at a space or inside a word over it |
| TokenBoundaries.FittingUnitsStayWhole | src/memory/chunks/produce_split.rs:76-199 | no paragraph, sentence or word of the text that fits the segment budget is cut |
| TokenBoundaries.CutsAtBreaks | src/memory/chunks/produce_split.rs:76-181 | at the end of a word segments meet if and only if the text is over the budget, a paragraph ends there or the one around is over it, and a sentence ends there or the one around is over it |
| TokenBoundaries.WordsAreFilled | src/memory/chunks/produce_split.rs:183-199 | a word over the budget becomes the longest prefixes that truncation yields, or single characters where it yields none |
| TokenBoundaries.PiecesAreStretches | src/memory/chunks/produce_split.rs:29-72 | the pieces of every text are stretches of it, from its start to its end, each beginning inside its predecessor or right after it, and each begins and ends at a justified place |
| TokenBoundaries.RebuildsText | src/memory/chunks/produce_split.rs:29-72 | dropping what each piece repeats of the end of its predecessor, which is never all of it, gives the text back |
| ChunkTables.ChunksGone | src/memory/chunks/store_delete.rs:131-185 | by source id, prefix of it, owner or chunk id exactly the named chunks go, by all but the last only those of the kind, and every other chunk stays unchanged |
| ChunkTables.DeleteLeavesNoDangling | src/memory/chunks/store_delete.rs:258-282 | after a filtered delete no dependent row names a deleted chunk, a removed tree or a summary of one, and the schema's keys hold |
| ChunkTables.DeleteKeepsSurvivors | src/memory/chunks/store_delete.rs:187-378 | every row of a surviving chunk stays as it was, except exactly the entity rows filed under a removed tree |
| ChunkTables.DeleteTwice | src/memory/chunks/store_delete.rs:187-378 | repeating a delete changes no table and hands out no file |
| ChunkTables.SurvivorLosesEntities | src/memory/chunks/store_delete.rs:351-369 | a surviving chunk loses an entity row if and only if one of its rows is filed under the source tree of a scope that a deleted chunk had and no surviving chunk of the kind has |
| ChunkTables.SurvivorsKeepEntities | src/memory/chunks/store_delete.rs:351-369 | when rows are filed at home, all survivors keep all entity rows if and only if no survivor of another kind with a filed row has such a scope; survivors of the kind never lose any |
| ChunkTables.EmailLosesEntity | src/memory/chunks/store_delete.rs:351-369 | a chat delete that takes an entity row of a surviving email chunk with the same scope |
| ChunkTables.RawFilesAreUnreachable | src/memory/chunks/store_delete.rs:284-311 | a raw-file gate is removed, and a raw file that is nobody's content file handed out, if and only if a deleted chunk pointed to it, no chunk that is left does and no pointer that is left is unreadable |
| ChunkTables.FilesMeaning | src/memory/chunks/store_delete.rs:253-257 | the files handed out are exactly the content files of deleted chunks and of deleted summaries and the raw files that became unreachable |
| ChunkTables.RemovedFilesAreUnreferenced | src/memory/chunks/store_delete.rs:253-257 | no file that is still referenced is removed if and only if no row that is left shares a content file with a deleted row, has it as a raw file, or has an unreachable raw file as its content file |
| ChunkTables.OwnFilesAreSafe | src/memory/chunks/store_delete.rs:187-378 | when every content file belongs to one row and is no raw file, a removed file is referenced by nothing that is left |
| ChunkTables.SharedFileIsRemoved | src/memory/chunks/store_delete.rs:253-257 | deleting a chunk by id removes the content file of another chunk whose id has the same file name |
| ChunkTables.RemovedGatesAreOrphans | src/memory/chunks/store_delete.rs:313-349 | a removed source gate has no surviving chunk of that kind and source |
| ChunkTables.OrphanedGatesAreRemoved | src/memory/chunks/store_delete.rs:313-326 | a source that lost its last chunk always loses its gate |
| ChunkTables.SourceGatesGone | src/memory/chunks/store_delete.rs:313-349 | a source gate goes if and only if it is of the kind and the delete names its source, or a deleted chunk had the source and no chunk of the kind is left that has it |
| ChunkTables.RemovedTreesAreOrphans | src/memory/chunks/store_delete.rs:351-369 | a tree is removed only if it is a source tree whose scope a deleted chunk had and no chunk of that kind keeps |
| ChunkTables.TreeGone | src/memory/chunks/store_delete.rs:351-369 | a tree goes if and only if it is a source tree whose scope a deleted chunk had and no chunk of the kind that stays has |
| ChunkDelete.ChunkStore.DeleteChunksBySourceFilter | src/memory/chunks/store_delete.rs:187-378 | the ordered table deletions remove exactly the chunks of the kind that the filter names, by source, owner, prefix or id, keep every other chunk unchanged, return how many went, bring the other tables to the state after the delete and hand out exactly the files to remove |
| ChunkDelete.ChunkStore.DeleteChunkById | src/memory/chunks/store_delete.rs:102-121 | the kind is read from the row; a missing row deletes nothing, an unknown kind is an error that changes nothing, and otherwise tables and files are those of the delete of that one chunk |
| ChunkDelete.ChunkStore.DeleteOrphanedSourceTree | src/memory/chunks/store_delete.rs:381-432 | does nothing while a chunk of the source is left, else removes its gates, those that look like its versions and its tree, and hands out exactly the files of that tree |
| ChunkDelete.OrphanGatesUnused | src/memory/chunks/store_delete.rs:389-415 | the clean-up removes only gates of sources without chunks if and only if no gated source with chunks of the kind has an id that goes on with @ after the source's own |
| ChunkDelete.AliceTakesGate | src/memory/chunks/store_delete.rs:397-415 | cleaning up after "alice" takes the gate of "alice@example.com", which has a chunk |
| ChunkDelete.ChunkStore.PurgeAll | src/memory/chunks/store_delete.rs:500-556 | empties every table but the audit log, returns the number of rows of all of them and hands out exactly the files the rows pointed to |
| ChunkDelete.ChunkStore.DeleteTreeCascade | src/memory/tree/store/trees.rs:49-82 | removes one tree with its summaries, their rows, buffers and entity rows, and returns its summaries' files |
| Decimal.ParsePadded | src/memory/archivist/store.rs:51-67 | zero padding does not change the number a file name is read as |
| JsonString.DecodeEncoded | src/memory/archivist/store.rs:94-96 | decoding a JSON string literal, as section 7 of RFC 8259 defines it, gives back every encoded string |
| JsonString.EncodedIsPrintable | src/memory/archivist/store.rs:94-96 | a literal contains no line break and no other control character, so it stays on one line |
| Archive.ComposeTurn | src/memory/archivist/store.rs:70-92 | the printer yields the header lines, the delimiters and the body |
| Archive.ParseTurn | src/memory/archivist/store.rs:156-189 | the line loop computes the specified reading of a file |
| Archive.DelimiterFound | src/memory/archivist/store.rs:157-160 | the first closing delimiter of a printed file is the header's own, whatever the fields and the content contain |
| Archive.ParseComposed | src/memory/archivist/store.rs:70-96 | reading a printed turn gives it back with white space trimmed from the end of its content, for every turn |
| ArchiveSession.NextSeq | src/memory/archivist/store.rs:51-67 | the scan returns the number after the largest listed one in 32 bits, zero for an empty listing |
| ArchiveSession.SessionEntries | src/memory/archivist/store.rs:126-153 | the reader returns the parsed numbered files in ascending order |
| ArchiveSession.SessionReadBack | src/memory/archivist/store.rs:126-153 | a directory holding turns 0 to n-1 among other files is read back as exactly those turns in that order |
| ArchiveWriters.StepKeeps | src/memory/archivist/store.rs:102-122 | a step of any writer, on a stale or partial listing, keeps the files dense and each owned by one writer |
| ArchiveWriters.NeverOverwritten | src/memory/archivist/store.rs:102-122 | over every run a published turn never changes or disappears |
| ArchiveWriters.SessionIsDense | src/memory/archivist/store.rs:102-122 | in every reachable state the files are exactly 0 to n-1, each the turn of exactly one successful writer, each successful writer's turn under its own number |
| ArchiveWriters.FailuresArePaid | src/memory/archivist/store.rs:102-122 | with complete listings a writer loses at most as many attempts as others have recorded turns since it started |
| ArchiveWriters.FullSession | src/memory/archivist/store.rs:51-67 | once all 32-bit numbers are used, a complete listing yields number 0, which is taken, so nothing is recorded |
| ArchiveWriters.RecordedIsRead | src/memory/archivist/store.rs:102-153 | reading the directory after any run gives each successful writer's turn at the number it won |
| LikePattern.LikeContainsPattern | src/memory/chunks/store_list.rs:467-478 | the loop builds the escaped pattern between two wildcards |
| LikePattern.ContainsPatternMeaning | src/memory/chunks/store_list.rs:355-358 | a text matches the pattern, under LIKE with backslash as escape (section 8.5 of ISO/IEC 9075:1992), if and only if the value occurs in it literally up to ASCII case |
| ConnectionBreaker.TripsAtThreshold | src/memory/chunks/connection_breaker.rs:48-57 | after any run of failures the breaker is tripped exactly from the third on, since the latest, with a saturating count |
| ConnectionBreaker.OpenWithinCooldown | src/memory/chunks/connection_breaker.rs:64-70 | it rejects if and only if at least three failures came and the latest is within the cooldown |
| ConnectionBreaker.CircuitBreaker.RecordFailure | src/memory/chunks/connection_breaker.rs:48-57 | counts the failure and reports true only when it trips a closed breaker |
| ConnectionBreaker.CircuitBreaker.RecordSuccess | src/memory/chunks/connection_breaker.rs:35-42 | closes the breaker and reports whether it was tripped |
| Connection.StepKeeps | src/memory/chunks/connection.rs:241-354 | every step of get-or-init, recovery and invalidation keeps cache, breaker and init lock consistent |
| Connection.OneSection | src/memory/chunks/connection.rs:264-273 | over every run at most one get-or-init or recovery section runs per path |
| Connection.CachedIsHealthy | src/memory/chunks/connection.rs:317-353 | whenever the init lock is free, a cached connection means the breaker in the map is not tripped |
| Connection.OpenWhileCooling | src/memory/chunks/connection.rs:275-287 | callers are turned away if and only if three or more initialisations failed in a row and the latest is within the cooldown |
| Connection.CooldownHolds | src/memory/chunks/connection.rs:275-316 | over every run, after three failures without invalidation, recovery or success, no initialisation starts within the cooldown of the latest failure |
| Connection.ReturnedWasCached | src/memory/chunks/connection.rs:241-354 | over every run, a connection that get-or-init or recovery returns was the cached one at some moment of the call |
| Connection.FailureHasCause | src/memory/chunks/connection.rs:241-354 | over every run, such a call returns none only after it met the open breaker, or moving the files or opening the database failed |
| SemanticLines.CutsAtSpaces | src/memory/chunks/semantic.rs:260-286 | a cut piece fits or is one character, ends at the last space that fits, and takes all that fits when there is none |
| SemanticLines.WordPiecesKeep | src/memory/chunks/semantic.rs:248-296 | the pieces of a line say all its visible characters in order, each within the limit once trimmed or a single character |
| SemanticLines.SplitWithinLine | src/memory/chunks/semantic.rs:248-296 | the nested loops end and compute those pieces |
| SemanticLines.LinePiecesKeep | src/memory/chunks/semantic.rs:213-249 | line-level pieces lose no visible character, and each is at most max(1, limit) bytes once trimmed or one character |
| SemanticLines.SplitOnLines | src/memory/chunks/semantic.rs:213-249 | the loop over lines computes those pieces |
| SemanticChunks.BlankLinePartsKeep | src/memory/chunks/semantic.rs:189-209 | paragraphs lose nothing visible and none is blank |
| SemanticChunks.SectionsTell | src/memory/chunks/semantic.rs:164-186 | the sections, headings and bodies in order, say the whole document |
| SemanticChunks.SectionSays | src/memory/chunks/semantic.rs:84-131 | the pieces of a section say its whole body in order and once |
| SemanticChunks.SectionBounded | src/memory/chunks/semantic.rs:70-131 | a chunk with heading exceeds the limit by the heading line at most, a line-level one is small |
| SemanticChunks.HeadingCarried | src/memory/chunks/semantic.rs:84-131 | the first chunk of a section with a heading carries it |
| SemanticChunks.NothingLost | src/memory/chunks/semantic.rs:46-140 | the chunks show every visible character of the document in order, and nothing besides but headings repeated whole |
| SemanticChunks.ResultsBounded | src/memory/chunks/semantic.rs:46-140 | no chunk is empty, and each is at most the limit plus its heading line, or one character |
| SemanticChunks.ChunkMarkdown | src/memory/chunks/semantic.rs:46-140 | the method returns those chunks, numbered from zero |
| SemanticLayout.AtxMeaning | src/memory/chunks/semantic.rs:154-159 | a heading line is one to six number signs and a space |
| SemanticLayout.SectionsMeaning | src/memory/chunks/semantic.rs:161-186 | every heading line starts a section up to the next one; what precedes the first is a section of its own, or goes to the first section when blank |
| SemanticLayout.ParagraphsMeaning | src/memory/chunks/semantic.rs:189-209 | the paragraphs are exactly the maximal runs of lines that are not blank, in order |
| SemanticLayout.LinesMeaning | src/memory/chunks/semantic.rs:213-246 | a piece of lines ends only because the next line does not fit, is too large by itself, or there is none; a line that is too large is cut on its own |
| SemanticLayout.SectionMeaning | src/memory/chunks/semantic.rs:60-131 | a section that fits is one piece behind its heading; otherwise paragraphs share pieces as far as they fit, each behind the heading, and one that is too large is cut by lines, with the heading before it as a piece of its own |
| ChatUnits.MessagesTile | src/memory/chunks/produce.rs:176-208 | what precedes the first header and the messages, end to end, are the blob, and each message has exactly one header line, its first |
| ChatUnits.UnitsAreMessages | src/memory/chunks/produce.rs:176-208 | each message is one unit, up to the white space at its end and never empty; a blob without a message is one unit in the same way, none when blank |
| ChatUnits.SplitsAtBoundary | src/memory/chunks/produce.rs:176-208 | cutting a blob before a header cuts its units there if and only if the left part is blank or has a header |
| ChatUnits.PreambleIsDropped | src/memory/chunks/produce.rs:176-208 | visible text without a header is one unit by itself and none when a message follows |
| ChatUnits.IntroIsDropped | src/memory/chunks/produce.rs:176-208 | a heading line before a message, for which the units are not those of both parts |
| ChatUnits.BlankLinesAfter | src/memory/chunks/produce.rs:176-208 | blank lines after the messages do not change the units |
| ChatUnits.SplitChatMessages | src/memory/chunks/produce.rs:176-208 | the loop computes the units; no trimmed message is ever empty |
| Produce.BatchesJoin | src/memory/chunks/produce.rs:113-152 | the chunks of a batch cut at a message boundary are those of both halves |
| Produce.OverlapKeepsChunks | src/memory/chunks/produce.rs:113-152 | messages delivered at the end of one batch and at the start of another make the same chunk ids, contents, counts and flags both times |
| Produce.ChatBodiesFit | src/memory/chunks/produce.rs:115-145 | a whole message is at most four times the tokens in characters; the pieces of a longer one are within the budget when no character is too heavy |
| Produce.ChunkMarkdown | src/memory/chunks/produce.rs:76-166 | the contents of a document's chunks rebuild it; a chat's chunks come message by message, a short one whole and a long one in contents that rebuild it; every id is made from the chunk's own kind, place and content and every count from its content; chunks are never none and are numbered 0 to n-1; an empty chat is one empty chunk |

## Left out

Conversation store:

- A failing removal of the transcript in `delete_thread` or of the directory in `purge_threads`, a failing directory creation, process crashes, partial writes and unreadable transcripts; every other append or rewrite may fail in the model.
- StoreRuns.StatisticsAgree: excludes threads whose statistics line failed, because the code does not repair them; `StoreReplies.FailedStatisticsLine` says what happens to those.
- Fairness and termination under contention: deadlock freedom says some operation can step, not that each one eventually does.
- One workspace only: the registry of stores by normalised path, the hexadecimal file names and the migration of old roots.
- The order of listed threads, and the error texts.

Inverted index:

- InvertedIndex.InvertedIndex.Insert: requires fewer than 2^32 documents, where the code's document counter would wrap.
- The interning pools for thread ids and roles, which only share memory.
- Scores are exact rationals instead of floating point; the order among equal ranks is left open, as the code's hash map leaves it.

Chunks:

- The token estimate and truncation are parameters with the stated properties; `chunk_id` and the rough token count are arbitrary functions.
- TokenBudget.SplitByTokenBudget: requires forty times the budget to fit in 32 bits, where the code's percentage multiplication would overflow.
- TokenBudget.PackSegments: requires the same of its budget.
- Produce.ChunkMarkdown: requires the same of its token limit.
- The email splitter and email chunks, which would add a second splitter of the same kind; metadata and creation times, which are copied.
- In the semantic splitter four times the token limit is assumed to fit the machine word; byte offsets are character positions with their UTF-8 lengths.
- `remove_chunk_content_files`, SQL error paths and transactions that fail half way: the tables are maps and a delete is all or nothing.
- The other filters and pages of `store_list.rs`, which are conjunctions of simple conditions.

Archive and connection:

- Temporary files, fsync and directory names in the archive; the link that publishes a file is one atomic step.
- Archive.ParseComposed: speaks of turns whose numbers fit their machine types, which the program's types ensure.
- The open retries, stale-file clean-up, write-ahead log and quarantine of `recovery.rs` are one step that works or fails; waiting for other users of an old connection during recovery is not modelled.
- One database path: the maps of connections, breakers and init locks are independent per path.
