# NanoClaw: a verified model

NanoClaw is a host process that routes chat messages into one queue per session, wakes one agent
process per session and delivers its replies. A memory store and a setup driver belong to it. This
project models its protocols and algorithms in Dafny and proves what they keep, over all inputs, runs and
interleavings.

| file | what it models |
|---|---|
| Sessions.dfy, Router.dfy, RoutedRows.dfy, FanOutOutcome.dfy, StickyThreads.dfy | finding or creating a session; fan-out and engagement; which rows are written and when a fan-out fails, subscribes or records a drop; the sticky rule with messages in flight |
| InboundLifecycle.dfy, RetrySchedule.dfy | the inbound queue: numbering, retries with backoff, completion, stuck containers; the exact life of a row |
| ContainerWake.dfy | deduplicated wakes and the map of running processes |
| Delivery.dfy, DeliveryRetries.dfy | two interleaved delivery polls, the delivered table, and the attempt counter that sessions share |
| MemoryStore.dfy, UnionFind.dfy, Clusters.dfy, MemoryClusters.dfy, Consolidation.dfy, ConsolidationRun.dfy, ConsolidationOutcome.dfy | the reinforcement ledger, clustering, consolidation and what it leaves behind |
| MemoryMarkdown.dfy, MemoryExport.dfy, ExportedLines.dfy, MemoryRoundTrip.dfy, MemoryImport.dfy | the Markdown export and its lines, its parser, their round trip, and the import |
| StateStore.dfy | locks that expire, and bounded queues kept as numbered rows |
| StatusStream.dfy, Utf8.dfy, TextPieces.dfy, StatusPipe.dfy | the chunk-fed status parser with its printer, and the bytes of its pipe |
| SplitForLimit.dfy | the message splitter |
| Crc32.dfy, Png.dfy | table-driven CRC-32 and the PNG encoder |
| PairingCode.dfy, Pairing.dfy, PairingLookup.dfy | one-time pairing codes: drawing and reading them, the pairing file, what its sweep and lookup lose |
| Numbers.dfy, Selections.dfy, Strings.dfy, Wrappers.dfy | shared helpers |

Code that changes state is a class or a method with loops; each method is proved against a
specification function, and the lemmas are about those functions. A protocol is a world and named
steps: a step is what runs between two suspensions, and containers, processes and callers are steps of the
world that may happen in any order. A method that suspends takes what runs meanwhile as a parameter.
Every lemma switches Dafny's automatic induction off and does its own.

Some promises do not hold as stated; the exact conditions are proved:

- Resolving the same session twice gives two sessions for an empty thread id or no messaging group (`Sessions.ResolveTwiceIff`).
- The sticky rule forgets a thread when the session was not filed under it, for instance without a registered adapter in shared mode (`StickyThreads.FollowUpIff`).
- In the order of arrival the sticky rule fails when a follow-up overtakes its mention (`StickyThreads.ArrivalOrderIff`, `StickyThreads.OvertakenMention`).
- A failed inbound message is not final: a late acknowledgement completes it (`InboundLifecycle.FailedUntilAcknowledged`).
- A terminal event names a session, not a process, so an event of a live process or a second event hides another one (`ContainerWake.TerminalEventIsSafeIff`).
- Export and parse lose contents and contexts of several lines, empty contexts, and tags with commas or outer white space (`MemoryRoundTrip.RoundTripIff`).
- A consolidated cluster can lose its merged entry when the merged text duplicates a member of a merged cluster (`ConsolidationOutcome.ClusterOutcome`, `Consolidation.SelfMergeLosesCluster`).
- The sweep of pairings also drops pending ones, and a reused code reads as its old record (`PairingLookup.SweepKeepsPendingIff`, `PairingLookup.AlwaysReadsPendingIff`).
- Special characters of a bot name are meant to be escaped in the pattern and are not (`PairingCode.EscapesIff`, `PairingCode.PlusNameNeverRead`). Telegram's own names have none, so only other callers can meet this.
- Output cut inside a character is garbled (`Utf8.DecodedPiecesIff`); a status is then not read as it was printed (`StatusPipe.CutStatusIsGarbled`).
- Messages of two sessions with one id share their retries (`DeliveryRetries.OwnRetriesIff`).
- The depth an enqueue answers need not count its own entry: it is sure to exactly if no other call on its queue can run before the count (`StateStore.EnqueueCountsOwnIff`), and without bounds it does exactly if no more dequeues ran than entries were there (`StateStore.OwnEntryCountedIff`).
- A status field named `__proto__` is not read back (`StatusStreams.FieldRoundTripExact`).
- A forced release of a held lock breaks mutual exclusion (`StateStore.ForceIsSafeIffFree`, `StateStore.ForcedLockHasTwoHolders`).

## Model

| member | source | states |
|---|---|---|
| `Crc32.TableEntry` | setup/lib/teams-manifest.ts:119-124 | Eight one-bit shifts of the reflected generator give the table entry of a byte. |
| `Crc32.BuildTable` | setup/lib/teams-manifest.ts:117-127 | The table loop fills all 256 entries with that value. |
| `Crc32.ComputeCrc` | setup/lib/teams-manifest.ts:129-135 | The table-driven loop returns the complement of the bit-by-bit register over the whole buffer. |
| `Crc32.TableStep` | setup/lib/teams-manifest.ts:119-132 | One table lookup and a shift equal eight one-bit steps, for every register: the one-bit step is linear over xor. |
| `Crc32.RegisterIsRemainder` | setup/lib/teams-manifest.ts:121-133 | The shift register holds the remainder of schoolbook long division of the message by the generator. |
| `Crc32.GeneratorMatches` | setup/lib/teams-manifest.ts:122 | The constant is the generator of section 15 of RFC 2083, bit-reversed. |
| `Crc32.CrcIsStandard` | setup/lib/teams-manifest.ts:129-135 | For every byte string the fast form is the CRC of sections 3.4 and 15 of RFC 2083: preset, division, complement. |
| `Crc32.BurstDetected` | setup/lib/teams-manifest.ts:129-135 | Two messages that differ only within a window of at most 32 bits have different CRCs. |
| `Png.EncodeChunk` | setup/lib/teams-manifest.ts:137-144 | The method builds length, type, data and CRC, or fails where the length does not fit 32 bits. |
| `Png.ChunkParses` | setup/lib/teams-manifest.ts:137-144 | A chunk at the front of any stream is read back as its type and data (section 3.2 of RFC 2083). |
| `Png.ParsedIsChunk` | setup/lib/teams-manifest.ts:137-144 | Whatever parses as a chunk is the chunk of that type and data, so the layout is unambiguous. |
| `Png.CorruptChunkRejected` | setup/lib/teams-manifest.ts:137-144 | A chunk whose type or data is hit by a burst of at most 32 bits no longer parses. |
| `Png.BigEndianRoundTrip` | setup/lib/teams-manifest.ts:139-142 | Four bytes, high byte first, read back as the number. |
| `Png.FillRow` | setup/lib/teams-manifest.ts:164-169 | One pass of the row loop writes the filter byte and the row behind what is already written, and no other byte before it. |
| `Png.FilterRows` | setup/lib/teams-manifest.ts:162-169 | The two loops put filter byte 0 before each row of pixels. |
| `Png.UnfilterScanlines` | setup/lib/teams-manifest.ts:161-169 | Removing the filter bytes gives the pixels back. |
| `Png.EncodePng` | setup/lib/teams-manifest.ts:150-178 | The file is the signature and the IHDR, IDAT and IEND chunks of the filtered rows. |
| `Png.StreamParses` | setup/lib/teams-manifest.ts:172-177 | A stream of any number of chunks is read back chunk by chunk. |
| `Png.DecodeEncoded` | setup/lib/teams-manifest.ts:150-178 | A decoder of this shape recovers the size and every pixel of every encoded image, for any deflate with an inverse. |
| `MessageSplitter.FindCut` | src/channels/chat-sdk-bridge.ts:109-112 | The searches for a blank line, a newline and a space choose the cut. |
| `MessageSplitter.CutIsBest` | src/channels/chat-sdk-bridge.ts:109-112 | The cut lies from 1 to the limit: at the last blank line there, else the last newline, else the last space, else at the limit. |
| `MessageSplitter.SplitForLimit` | src/channels/chat-sdk-bridge.ts:104-118 | For a limit of at least 1 the loop ends with the specified chunks. |
| `MessageSplitter.SplitLosesOnlySpace` | src/channels/chat-sdk-bridge.ts:104-118 | The chunks, woven with gaps of white space, are the text again, so no other character is lost or moved. |
| `MessageSplitter.SplitFits` | src/channels/chat-sdk-bridge.ts:104-118 | Every chunk fits the limit; after a split every chunk but possibly the first is non-empty, and the first is empty exactly if only white space comes before its cut. |
| `MessageSplitter.ZeroLimitStalls` | src/channels/chat-sdk-bridge.ts:108-115 | With limit 0 the loop makes no progress on a text that does not start with white space: the limit must be at least 1. |
| `StatusStreams.StatusStream.Write` | setup/lib/runner.ts:66-75 | The line loop leaves the state that feeding the chunk character by character gives. |
| `StatusStreams.StatusStream.ConsumeLine` | setup/lib/runner.ts:77-97 | One line changes the open block, the blocks and the callback calls as specified. |
| `StatusStreams.StatusStream.ConsumeField` | setup/lib/runner.ts:91-97 | A field line sets its trimmed key, if that is not empty. |
| `StatusStreams.MatchBetweenExact` | setup/lib/runner.ts:78 | The start pattern has one reading, and is matched exactly if there is one. |
| `StatusStreams.ChunkInvariant` | setup/lib/runner.ts:66-97 | However a text is cut into chunks, buffer, open block, blocks and callback order are those of one write. |
| `StatusStreams.EmitStatus` | setup/status.ts:6-16 | The printing loop writes the start line, one line per field and the end line. |
| `StatusStreams.FieldRoundTripExact` | setup/lib/runner.ts:91-97 | A printed field is read back exactly if its key is non-empty, trimmed, free of colons, no control line and not `__proto__`, and its value is trimmed. |
| `StatusStreams.AddFieldsExact` | setup/lib/runner.ts:88-96 | With distinct keys the parsed object holds the printed fields and no others. |
| `StatusStreams.PrintedBlockParses` | setup/status.ts:6-16 | At any line boundary, in any parser state, a printed block adds exactly that block and calls the callback once. |
| `StatusStreams.StepJudgedByLastBlock` | setup/lib/runner.ts:158-163 | A step is judged by the status block it prints last, whatever came before and however its decoded output is cut into chunks. |
| `StatusStreams.TerminalIsLast` | setup/lib/runner.ts:158-161 | The last block with a status: none behind it has one, and there is none exactly if no block has one. |
| `Utf8.DecodedPiecesIff` | setup/lib/runner.ts:145-149 | Text in UTF-8 whose buffers are decoded one by one comes back exactly if no buffer begins inside a character. |
| `Utf8.CutCharacterIsLost` | setup/lib/runner.ts:145-149 | Any character of more than one byte is lost at any cut inside it. |
| `TextPieces.TextBehind` | setup/lib/runner.ts:145-149 | Behind any bytes and a newline a text is read whole, if no buffer begins inside one of its own characters. |
| `StatusPipe.StepJudgedFromBytes` | setup/lib/runner.ts:145-163 | From bytes: behind any bytes and a newline, a status block that is printed last decides the step, unless a buffer begins inside a character of the block itself. |
| `StatusPipe.CutStatusIsGarbled` | setup/lib/runner.ts:145-163 | At a cut inside a character of the status the block is read with replacement characters in its place. |
| `StatusPipe.EveryCutHappens` | setup/lib/runner.ts:145-149 | For every such cut there are buffers that make it. |
| `UnionFinds.UnionFind.constructor` | memory_server/consolidator.py:74 | Every element starts as its own root. |
| `UnionFinds.UnionFind.Find` | memory_server/consolidator.py:76-80 | Path halving ends at the root of the element and moves no element to another root. |
| `UnionFinds.UnionFind.Union` | memory_server/consolidator.py:82-85 | Exactly the two trees are merged. |
| `UnionFinds.Halve` | memory_server/consolidator.py:78 | One halving step keeps every root and the ghost rank that grows along the pointers, and climbs. |
| `UnionFinds.Link` | memory_server/consolidator.py:84-85 | Pointing one root at another merges the two trees and keeps the rank. |
| `UnionFinds.RepIsRoot` | memory_server/consolidator.py:76-80 | The representative is what following the parent pointers finds, from every element. |
| `UnionFinds.AddEdge` | memory_server/consolidator.py:87-91 | Merging two classes is what one more edge does to connectivity, in both directions. |
| `Clusters.LinkSimilar` | memory_server/consolidator.py:87-91 | After the two loops two entries share a root exactly if a path of similar pairs joins them. |
| `Clusters.GroupByRoot` | memory_server/consolidator.py:93-96 | The grouping loop collects the members of each root, roots in order of first occurrence. |
| `Clusters.KeepLarge` | memory_server/consolidator.py:98 | The groups of at least the minimum size, in that order. |
| `Clusters.GroupsAreComponents` | memory_server/consolidator.py:93-98 | The groups by root are the connected components, in the order of their first members. |
| `Clusters.FindClusters` | memory_server/consolidator.py:44-98 | The result is the list of connected components of the similarity graph with at least the minimum size. |
| `Clusters.ClustersAreLargeComponents` | memory_server/consolidator.py:44-98 | Every cluster is a whole component of enough members, no entry is in two, none occurs twice, and every large component is there. |
| `ConsolidationRun.ForgetCluster` | memory_server/consolidator.py:159-161 | Every member of the cluster is superseded by the target and counted. |
| `ConsolidationRun.MergeCluster` | memory_server/consolidator.py:139-163 | The loop body skips a cluster without text, or stores the text and supersedes the members. |
| `Consolidation.StoreMergedEffect` | memory_server/consolidator.py:148-157 | Storing the merged text gives one active target and changes no other memory's standing. |
| `Consolidation.MergeOneConserves` | memory_server/consolidator.py:139-163 | One cluster more keeps the conservation invariant. |
| `Consolidation.FoundClustersDisjoint` | memory_server/consolidator.py:119-123 | The clusters share no memory and all their members are active. |
| `ConsolidationRun.Consolidate` | memory_server/consolidator.py:101-165 | Dry runs change nothing; otherwise the clusters merged are the right ones of the stored memories, the tables are those of the specified run, and the counters are its merged and skipped clusters and the total size of the merged ones. |
| `MemoryClusters.CandidatesInOrder` | memory_server/consolidator.py:56-63 | The candidates are the active memories with an embedding, each once and in row order. |
| `MemoryClusters.FoundAreRight` | memory_server/consolidator.py:44-98 | Over memories: two lie in one found cluster exactly if a chain of similar active embedded memories joins them and enough are joined to them; no cluster repeats a memory, and members stand in row order. |
| `ConsolidationOutcome.ConsolidationConserves` | memory_server/consolidator.py:119-165 | Merged and skipped clusters add up; the memories that lose their standing are exactly the members of merged clusters, as many as counted; and where the merged text duplicates no active memory, its members are superseded by a new entry that is active at the end. |
| `ConsolidationOutcome.ClusterOutcome` | memory_server/consolidator.py:138-161 | For every cluster with a text the target is active at the end exactly if the duplicate search found nothing or found a memory in no cluster with a text. |
| `ConsolidationOutcome.SupersededCount` | memory_server/consolidator.py:159-165 | The memories active before and not after are the members of the merged clusters, and the superseded counter is their number. |
| `ConsolidationOutcome.NewEntryIs` | memory_server/consolidator.py:145-157 | A merged cluster whose text duplicates nothing ends as an active fact of low trust with that text, its context naming the number of members, and its tags. |
| `Consolidation.SelfMergeLosesCluster` | memory_server/consolidator.py:148-161 | If the merged text duplicates a member of its own cluster, the target itself is made inactive: nothing of the cluster stays active. |
| `MemoryStore.MemoryDb.AddReinforcement` | memory_server/storage.py:397-413 | A reinforcement row and one more strength, or nothing for an unknown memory. |
| `MemoryStore.MemoryDb.StoreEntry` | memory_server/storage.py:181-231 | An exact or near duplicate is reinforced, otherwise a new active memory of strength 1 is inserted. |
| `MemoryStore.MemoryDb.ForgetMemory` | memory_server/storage.py:319-333 | A known memory becomes inactive with its successor. |
| `MemoryStore.MemoryDb.Contradict` | memory_server/storage.py:361-394 | Both memories list each other once; unknown or equal ids change nothing. |
| `MemoryStore.StoreRecords` | memory_server/storage.py:181-231 | A store reinforces exactly what the searches find, the exact one first, under the session name or "unknown"; else the whole entry is in a new last row, unless the generated id is taken; no other memory changes. |
| `MemoryStore.MarkKeepsContradictions` | memory_server/storage.py:384-394 | Contradictions stay symmetric, irreflexive and without duplicates. |
| `MemoryStore.RunKeepsLedger` | memory_server/storage.py:181-413 | Over every run strength is 1 plus the reinforcement rows, contradictions match, and no memory is lost, revived or weakened. |
| `MemoryStore.LedgerBalances` | memory_server/storage.py:397-413 | The number of reinforcement rows is the sum of strength - 1 over all memories. |
| `MemoryMarkdown.TagsReadBackIff` | memory_server/storage.py:884 | The tags line reads back exactly if every tag is trimmed, non-empty and free of commas. |
| `MemoryMarkdown.TailExact` | memory_server/storage.py:852 | The end of the heading pattern has one reading, and is matched exactly if there is one. |
| `MemoryMarkdown.HeadingExact` | memory_server/storage.py:852 | So has the whole heading pattern. |
| `MemoryExport.ExportMemories` | memory_server/storage.py:720-779 | The exporter returns the specified document for the rows of its query. |
| `MemoryExport.GroupByCategory` | memory_server/storage.py:742-747 | The grouping loop collects the rows of each category in their order. |
| `MemoryExport.RowLines` | memory_server/storage.py:754-777 | The lines appended for one memory, with tags and context only where present. |
| `MemoryExport.ParseExportMarkdown` | memory_server/storage.py:855-892 | The parser loop returns the entries the marked lines of the document stand for. |
| `MemoryExport.ParseLine` | memory_server/storage.py:863-887 | One line starts an entry, sets a field of the open one or is skipped. |
| `MemoryRoundTrip.JoinedMarks` | memory_server/storage.py:779 | Reading the joined document is reading its pieces one after the other. |
| `MemoryRoundTrip.MarkdownIsReadable` | memory_server/storage.py:749-777 | No fixed text of the format starts another one the parser looks for. |
| `MemoryRoundTrip.RowItemsMarks` | memory_server/storage.py:754-777 | The lines of one row are read as one heading, its content, its tags and its context. |
| `MemoryRoundTrip.ParsedIsClean` | memory_server/storage.py:855-892 | Whatever the document, every entry has one-line content and good tags. |
| `MemoryRoundTrip.MarkdownNamesRead` | memory_server/models.py:10-21 | The names of categories and trusts in the export are read back by the importer, each as its own. |
| `MemoryRoundTrip.NameReadIff` | memory_server/models.py:10-21 | A name is read as a category or trust exactly if it is the name of that one in the export; every other name is refused. |
| `MemoryRoundTrip.OneLineRowsRecovered` | memory_server/storage.py:720-892 | Memories of one line each are read back in order with their own category and trust, with tidied tags and without empty contexts. |
| `MemoryRoundTrip.RoundTripIff` | memory_server/storage.py:720-892 | Reading an export gives back the category, trust, content, tags and context of every memory in order exactly if every content is one non-empty line, every context absent or one non-empty line, and every tag one trimmed non-empty line without a comma. |
| `MemoryRoundTrip.SortedRowsKeepOrder` | memory_server/storage.py:733-749 | Rows sorted by category name, as the query returns them, are exported in that order. |
| `ExportedLines.MemoryIsShown` | memory_server/storage.py:749-777 | Every memory of one line is shown by its lines, written out, in order and next to each other, with the first fifty characters in the heading and the numbers in decimal. |
| `Strings.DigitsExact` | memory_server/storage.py:763-776 | A number is shown by its one numeral: digits without leading zeros that have its value. |
| `ExportedLines.CategoriesCapitalized` | memory_server/storage.py:750 | A title is the name with an upper-case first letter. |
| `ExportedLines.CategoryIsShown` | memory_server/storage.py:749-750 | The category of every memory has its title line. |
| `ExportedLines.TitleIsShown` | memory_server/storage.py:737-747 | An export starts with its title, and says if there is nothing to show. |
| `MemoryImport.ImportMemories` | memory_server/storage.py:782-847 | Blank text changes nothing; otherwise a replacing import deactivates all memories first, and the loop over the parsed entries leaves the specified tables and report. |
| `MemoryImport.ImportEntry` | memory_server/storage.py:811-845 | One entry: an error for an unknown name or a store that fails, else stored and counted as created or reinforced. |
| `MemoryImport.ImportAccounts` | memory_server/storage.py:811-847 | Whatever is imported: every entry with known names becomes a memory of its own or one more reinforcement of an active one, exactly the others are reported, and the counts are those of the new rows. |
| `MemoryImport.ImportCounts` | memory_server/storage.py:811-847 | Whatever the ids: every entry is one new row, one new reinforcement or one error, and every error names what is wrong with an entry. |
| `MemoryImport.ReplacingLeavesOnlyNew` | memory_server/storage.py:802-807 | After a replacing import every active memory is one of the import. |
| `MemoryImport.ImportKeepsLedger` | memory_server/storage.py:782-847 | An import keeps the ledger of reinforcements. |
| `MemoryImport.ExportIsImported` | memory_server/storage.py:720-847 | Importing an export into any store reports no error, and every memory arrives with its own category, trust, content, tags and context, as a memory of its own or as a reinforcement of one the searches found. |
| `StateStore.SqliteState.AcquireLock` | src/state-sqlite.ts:87-97 | An expired row gives way; the lock is given exactly if no unexpired row is left. |
| `StateStore.SqliteState.ReleaseLock` | src/state-sqlite.ts:99-101 | Only the holder's row is deleted. |
| `StateStore.SqliteState.ExtendLock` | src/state-sqlite.ts:103-113 | Row and handle move together, exactly if the token holds the row. |
| `StateStore.SqliteState.ForceReleaseLock` | src/state-sqlite.ts:115-117 | The thread's row is deleted whoever holds it. |
| `StateStore.SqliteState.AppendToList` | src/state-sqlite.ts:121-136 | The next number is one above the last; rows up to the cut-off are deleted. |
| `StateStore.SqliteState.Enqueue` | src/state-sqlite.ts:150-154 | Whatever runs between the append and the count, the tables are those of the calls in that order, and the depth is the length of the ideal queue after them. |
| `StateStore.EnqueueCountsOwnIff` | src/state-sqlite.ts:150-154 | For every queue, entry and bound: whatever calls on the queues of a set of threads run between append and count, the depth is that of the bounded queue with the new entry, exactly if the own thread is not in the set. |
| `StateStore.OwnEntryCountedIff` | src/state-sqlite.ts:150-154 | For any unbounded calls in between, the depth counts the own entry beyond those added after it exactly if the thread was dequeued no more often than entries were there before. |
| `StateStore.EnqueueMayAnswerZero` | src/state-sqlite.ts:150-154 | A dequeue between append and count can make an enqueue answer 0. |
| `StateStore.SqliteState.Dequeue` | src/state-sqlite.ts:156-164 | The first entry of the queue that the rows store is removed and returned, or nothing from an empty one. |
| `StateStore.SqliteState.GetList` | src/state-sqlite.ts:138-148 | The unexpired values in order; a list without expiry times is read back whole. |
| `StateStore.SqliteState.QueueDepth` | src/state-sqlite.ts:166-172 | The depth is the length of the queue that the rows store. |
| `StateStore.SqliteState.Cleanup` | src/state-sqlite.ts:176-181 | Exactly the expired locks and rows go, and the rows that stay keep their order. |
| `StateStore.CleanupUnseen` | src/state-sqlite.ts:103-181 | After a cleanup every list reads as before and every attempt to take a lock ends as before; only a holder whose lock had expired can no longer extend it. |
| `StateStore.StepKeepsInvariant` | src/state-sqlite.ts:87-117 | Every operation, a forced release of a lock nobody holds included, keeps: an unexpired unreleased handle has its row, and every row belongs to an unreleased handle with the same expiry. |
| `StateStore.MutualExclusion` | src/state-sqlite.ts:87-117 | With a clock that does not go back and fresh tokens, at most one handle per thread is live at any time after any run whose forced releases come when nobody holds the lock. |
| `StateStore.AcquiresIffFree` | src/state-sqlite.ts:87-97 | After any such run an attempt succeeds exactly if nobody holds the lock. |
| `StateStore.ForceIsSafeIffFree` | src/state-sqlite.ts:115-117 | After any such run, a forced release followed by an acquisition keeps exclusion exactly if nobody held the lock. |
| `StateStore.ForcedLockHasTwoHolders` | src/state-sqlite.ts:87-117 | Acquire, force and acquire leave two live holders of one lock. |
| `StateStore.AppendRefines` | src/state-sqlite.ts:121-136 | Appending to consecutively numbered rows keeps the newest maxSize entries, numbered without a gap. |
| `StateStore.StepRefines` | src/state-sqlite.ts:121-181 | Enqueue, dequeue, foreign lists and cleanup act on a thread's rows as on a plain sequence. |
| `StateStore.QueueRefinesSequence` | src/state-sqlite.ts:121-181 | After any calls, restarts of the numbering included, every thread's rows are numbered without a gap and hold the ideal bounded queue. |
| `PairingCode.GenerateCode` | src/channels/telegram-pairing.ts:107-116 | The first of fifty draws that is not active, or none. |
| `PairingCode.FirstFree` | src/channels/telegram-pairing.ts:107-116 | A generated code is four digits and not active; none is found exactly if all draws are active. |
| `PairingCode.CodeReadsAsDraw` | src/channels/telegram-pairing.ts:110-112 | The padded code reads as the number drawn. |
| `PairingCode.CodeOfDraw` | src/channels/telegram-pairing.ts:110-112 | Every four-digit code is the code of one draw. |
| `PairingCode.BareCodeRead` | src/channels/telegram-pairing.ts:168-173 | For a bot name without pattern characters a bare code, however padded, is read as itself. |
| `PairingCode.AddressedCodeRead` | src/channels/telegram-pairing.ts:155-173 | In any spelling that folds to a bot name without pattern characters, the code behind it is read exactly if white space separates it from a name that ends in a word character, or nothing from one that does not. |
| `PairingCode.CodeReadIff` | src/channels/telegram-pairing.ts:155-173 | For such a name a message reads as a code exactly if, trimmed, it is that code, bare or addressed to the bot. |
| `PairingCode.EscapesIff` | src/channels/telegram-pairing.ts:157 | A name is escaped exactly if one of its special characters is followed by two backslashes and a closing bracket. |
| `PairingCode.FirstIsEscaped` | src/channels/telegram-pairing.ts:157 | What the escape puts in: one backslash before the special character. |
| `PairingCode.ReadingThrowsIff` | src/channels/telegram-pairing.ts:155-158 | Reading throws exactly if the host takes a name with pattern characters for no pattern. |
| `PairingCode.PlusNameNeverRead` | src/channels/telegram-pairing.ts:155-173 | For every bot name with a plus sign behind a word character the sign is an operator, and no addressed code is ever read. |
| `Pairing.SupersedeAll` | src/channels/telegram-pairing.ts:124-129 | The loop invalidates the pending records of the same intent and no others. |
| `Pairing.InvalidateAll` | src/channels/telegram-pairing.ts:197-206 | The loop invalidates every pending record with one attempt. |
| `Pairing.PairingStore.CreatePairing` | src/channels/telegram-pairing.ts:118-143 | A new pending record behind the swept and superseded ones, or nothing written if no code is free. |
| `Pairing.PairingStore.TryConsume` | src/channels/telegram-pairing.ts:180-229 | The matched record, or none; messages without a code change nothing. |
| `Pairing.ConsumesOneOrInvalidatesAll` | src/channels/telegram-pairing.ts:180-229 | A well-formed code consumes exactly one record and changes no other, or leaves none pending. |
| `Pairing.RunKeepsGood` | src/channels/telegram-pairing.ts:101-229 | Over every run pending codes and intents are pairwise distinct, pending records have no attempts, no record has two, and the list never exceeds 51. |
| `Pairing.FinalIsFinal` | src/channels/telegram-pairing.ts:118-229 | Consumed and invalidated records never change again, and no record changes its code or intent. |
| `Pairing.HistoryKeepsStore` | src/channels/telegram-pairing.ts:101-105 | The kept part of the history is the pairing file after the same operations. |
| `Pairing.ConsumedAreSuccesses` | src/channels/telegram-pairing.ts:180-229 | Over any run the consumed records are as many as the messages answered with one. |
| `PairingLookup.SweepKeepsPendingIff` | src/channels/telegram-pairing.ts:100-105 | The sweep, meant for consumed and invalidated records, keeps every pending one exactly if none is older than the last fifty records. |
| `PairingLookup.SweepLosesPending` | src/channels/telegram-pairing.ts:100-143 | Fifty-one pairings for different folders leave the first one pending in the file, unknown to a lookup and refused as a code. |
| `PairingLookup.FreshCodeReadsPending` | src/channels/telegram-pairing.ts:231-243 | A new code reads as pending exactly if none of the last forty-nine records before it used it. |
| `PairingLookup.AlwaysReadsPendingIff` | src/channels/telegram-pairing.ts:118-243 | Whatever is drawn, the new code reads as pending: exactly if the codes of the last forty-nine records are all pending for other intents. |
| `PairingLookup.ReusedCodeReadsInvalidated` | src/channels/telegram-pairing.ts:231-243 | The same code drawn again after a wrong guess reads as invalidated at once. |
| `Sessions.Find` | src/db/sessions.ts:36-53 | The lookup finds an active session of the agent, group and thread exactly if there is one; an empty thread is none. |
| `Sessions.Newest` | src/db/sessions.ts:56-60 | The active session of the agent created last, if there is one. |
| `Sessions.SessionStore.ResolveSession` | src/session-manager.ts:86-127 | The existing session, or a new one behind the others. |
| `Sessions.ResolvedIsRight` | src/session-manager.ts:97-122 | The session is active and of the requested agent, and but for agent-shared of the requested chat and thread; a new one is created at the time of the request. |
| `Sessions.AgentGetsLastCreated` | src/db/sessions.ts:56-60 | Over every run with a clock that does not go back, an agent-shared request gets the active session of its agent that was created last, or one of the same time. |
| `Sessions.ClosedNeverResolved` | src/db/sessions.ts:36-60 | Whatever runs behind it, a closed session is never resolved to again. |
| `Sessions.ResolveTwiceIff` | src/session-manager.ts:86-127 | The same request twice gets one session exactly if the first call found one or the request looks where it stores. |
| `Sessions.EmptyThreadNeverFound` | src/session-manager.ts:98-122 | With an empty thread id every message opens a session. |
| `Sessions.RunKeepsOneEach` | src/session-manager.ts:86-127 | Over every run of resolves and closes there is at most one active session per agent, non-empty group and thread. |
| `Sessions.SameKeySameSession` | src/session-manager.ts:86-127 | Without closes, shared and per-thread requests with equal keys get one session, whatever else is resolved in between. |
| `Router.InboundRouter.RouteInbound` | src/router.ts:144-317 | Unknown chats, chats without agents and wired chats: what is created, recorded and routed, whatever other fan-outs do at its suspensions, and whether it fails. |
| `Router.InboundRouter.FanOut` | src/router.ts:228-316 | The loop over the wired agents with the steps of other fan-outs at each suspension: it ends at a delivery that throws, and otherwise records a drop exactly if none engaged or accumulated. |
| `Router.InboundRouter.HandleAgent` | src/router.ts:257-300 | One pass of the loop: the verdict on the sessions at that moment, the delivery, the suspension, and whether the delivery throws. |
| `Router.InboundRouter.DeliverToAgent` | src/router.ts:372-457 | The session is resolved first; a filtered or denied command writes no row; a row whose id the session has is refused, which throws as a failing wake does. |
| `Router.FanOutRows` | src/router.ts:228-467 | Whatever other fan-outs do meanwhile, a fan-out writes at most one row per wired agent, each into an active session of that agent, and no two of its rows have one id. |
| `Router.StepsKeepKeys` | src/db/session-db.ts:104-112 | Whatever is routed, again or for the first time, no session's queue holds two rows with one id. |
| `Router.MessageIdInjective` | src/router.ts:464-467 | One message gets different ids for different agents. |
| `RoutedRows.StepWritesIff` | src/router.ts:257-457 | On any store, exactly when an agent step writes a row that wakes the agent, one kept for context, or none: told from the pattern or mention or followed thread, the gates, the command gate and the ids in the session. |
| `RoutedRows.RowIsRight` | src/router.ts:372-467 | The row has the message id of the agent and the thread of the message, and lies in an active session of the agent: by chat and thread as the adapter and the mode say, and for agent-shared the one created last. |
| `RoutedRows.RunRowsIff` | src/router.ts:257-457 | Over any run of steps every new row of the queues is the row of exactly one step and stays as that step wrote it. |
| `FanOutOutcome.FanOutIff` | src/router.ts:244-316 | Whatever other fan-outs do meanwhile: the fan-out fails exactly if a pass does, records a drop exactly if no pass delivers, and subscribes the thread exactly if a sticky wiring that wants it is reached, triggers and succeeds. |
| `FanOutOutcome.PassTakesStep` | src/router.ts:257-300 | A pass that is reached and delivers takes its step and then lets the others run; no other pass changes anything. |
| `StickyThreads.StickyOpens` | src/router.ts:359-390 | For a sticky wiring a step leaves a thread open exactly if it was open or the message is a mention in it that passes both gates. |
| `StickyThreads.OthersOpenNothing` | src/router.ts:228-390 | Steps of other agents and of other chats open no thread here. |
| `StickyThreads.DeliveryOpensIff` | src/router.ts:372-390 | On any sessions and in any mode, a delivering step leaves its thread open exactly if it was open or the session is filed under it. |
| `StickyThreads.OpenIffOpened` | src/router.ts:228-390 | After any agent steps of any fan-outs in any order, a thread is open exactly if the agent's step for a mention in it that passed both gates has run. |
| `StickyThreads.StickyRule` | src/router.ts:228-390 | In a sticky chat a message without a mention engages exactly if the agent's step for a mention of its thread that passed both gates came before its own, however fan-outs interleave. |
| `StickyThreads.StickyRuleInFlight` | src/router.ts:228-390 | The same for any number of messages in flight that take their steps in any order. |
| `StickyThreads.ArrivalOrderIff` | src/router.ts:228-390 | The rule in the order of arrival holds at a step exactly if the step for some earlier admitted mention has run, or, when there is no such mention, that for no later one has. |
| `StickyThreads.InOrderIsEnough` | src/router.ts:228-390 | If no message of the chat is overtaken at this agent, the rule in the order of arrival holds. |
| `StickyThreads.OvertakenMention` | src/router.ts:269-300 | A follow-up can overtake the mention it follows while the mention waits for another agent's container, and is then dropped. |
| `StickyThreads.FollowUpIff` | src/router.ts:339-390 | On any sessions, adapter and session mode, the follow-up of a delivered message engages exactly if its thread was open before or the session was filed under it, whatever other agents and chats do in between. |
| `StickyThreads.ContextReachesSession` | src/router.ts:282-297 | The row of an accumulated message and the row of the next engaging message of its key lie in one session, whatever steps run in between. |
| `StickyThreads.RedeliveryThrows` | src/router.ts:431-467 | A message delivered again to an active session throws at its agent, whatever is routed in between, and ends the second fan-out there. |
| `InboundLifecycle.DecideStuckAction` | src/host-sweep.ts:70-106 | A container is killed exactly if it is past the ceiling or a claim is silent beyond the tolerance; the first silent claim is named. |
| `InboundLifecycle.StuckIff` | src/host-sweep.ts:70-106 | Stuck means: a heartbeat file silent for more than thirty minutes, or a claim made since the last heartbeat and open for more than one, each or the declared Bash timeout if that is longer. |
| `InboundLifecycle.DeclaredTimeoutKeeps` | src/host-sweep.ts:81-106 | Within the Bash timeout it declared a container is kept, whatever else is late. |
| `InboundLifecycle.StuckStaysStuck` | src/host-sweep.ts:70-106 | Waiting longer or declaring a shorter Bash timeout never frees a stuck container. |
| `InboundLifecycle.FreshHeartbeatIsSafe` | src/host-sweep.ts:70-106 | A container without a heartbeat file, or with one within the ceiling, is kept if every claim is older than the heartbeat or at most a minute old. |
| `InboundLifecycle.InboundQueue.InsertMessage` | src/db/session-db.ts:86-113 | A pending row with the next even number, unless the id is taken. |
| `InboundLifecycle.CountDue` | src/db/session-db.ts:115-126 | The number of pending triggering rows that are not scheduled for later. |
| `InboundLifecycle.InboundQueue.SyncProcessingAcks` | src/db/session-db.ts:148-161 | Exactly the acknowledged rows are completed, failed acknowledgements included. |
| `InboundLifecycle.InboundQueue.ResetIfStuck` | src/host-sweep.ts:259-284 | One claim: skipped, rescheduled with backoff or given up. |
| `InboundLifecycle.InboundQueue.ResetStuckProcessingRows` | src/host-sweep.ts:250-286 | The loop resets each claimed row once, even when a claim is listed twice. |
| `InboundLifecycle.InboundQueue.SweepSession` | src/host-sweep.ts:135-198 | What one sweep wakes, kills and resets, with any operations on the queue during the awaited wake and its own clock reading for each decision: the queue is that of a run of the acknowledgements, those operations and the reset. |
| `InboundLifecycle.SweepIsRun` | src/host-sweep.ts:135-198 | A sweep is such a run of queue operations, so what holds over every run holds across sweeps. |
| `InboundLifecycle.ResetIdempotent` | src/host-sweep.ts:159-162 | Resetting is idempotent within a sweep. |
| `InboundLifecycle.NextSeqIsFresh` | src/db/session-db.ts:81-84 | The next number is even and above all in use. |
| `InboundLifecycle.NextSeqIsLeast` | src/db/session-db.ts:81-84 | It is the least such number. |
| `InboundLifecycle.RunKeepsOrder` | src/db/session-db.ts:81-113 | Over every run numbers stay even, distinct and in insertion order, and ids distinct. |
| `InboundLifecycle.InsertedMessageLife` | src/host-sweep.ts:250-286 | Whatever host and container do, an inserted message is still there with its number, has at most five tries, its next try is at least 5(2^tries - 1) s after the first retry, and it is given up only with five tries, no sooner than 155 s after that. |
| `RetrySchedule.RetriesExactly` | src/host-sweep.ts:250-286 | Over every run: after k resets that meet the row with its time come, k at most five and no acknowledgement, it is pending with k tries and, for k > 0, waits 5 * 2^(k-1) s from the last one; the sixth gives it up, and only the sixth. |
| `RetrySchedule.CompletedIff` | src/db/session-db.ts:148-161 | Over every run the row is completed exactly if an acknowledgement names it. |
| `RetrySchedule.WakesIff` | src/db/session-db.ts:115-126 | Over every run a triggering row counts as due exactly while it is unacknowledged, not given up, and its time has come. |
| `InboundLifecycle.CompletedIsFinal` | src/db/session-db.ts:128-161 | A completed row never changes again. |
| `InboundLifecycle.FailedUntilAcknowledged` | src/db/session-db.ts:148-161 | A failed row stays failed exactly as long as no acknowledgement names it. |
| `ContainerWake.ContainerRunner.WakeContainer` | src/container-runner.ts:98-113 | Running: no-op; in flight: the same promise; otherwise a new one. Afterwards the session runs or is being woken. |
| `ContainerWake.ContainerRunner.OnSpawned` | src/container-runner.ts:185-186 | The process is entered for its session. |
| `ContainerWake.ContainerRunner.OnWakeSettled` | src/container-runner.ts:108-111 | The promise is removed however the wake ended. |
| `ContainerWake.ContainerRunner.OnTerminalEvent` | src/container-runner.ts:203-215 | The session's entry is removed. |
| `ContainerWake.ContainerRunner.KillContainer` | src/container-runner.ts:219-233 | In any world that keeps the invariant, the process signalled is exactly the session's one whose terminal event is still to come. |
| `ContainerWake.KillHitsTheLive` | src/container-runner.ts:219-233 | So it is after any orderly run, and every live process of the session is signalled. |
| `ContainerWake.StepKeeps` | src/container-runner.ts:98-215 | Every step keeps: a process is entered until its terminal event, and an execution under way holds its session's promise. |
| `ContainerWake.OneProcessPerSession` | src/container-runner.ts:98-215 | Over every interleaving of wakes, spawns, failures, kills and exits, with one terminal event per process after it is gone: at most one live process per session, always in the map, and at most one wake under way. |
| `ContainerWake.WakeAnswersIff` | src/container-runner.ts:98-113 | In every world that keeps the invariant a wake answers that the container runs exactly if a process of the session has not ended, joins exactly the wake under way if there is none, and else begins one. |
| `ContainerWake.SessionComesFree` | src/container-runner.ts:98-215 | From every such world, once the wake under way has ended and the process has exited, which is always possible, the next wake begins a container. |
| `ContainerWake.TerminalEventIsSafeIff` | src/container-runner.ts:203-215 | An event leaves every live process in the map exactly if no process of that session is alive. |
| `ContainerWake.ErrorWhileAliveDuplicates` | src/container-runner.ts:210-215 | An error event of a live process lets a second one start. |
| `Delivery.SendsIff` | src/delivery.ts:234-360 | When the adapter is called, when a message counts as delivered without a call, and when it is handed to the host or another agent: each exactly; every other message fails. |
| `Delivery.Deliverer.SettleMessage` | src/delivery.ts:187-226 | After one message: delivered, counted, or given up on the third failure. |
| `Delivery.Deliverer.DrainSession` | src/delivery.ts:164-232 | The loop calls exactly the due messages without a mark, each at its place and in order, and settles each, whatever runs while a call is awaited; if that is about other ids, the outcome is the drain alone followed by it. |
| `Delivery.DrainIsUndisturbed` | src/delivery.ts:164-232 | A drain with other messages settled during its awaits is the drain followed by the others. |
| `Delivery.Deliverer.DeliverSessionMessages` | src/delivery.ts:151-162 | A session being drained is skipped, without a call; otherwise its unmarked due messages are called in order, and whatever other sessions do during the awaits, the outcome is the drain's own followed by theirs, and the session is free again. |
| `Delivery.UndeliveredInOrder` | src/delivery.ts:179-190 | The batch is what has no mark among the due messages, each place once and in order. |
| `Delivery.CalledInOrder` | src/delivery.ts:151-232 | Over every interleaving: of two due messages of a drain without a mark, the later one is called only after the call of the earlier one has returned. |
| `Delivery.AllDoneAtEnd` | src/delivery.ts:151-232 | Over every interleaving: when a drain ends, every due message without a mark has been called once, in order. |
| `Delivery.SettleCommutesWithDrain` | src/delivery.ts:164-232 | Settling a message with another id before a drain or after it gives the same attempts and marks. |
| `Delivery.StepKeeps` | src/delivery.ts:151-232 | Every step of two interleaved polls and the containers keeps each message's account. |
| `Delivery.SentAtMostOnce` | src/delivery.ts:151-232 | Over every interleaving, whatever the ids: a message has at most one success, and is marked delivered exactly after one. |
| `Delivery.AtMostOnce` | src/delivery.ts:151-232 | Over every interleaving, with message ids unique across sessions: moreover at most three tries per message, failed only after three, and a counter of one or two only while unmarked. |
| `Delivery.MarkedIsFinal` | src/db/session-db.ts:237-255 | Over every interleaving, whatever the ids: once a message is marked nothing tries it again or changes the mark. |
| `DeliveryRetries.SharedIdGivesUpEarly` | src/delivery.ts:208-216 | For any two messages with one id there is a run in which the second is given up on its first failure. |
| `DeliveryRetries.GivesUpIff` | src/delivery.ts:208-216 | After any calls a failure gives the message up exactly if the failures under its id since the last success under it, in all sessions, number two modulo three. |
| `DeliveryRetries.OwnRetriesIff` | src/delivery.ts:151-232 | Over every interleaving no message is tried more than three times and none is given up before three tries of its own: exactly if no two messages share an id. |

## Left out

- SQLite, files, Docker, HTTP and sockets: tables are maps and sequences with the schema's keys; writes are taken to succeed unless a key refuses them.
- Clocks and time stamps: integers; `datetime('now')` text and `Date.parse`, with its time zones, are outside the model.
- Random ids, tokens and draws are parameters; session ids are creation numbers, so they are taken to be distinct.
- zlib deflate: any function with an inverse. The icon drawings are not modelled.
- Cosine similarity, embeddings and vector tables: an abstract relation that says which pairs exceed the threshold.
- The duplicate searches of `store`: arbitrary functions that find only active memories; `LOWER(TRIM(..))` against `strip().lower()` is not compared.
- `\w` in Python, case folding in JavaScript and the search for a bot name with pattern characters: parameters. Engage patterns: an arbitrary answer per message, or a pattern that does not compile.
- Two sessions of one agent with the same creation time: the older one counts as newest; SQLite leaves that open.
- `prune`, `tag` and search: they add only easy members to the ledger, or ranking.
- The source and the session columns of a memory.
- The key-value part and the subscriptions of the state store.
- `writeOutboundDirect`: it inserts through a handle opened read-only, so its success is not assumed.
- `replyTo` redirection, sender resolution, typing indicators and the approval card behind a dropped message.
- The scheduling, recurrence, permission and agent-to-agent modules; their changes to the queues are not steps of the model.
- Redelivery after a restart of the host: the attempt counter lives in memory, and a run of the model is one run of the host.
- Delivery.Deliverer.DrainSession: the agent group and both databases of the session are taken to exist; otherwise nothing is due.
- Router.InboundRouter.FanOut: drop records and chats that other messages add meanwhile are not among the steps at its suspensions.
- StateStore.SqliteState.Enqueue: calls that run between the count and its return are later calls of the model.
- InboundLifecycle.InboundQueue.SweepSession: the recurrence step at its end is absent, and whether a container runs after the wake is a parameter.
- Retries, prompts, service installation and channel onboarding of the setup driver: input, output and user interface.
