# A verified model of parity-db

parity-db is an embedded key-value store. Commits are queued, planned into records of a
write-ahead log, and enacted into index and value tables later; readers look through the queue,
the log and the tables at once. This project models its hardest parts in Dafny and proves what
they promise. `dafny verify dfyconfig.toml` checks the whole project.

| component | files | main results |
|---|---|---|
| ordered columns (B-tree) | `Batch`, `Tree`, `TreeOps`, `Node`, `BTreeNode`, `BTree`, `BTreeColumn` | a sorted batch through splits, borrows and merges is the batch applied one operation at a time; shape, fill and depth are kept; nothing is leaked or freed twice |
| tree iterator | `Cursor`, `MergedIterator` | the stack cursor is a position in the sorted pairs; merged with the overlay every step returns the nearest key, in any mixture of directions |
| value table | `SlotEntry`, `TableView`, `ValueTable`, `ValueTiers`, `StoredKeys` | slots are partitioned into free list and chains at every step; what is written is read; reference counts over any run are right up to the stuck maximum |
| commit pipeline | `CommitOverlay`, `LogPages`, `LogView`, `Engine`, `Database` | after any interleaving of commits, workers and crashes a read returns the last committed value, with the exact exception of rejected commits |
| crash recovery | `Recovery`, `LogView`, `Database` | replay over any mixture of pages gives exactly the state after a whole number of commits, with every flushed one among them, if and only if the logs write every page that was not flushed |
| hash index | `IndexEntry`, `IndexChunk`, `IndexLog`, `HashIndex` | 50 bits of a key survive in chunk number and entry; the four-lane search is the plain scan from 18 index bits on; masked logging is lossless; over any run exactly the live keys are found |
| formats | `LittleEndian`, `Decoding`, `LogRecord`, `NodeCodec` | log records and tree nodes read back as written and the reader stops where the writer did; a log record is accepted only if it was written |

How the model is made:

- Objects that the program updates in place are classes; the arrays inside a tree node and an
  index chunk, which are inline values there, are sequences of fixed length held by fields.
- `Keys.Rank` embeds the byte order of keys into the reals, so order arguments are arithmetic.
- A tree node in storage is a slot of separators and children; `NodeCodec` proves the bytes.
  `NodeArrays.Store` is any allocator that returns a slot not in use, as
  `TableView.FreshIsNotLive` proves of the value table; the low byte of an address is its size
  tier. The flags `moved` and `modified` of a node are not kept: they only set `changed`, which is
  already set whenever one of them is.
- The pipeline works on pages: a slot of a value table, or one entry of an index chunk. A column
  is any `Engines.Engine` whose plans are page writes computed from what readers see, with one page
  for each key as the simplest instance. A key stands for column and key.
  One `get` is one step, as it holds the lock of the commit overlay. Logs and tables are synced
  (`sync_wal`, `sync_data`).
- A log record that fails its checksum is `Torn`. Log files come sorted by their first record.

Where the code and what one would expect of it part ways, the code is kept and the condition is
exact:

- `seek_to_last` keeps a pending item: `MergedIterator.BTreeIterator.SeekToLast`, with runs in
  both directions in `MergedIterator.StaleForward` and `MergedIterator.StaleBackward`.
- A new iterator that first moves backward starts at the last key of the tree:
  `MergedIterator.FirstStep`. After the tree changed, an iterator still before the first key may
  return the empty key backward: `MergedIterator.StepChanged`.
- A rejected commit leaves its first operations in the commit overlay, and they are read:
  `Database.Db.CommitRaw`, `Database.CommittedUnlessLeft`, `Database.RejectedIsRead`.
- A value moved to another table is not indexed again when the index asks for a reindex:
  `HashIndex.HashColumn.MoveValue`, `HashIndex.MovedTooFar`.
- A one-slot value in the table of linked slots cannot be read: `ValueTiers.ShortValueIsLost`;
  the tier choice never puts one there: `ValueTiers.LastTierIsReadable`.
- The flush before logs are truncated leaves out the indexes of the reindex queue, so a crash can
  lose pages: `LogView.PartialFlush`, `Database.Db.CleanOne`, `Database.MissedPageIsLost`.
- The four-lane search at 16 and 17 index bits sees more than the scan:
  `IndexChunk.SearchesAgree`, `IndexChunk.FastCovers`.

## Model

| member | source | states |
|---|---|---|
| Keys.CompareIsRank | src/btree/node.rs:800-814 | byte order of keys is the order of their ranks, and no two keys share one |
| Keys.CompareIsSliceOrder | src/btree/node.rs:800-814 | a key is less than another exactly when it is smaller at the first byte where they differ, or ends there; greater and equal likewise |
| Keys.RankIsSliceOrder | src/btree/node.rs:800-814 | and the ranks are in that order |
| Batch.ApplyAllIsMapUpdate | src/btree/btree.rs:37-81 | applying a batch to the sorted pairs and to the map they stand for is the same |
| Batch.SortKeepsMeaning | src/btree/mod.rs:446-468 | the stable sort by key leaves the meaning of a batch, equal keys included, as the user gave it |
| Batch.LaterWins | src/btree/node.rs:63-71 | skipping an operation whose key the next one sets or removes changes nothing |
| Tree.FlatSplit | src/btree/node.rs:690-736 | a node cut at any separator has the same pairs in order |
| TreeOps.ReplaceKid | src/btree/node.rs:26-53 | a changed child written back changes the parent's pairs only in that child's place and keeps shape and storage |
| TreeOps.ReplacePair | src/btree/node.rs:306-378 | the same for two neighbouring children and their separator |
| TreeOps.ReplaceMerged | src/btree/node.rs:379-424 | the same for two children that became one |
| NodeArrays.OpenGap | src/btree/node.rs:738-762 | the entries from a place on move right by one, leaving a gap |
| NodeArrays.CloseGap | src/btree/node.rs:764-785 | the entries behind a gap move left by one |
| NodeArrays.MoveTail | src/btree/node.rs:690-736 | the tail of an array moves to a new one, with an entry put in on the way |
| NodeArrays.Node.Position | src/btree/node.rs:800-814 | the first separator that is not smaller, and whether it is the key |
| NodeArrays.Node.NumberSeparator | src/btree/node.rs:787-798 | the number of separators |
| NodeArrays.Node.Split | src/btree/node.rs:690-736 | which separators and children stay and which go to the new sibling |
| NodeArrays.Node.Place | src/btree/node.rs:104-234 | one more separator and child: in place, or the nine cut around their middle |
| NodeArrays.Absorb | src/btree/node.rs:390-415 | the right sibling behind the separator enters the left one |
| NodeArrays.Store.WriteExisting | src/column.rs:1108-1156 | a rewritten slot stays or moves to another tier, and no other slot changes |
| NodeArrays.Store.WriteNew | src/column.rs:1187-1206 | a new slot is none in use |
| BTreeNode.FetchChild | src/btree/node.rs:816-827 | the child node as stored, or none beyond the last |
| BTreeNode.WriteNodePlan | src/btree/mod.rs:293-364 | a changed node is stored in its slot or a new one, an unchanged one not at all |
| BTreeNode.InsertNode | src/btree/node.rs:182-234 | a full node splits into two of at least four separators around the one that goes up |
| BTreeNode.BorrowLeft | src/btree/node.rs:306-345 | a separator moves over from the left sibling: same pairs, both siblings full enough, no slot lost |
| BTreeNode.BorrowRight | src/btree/node.rs:346-378 | the same from the right |
| BTreeNode.Merge | src/btree/node.rs:379-424 | two siblings become one, the freed slot is given back |
| BTreeNode.Rebalance | src/btree/node.rs:306-424 | a child short of a separator is full enough afterwards, with the same pairs and storage |
| BTreeNode.RemoveLast | src/btree/node.rs:445-473 | the largest pair is taken out and returned, its value kept |
| BTreeNode.RemoveKey | src/btree/node.rs:236-304 | the pair of a separator is gone and its value freed, leaf or not |
| BTreeNode.ReplaceValue | src/btree/node.rs:104-180 | a Set of a key that is there |
| BTreeNode.InsertLeaf | src/btree/node.rs:104-180 | a Set of a new key |
| BTreeNode.Insert | src/btree/node.rs:104-180 | the operations consumed are applied to the pairs, and the node is right again |
| BTreeNode.OnExisting | src/btree/node.rs:236-304 | the same for a Dereference, and a Reference changes nothing |
| BTreeNode.StaysHere | src/btree/node.rs:83-99 | the next key stays exactly when a separator of the node is not below it or the parent sends it to this child, and then it lies in the node's range |
| BTreeNode.Change | src/btree/node.rs:55-102 | a batch through a subtree: the pairs are those with every consumed operation applied, ordered, uniform in depth, filled, with exact storage |
| BTree.BTree.FetchRoot | src/btree/btree.rs:105-112 | the stored root, or an empty node |
| BTree.BTree.AddLevel | src/btree/btree.rs:46-58 | a split root gets a new root above, one level deeper |
| BTree.BTree.DropRoot | src/btree/btree.rs:59-71 | an emptied root gives way to its only child and its slot is freed |
| BTree.BTree.WriteSortedChanges | src/btree/btree.rs:37-81 | the whole batch is applied, the root grown or shrunk as needed, storage exact |
| BTreeColumn.WritePlan | src/btree/mod.rs:446-485 | contents afterwards are the contents before with the batch applied in the user's order; live slots are header, reachable nodes and their values, each once |
| BTreeColumn.Replay | src/btree/mod.rs:446-485 | any history of batches from an empty column gives the map that the history gives |
| BTreeColumn.NodeGet | src/btree/node.rs:475-491 | the address of the key's value, or none |
| BTreeColumn.Get | src/btree/mod.rs:199-208 | what the contents map the key to |
| BTreeColumn.EmptyColumn | src/btree/mod.rs:138-150 | a new column is well formed and empty |
| Cursor.InFlat | src/btree/iter.rs:266-277 | every node on the stack is a stretch of the sorted pairs at its offset |
| Cursor.NodeStart | src/btree/iter.rs:418-429 | where a node is entered from either side |
| Cursor.TreeCursor.Exit | src/btree/iter.rs:279-299 | leaving passed nodes ends at the next item beside the gap, or with nothing left |
| Cursor.TreeCursor.Next | src/btree/iter.rs:301-392 | a step returns the pair beside the gap in its direction and stands on it, or ends; the loop terminates |
| Cursor.TreeCursor.Seek | src/btree/node.rs:493-528 | after an inclusive or exclusive seek, or one to the end, both gaps are where the key falls |
| MergedIterator.OverlayNext | src/db.rs:1242-1293 | the nearest overlay entry in a direction |
| MergedIterator.BTreeIterator.SeekKey | src/btree/iter.rs:92-99 | after a seek, steps in both directions start from the right place |
| MergedIterator.BTreeIterator.SeekToLast | src/btree/iter.rs:105-110 | right afterwards if and only if nothing, or only the end of the tree, was pending |
| MergedIterator.StaleForward | src/btree/iter.rs:92-203 | seek, step onto an overlay entry, `seek_to_last`, step forward: the pair that was pending comes back where nothing should |
| MergedIterator.StaleBackward | src/btree/iter.rs:92-203 | the same backward: first the pending pair, then the last pair of the tree; twice the same one when the last pair was pending |
| MergedIterator.FirstStep | src/btree/iter.rs:72-90 | the first step of a new iterator: right forward; backward the last pair of the tree, which is right if and only if the tree is empty |
| MergedIterator.BTreeIterator.NextItem | src/btree/iter.rs:139-153 | in every state: the pending pair or the one beside the cursor, and where the cursor is left; from a right state the nearest of the tree |
| MergedIterator.BTreeIterator.Reopen | src/btree/iter.rs:205-234 | after the tree changed the iterator is right at the key it last returned; before the first key, backward, if and only if the tree has no empty key |
| MergedIterator.BTreeIterator.Round | src/btree/iter.rs:124-203 | in every state: which of overlay entry and tree pair is taken and what is left pending; from a right state the nearest key, or a deleted one passed, and right in both directions afterwards |
| MergedIterator.BTreeIterator.Step | src/btree/iter.rs:121-203 | from a right state the nearest key of overlay over tree, with deletions hidden; in every state what is returned when the first overlay entry is no deletion |
| MergedIterator.Walk | src/btree/iter.rs:92-234 | after a seek, every step of any sequence of directions, with overlay and tree changing in between, returns the nearest key from where the last one stopped; the one exception is named |
| MergedIterator.StepChanged | src/btree/iter.rs:205-234 | a step after the tree changed, with that exception: backward before the first key of a tree that has the empty key |
| MergedIterator.TakeItem | src/btree/iter.rs:154-183 | a tree pair nearer than the overlay's entry is the nearest of all, and not hidden |
| MergedIterator.TakeEntry | src/btree/iter.rs:154-183 | an overlay entry no farther than the tree's pair decides its key |
| MergedIterator.SkipEntry | src/btree/iter.rs:163-182 | passing a deleted key loses nothing |
| LittleEndian.Decoded | src/table.rs:290-328 | a number written in little endian reads back |
| LittleEndian.Encoded | src/table.rs:290-328 | and bytes are what their number is written as |
| LittleEndian.Digit | src/table.rs:290-328 | each byte is its digit in base 256, the lowest first |
| SlotEntry.SizeWordReads | src/table.rs:273-288 | a size word reads back and is never taken for a marker |
| SlotEntry.Layout | src/table.rs:68-81 | size words, markers, tombstone and header spelled out in bytes |
| TableView.OnePlaceEach | src/table.rs:6-45 | every slot is in the free list or in exactly one chain, once |
| TableView.FreshIsNotLive | src/table.rs:666-691 | the slot that `next_free` returns is no live one |
| TableView.TakeOk | src/table.rs:666-691 | taking a slot keeps the partition, the free list and all other chains |
| TableView.GiveOk | src/table.rs:794-811 | freeing a slot keeps them too |
| ValueTables.ValueTable.ReadSlot | src/log.rs:382-396 | a read shows the newest image, from the log or from the file |
| ValueTables.ValueTable.Enact | src/table.rs:902-934 | the image goes to its slot of the file, the rest of the slot and all other slots stay, and nothing that is read changes |
| ValueTables.ValueTable.Forget | src/log.rs:653-660 | the log may drop an image that the file holds |
| ValueTables.ValueTable.ReadNextFree | src/table.rs:636-651 | the next freed slot, never out of the table |
| ValueTables.ValueTable.NextFree | src/table.rs:666-691 | the last freed slot or a new one |
| ValueTables.ValueTable.ReadNextPart | src/table.rs:653-664 | the next slot of a chain, or none at its end |
| ValueTables.ValueTable.ClearSlot | src/table.rs:794-811 | the slot heads the free list |
| ValueTables.ValueTable.ClearChain | src/table.rs:779-792 | every slot from a place on is freed, those before untouched; the loop terminates |
| ValueTables.ValueTable.OverwriteChain | src/table.rs:693-777 | the chain spells counter, key and value on the old slots as far as they go, extended or with its tail freed; every other value is unchanged |
| ValueTables.ValueTable.WriteInsertPlan | src/table.rs:813-821 | a new value at a slot where none started |
| ValueTables.ValueTable.WriteReplacePlan | src/table.rs:823-833 | a new value at an old head |
| ValueTables.ValueTable.WriteRemovePlan | src/table.rs:835-842 | the value is gone and no other one touched |
| ValueTables.ValueTable.CompletePlan | src/table.rs:977-991 | a changed header is logged |
| ValueTables.ValueTable.RefreshMetadata | src/table.rs:961-975 | whatever is in memory, end of table and free list are read back from the enacted header, with a missing file or header taken for an empty table |
| ValueTables.ValueTable.ReadPart | src/table.rs:444-486 | the payload of a slot, or nothing where no value starts |
| ValueTables.ValueTable.Query | src/table.rs:431-567 | value, compression flag and counter when the stored key bytes agree; nothing at freed slots, inside chains, or for a one-slot value in the table of linked slots |
| ValueTables.ValueTable.ChangeRef | src/table.rs:857-900 | the counter moves, stuck at the maximum, and nothing else does |
| ValueTables.ValueTable.WriteDecRef | src/table.rs:849-855 | the value is freed exactly with its last reference |
| ValueTables.WrittenAnswers | src/table.rs:693-777 | a written value answers its key with itself, another hashed key exactly when their last 26 bytes agree; other values answer as before |
| StoredKeys.WriteThenQuery | src/table.rs:431-567 | a query after a write answers if and only if the two keys agree in their last 26 bytes |
| StoredKeys.SlotNamesKey | src/column.rs:833-834 | the 26 bytes in the slot, with chunk number and index entry, give the whole key back |
| StoredKeys.HoldersAnswer | src/column.rs:473-497 | the slots that the index takes for holders of a key are exactly those whose values answer it |
| ValueTables.SeveralSlots | src/table.rs:730-760 | a value takes several slots exactly when it does not fit one |
| ValueTables.ImagesDelimitThemselves | src/table.rs:936-959 | every slot image, the header at slot 0 included, has the length a reader infers from index and first two bytes |
| ValueTiers.TargetTier | src/column.rs:284-309 | the first table that holds the value; the last one only for values no other holds |
| ValueTiers.LastTierIsReadable | src/column.rs:300-306 | such a value takes several slots, so it can be read |
| ValueTiers.ShortValueIsLost | src/table.rs:463-466 | a one-slot value in the table of linked slots is stored but never found |
| ValueTiers.CountedChange | src/column.rs:1103-1184 | one operation on a key of a reference-counted column: the counter moves, a first Set stores its value, the value goes with its counter, all others stay |
| ValueTiers.CountedRun | src/column.rs:537-570 | any sequence of Set, Reference and Dereference run on a table leaves what the recurrence says; the chain is freed exactly when no reference is left, and nothing else changes |
| ValueTiers.CountsReferences | src/table.rs:857-900 | by the recurrence the stored counter is the number of references, or stuck at the maximum once that was reached |
| ValueTiers.FirstValueStays | src/column.rs:1115-1120 | the value is the one that was set when the key was last absent |
| LogPages.ThroughIsFold | src/log.rs:98-108 | tables seen through the overlay look as if all pending records were applied |
| LogPages.OverlayEnd | src/log.rs:639-664 | dropping the entries a record wrote last leaves the overlay of the others |
| LogView.ReadersSeeLogged | src/log.rs:98-108 | readers see every logged record, wherever the enactment is |
| LogView.EnactOk | src/db.rs:656-684 | one page enacted keeps the state of log and tables in order |
| LogView.EndOk | src/log.rs:639-664 | and so does the end of a record |
| LogView.TruncateOk | src/log.rs:702-727 | and the truncation of logs that a table flush covers |
| LogView.PartialFlush | src/column.rs:379-386 | after a table flush that misses pages, and the truncation of records it covers, every crash can be mended if and only if the records that stay write the missed pages again |
| LogView.CrashIsMended | src/db.rs:750-788 | whatever a crash leaves on pages that were not flushed, replay mends it if and only if the surviving records write all of them |
| Recovery.ReplayAllLogs | src/db.rs:570-788 | of any files: from the front of each file as many whole records as follow in sequence, and after a record out of sequence nothing more; of logs as a crash leaves them, all records |
| Recovery.ReplayIsDetermined | src/db.rs:588-600 | the files decide what that is |
| Recovery.ReplayIsExact | src/db.rs:776-788 | replay over any mixture gives the state after the last record |
| CommitOverlay.CoverMeans | src/db.rs:1206-1240 | the overlay answers for exactly the keys that queued commits change, and with what they leave |
| CommitOverlay.CleanedIsCover | src/db.rs:1445-1461 | cleaning by commit id leaves the overlay of the commits still queued |
| Database.ReadsAreCurrent | src/db.rs:240-263 | overlay over log shows every commit, except where a rejected commit left an entry |
| Database.Db.Get | src/db.rs:240-263 | a read returns what a rejected commit left for its key, else what the last commit of it did |
| Database.Db.CopyToOverlay | src/db.rs:1388-1419 | the operations before the first unsupported one are in the overlay |
| Database.Db.CommitRaw | src/db.rs:343-398 | a commit of supported operations joins queue and history and replaces what was left on its keys; a rejected one leaves its operations before the unsupported one |
| Database.CommittedUnlessLeft | src/db.rs:1388-1419 | after any run a read is the last committed value if and only if no rejected commit since the last decision on the key left another one |
| Database.StraysAre | src/db.rs:1388-1461 | which commit left what is in front of the committed values |
| Database.RejectedIsRead | src/db.rs:1388-1419 | a rejected commit that is read back, until an accepted one replaces it |
| Database.Db.PopCommit | src/db.rs:412-437 | the oldest commit moves from the queue to the log worker |
| Database.Db.LogCommit | src/db.rs:439-486 | a record of its planned page writes is appended, one more commit is recorded, no read changes |
| Database.Db.CleanOverlay | src/db.rs:488-497 | the overlay loses exactly the entries that this commit wrote last, no read changes |
| Database.Db.Reindex | src/db.rs:520-568 | a reindex record is appended, no read changes |
| Database.Db.Drain | src/db.rs:400-513 | until no commit waits: every commit is recorded, the overlay holds only what rejected ones left |
| Database.Db.FlushOne | src/log.rs:666-682 | the log file joins those to be enacted, and every recorded commit is safe |
| Database.Db.ReadNext | src/log.rs:733-758 | the next file is opened, or the one read through waits for cleanup |
| Database.Db.EnactPage | src/db.rs:656-684 | one page of the record goes to the tables, no read changes, a crash can still be mended |
| Database.Db.EndRead | src/log.rs:639-664 | the log overlay loses what the record wrote last, no read changes |
| Database.Db.Settle | src/db.rs:1039-1094 | with everything logged, flushed and enacted, the tables alone mean the history |
| Database.Db.FlushTables | src/db.rs:750-758 | pages are on disk except those the flush leaves out, the indexes of the reindex queue |
| Database.Db.CleanOne | src/log.rs:702-727 | the oldest covered log goes; a crash can be mended afterwards if and only if the logs that stay write the missed pages |
| Database.Db.CrashAndReplay | src/db.rs:776-788 | a crash and an open: the tables are what replay of the surviving records makes of the disk; if it could be mended the history is cut to a first part that includes every safe commit |
| Database.CommitIsDurable | src/db.rs:343-398 | a commit that is logged and flushed survives any crash |
| Database.MissedPageIsLost | src/column.rs:379-386 | a run with a partial table flush after which a crash loses a commit that was logged, flushed and read back |
| Database.TakeStep | src/db.rs:1039-1094 | each worker step, commit and crash does to history, recorded, safe and left-over commits what the account allows |
| Database.Run | src/db.rs:1039-1094 | any interleaving of commits, worker steps and crashes follows the account and ends with the read it prescribes; it fails only at a crash that cannot be mended, never while table flushes are full |
| IndexEntry.Parts | src/index.rs:65-69 | chunk number, partial key and the 14 bits that are lost, at every size |
| IndexEntry.EntryReads | src/index.rs:39-64 | an entry gives back its address and its part of the key |
| IndexEntry.PrefixRecovered | src/index.rs:333-342 | chunk number and entry give back the first 50 bits of the key |
| IndexEntry.Reinserted | src/index.rs:423-445 | the recovered prefix makes the same entry in the same chunk as the key, at any size |
| IndexEntry.KeyRecovered | src/column.rs:833-834 | with the 26 stored bytes the whole key comes back |
| IndexChunk.FindEntryBase | src/index.rs:316-330 | the first match from a place on |
| IndexChunk.FindEntryFast | src/index.rs:267-314 | the first equal lane from a place on |
| IndexChunk.SameSearch | src/index.rs:267-330 | both find the same entry at 18 or more index bits |
| IndexChunk.FastCovers | src/index.rs:267-330 | at every size the fast search sees what the scan sees |
| IndexChunk.SearchesAgree | src/index.rs:267-330 | both see the same entries of every chunk for every key if and only if the index has 18 bits or more |
| IndexChunk.Lookup | src/column.rs:228-254 | either search misses no hit and returns a slot that has the key; the first hit when the key check settles the match |
| IndexLog.PlanInsertChunk | src/index.rs:427-467 | the entry goes into the given or the first empty place; a reindex is asked for exactly when the address or the chunk has no room |
| IndexLog.InsertAndRemove | src/index.rs:427-515 | removing what was inserted at an empty place gives the chunk back; the insertion happens exactly when address and chunk have room |
| IndexLog.InsertFollows | src/log.rs:335-344 | readers are served the chunk with the new entry under the record's id, and the mask covers exactly what the record changed |
| IndexLog.PlanLogEnact | src/log.rs:277-289 | any plans for a chunk in one record, logged as masked entries and enacted: the table's chunk is the planned one, and so is the one readers were served |
| IndexLog.EnactPlan | src/index.rs:540-579 | the listed entries replace exactly the masked ones |
| IndexLog.MaskedLogIsLossless | src/log.rs:277-289 | enacting masked entries record by record rebuilds the chunk that readers were served |
| IndexLog.DroppedWhenEqual | src/log.rs:639-664 | the overlay's chunk is dropped only when the table holds the same |
| HashIndex.SearchIndex | src/column.rs:473-497 | by either search the entry of a live key is not missed and what is found is where the key lives; by the scan it is the key's own entry |
| HashIndex.HashColumn.SearchAll | src/column.rs:518-535 | a key is found if some index has its entry; in a column in order exactly the live keys are |
| HashIndex.HashColumn.Get | src/column.rs:201-222 | the address of a live key, by either search |
| HashIndex.HashColumn.TriggerReindex | src/column.rs:415-437 | an empty main index of one bit more, the old one at the end of the queue; nothing is lost |
| HashIndex.HashColumn.InsertGrowing | src/column.rs:632-639 | the entry gets into the main index, growing it as needed, and nothing is lost; it fails exactly when the address is beyond 2^63 or the index of 49 bits is full |
| HashIndex.HashColumn.SetNew | src/column.rs:610-640 | a new key can be found, and all others still, with the same exact failure |
| HashIndex.HashColumn.Remove | src/column.rs:602-606 | a removed key is gone, exactly its entry is emptied, and every other key is still found |
| HashIndex.HashColumn.MoveValue | src/column.rs:596-601 | refused exactly when the address is too large for the main index, or the key is not in it and its chunk is full; else the new entry takes the place of the old one or the first empty place; the column stays in order if and only if it was not refused or some index named the new address before |
| HashIndex.MovedTooFar | src/column.rs:596-601 | in any column a value moved to an address beyond the main index is never found again |
| HashIndex.OneKeyLost | src/column.rs:596-601 | the smallest case: one key, found before and lost after the move |
| HashIndex.HashColumn.ReindexEntry | src/column.rs:450-471 | the entry is in the main index afterwards, if and only if it was there or the index has room or can grow |
| HashIndex.HashColumn.ReindexChunk | src/column.rs:1021-1056 | after a chunk is moved no key depends on it; it is refused only by a main index of 49 bits with a full chunk |
| HashIndex.HashColumn.DropIndex | src/column.rs:1058-1071 | dropping a moved index loses no key |
| HashIndex.TakeStep | src/column.rs:415-640 | a step does to the stored keys, the queue and the progress what it says, and fails exactly where the index refuses |
| HashIndex.Run | src/column.rs:415-640 | after any run of such steps the column holds what the steps say and every live key is found at its address, by either search; the run ends early only at a refused entry |
| LogRecord.FlushToFile | src/log.rs:263-310 | the bytes of a record, checksum included |
| LogRecord.LogReader.Next | src/log.rs:157-221 | the head of an action as written; a head that is accepted is the one whose bytes were read |
| LogRecord.LogReader.ReadImage | src/table.rs:936-959 | a slot image as written, its length inferred; what is read says how long it is |
| LogRecord.LogReader.ReadEntries | src/index.rs:581-595 | the mask and an entry for each of its bits, as written and as read |
| LogRecord.LogReader.ReadRecord | src/db.rs:600-660 | a record is accepted if and only if its bytes are those of a record that can be written, with the right checksum behind what it covers |
| LogRecord.TamperedSum | src/log.rs:194-211 | a written record with any other four bytes in place of its checksum is refused |
| LogRecord.AcceptedWasWritten | src/log.rs:157-221 | of any bytes: what is accepted was written, and what was written is accepted as itself |
| LogRecord.HeadLayout | src/log.rs:21-25 | the heads of all actions spelled out in bytes |
| LogRecord.CrcOfOneByte | src/log.rs:194-211 | the checksum is CRC-32: its published value for one byte |
| LogRecord.RoundTrip | src/log.rs:157-310 | writing and reading gives the same actions and stops at the end of the record |
| LogRecord.LoggedIsFramed | src/table.rs:977-991 | whatever a value table has logged when its plan is complete, its header included, can be framed |
| LogRecord.TableRoundTrip | src/table.rs:902-959 | a record of such images reads back as written |
| NodeCodec.SepReads | src/btree/mod.rs:63-106 | a separator reads back across the 255-byte length escape |
| NodeCodec.CutSeparator | src/btree/mod.rs:63-88 | a separator cut off anywhere is refused |
| NodeCodec.SepLayout | src/btree/mod.rs:90-106 | a separator spelled out in bytes, on both sides of the length escape |
| NodeCodec.NodeLayout | src/btree/mod.rs:319-338 | child, separator, child in turn, with address 0 in place of a leaf's children |
| NodeCodec.EncodeNode | src/btree/mod.rs:319-338 | the bytes of a node |
| NodeCodec.DecodeNode | src/btree/node.rs:593-615 | the node whose bytes they are |
| NodeCodec.NodeRoundTrip | src/btree/mod.rs:319-338 | a node of any fill, leaf or not, reads back as written |

## Left out

- Compression and hashing: the value a table stores and the hashed key are given.
- Files, memory maps, growth of table files, platform code, I/O errors and background error handling.
- Waiting, wake-up and throttling of the workers: steps may come in any order, none is promised to come.
- Reference-counted and preimage columns in the commit pipeline; reference counts are proved at the table.
- Reference-counted trees.
- `DropTable` records in recovery: the pages of a dropped index are not given back in the model, so replay over an index already dropped is not covered.
- The directory scan and the sort of log files by first record in `Log::open`, and the pool of emptied log files.
- Statistics, dumps, checks, migration, options and metadata, the admin tool.
- Versions 4 to 6 of the file format.
- `iter_values` and `iter_index` over hash columns.
- Engines.Lawful: no method of the B-tree column or the hash column is shown to be an engine; the pipeline is proved for every engine that meets the law.
- ValueTables.ValueTable.OverwriteChain: needs room for the new slots below 2^64, which the program does not check.
- ValueTables.ValueTable.WriteInsertPlan: needs the same room.
- ValueTables.ValueTable.WriteReplacePlan: needs the same room.
- ValueTables.ValueTable.Query: a stored value shorter than counter and key bytes, which only another kind of key could have written, is not asked for.
- ValueTables.ValueTable.WriteDecRef: the index is the head of a live chain, as every caller finds it; the program does not guard against a freed one.
- HashIndex.HashColumn.InsertGrowing: an index of 49 bits cannot grow; the program would shift by 64 there.
- HashIndex.HashColumn.Get: supposes that keys differ in their last 26 bytes, which is what a slot stores of them.
- HashIndex.HashColumn.SearchAll: the searches that precede a change use the plain scan; at 16 and 17 index bits the lane search may stop at a stale entry of another key whose slot was reused.
- IndexChunk.ScanLanes: the vector instructions are modelled by what they compute, lane by lane.
- MergedIterator.Walk: the tree changes between steps, not between the rounds of one step.
- Database.Db.Get: reads are single steps, although a lookup in a hash column takes the log's lock several times.
