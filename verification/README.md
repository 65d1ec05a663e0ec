# Verified models of the configuration server and its support library

The repository holds a configuration server (`cfgd`/`jess`) and the C library it runs on. This project
models the parts whose correctness is hard to see from the code, in Dafny 4.11, and proves what they
promise. `dafny verify dfyconfig.toml` checks everything.

| part | files |
|---|---|
| hash table with incremental rehash, scan cursor, safe iterator | `Words`, `DictState`, `DictEdits`, `DictOps`, `DictScan`, `DictScanOnce`, `DictIterator`, `DictChains` |
| intrusive AVL tree | `AvlModel`, `AvlTree` |
| configuration tree kept in step with its JSON | `ConfigModel`, `ConfigUpdate`, `ConfigLaws`, `ConfigNames`, `ConfigReads`, `ConfigRoot`, `ConfigReference`, `ConfigOps`, `ConfigWrite` |
| request keys, limits | `RequestPath`, `RequestOps`, `Decimals`, `Limits` |
| JSON text and JSON lists | `JsonValue`, `JsonText`, `JsonGrammar`, `JsonRoundTrip`, `JsonExact`, `JsonBuffer`, `JsonParser`, `JsonList` |
| fixed-slot file system | `FsModel`, `FsEffects`, `FsOps`, `FsRenumber` |
| request scheduler | `Scheduler`, `SchedulerDrain` |
| ring buffer, CRC-32, DES | `RingBuffer`, `BitStrings`, `Masks`, `Crc`, `CrcCheck`, `DesTables`, `Des`, `DesFacts`, `DesComplement`, `DesWords`, `DesAnswers` |
| what several parts share | `Basics` |

Main results:

- **Scan.** A scan of the hash table from cursor 0 until it returns 0 emits every entry that is present
  throughout, whatever additions, deletions, expansions, shrinks and rehash steps happen between the calls
  (`DictScan.ScanComplete`); every call moves the reversed cursor forward (`DictScan.ScanProgress`). A call emits
  no entry twice, and a scan of an unchanged dictionary emits each entry exactly once (`DictScanOnce.ScanOnce`).
- **Map.** The two tables together behave as one finite map under find, add, replace, delete and rehash
  (class `DictOps.Dict`); a safe iteration during which the entry behind its saved next pointer is not deleted
  returns each entry that stays present exactly once (`DictIterator.IterationExact`). In the heap, the loops
  that relink, link and unlink entries do to the `next` chains what the tables prescribe
  (`DictChains.RelinkBucket`, `DictChains.LinkEntry`, `DictChains.UnlinkEntry`). Unpaused lookups and changes push
  a rehash on, and it is over after at most as many as the old table has buckets left, and one
  (`DictOps.RehashEnds`).
- **AVL.** Insertion and removal relink the caller's nodes in place into the tree that the model prescribes,
  which is ordered, balanced, and holds exactly the expected nodes (`AvlTree.AvlInsert`,
  `AvlTree.AvlRemove`); a tree of height h has at least Fib(h+3)-1 nodes (`AvlModel.SizeBound`).
- **Index and JSON.** Over every run of writes and deletes, done or failed, the index equals the one rebuilt
  from the edited JSON exactly when no request creates a segment whose name the loader refuses
  (`ConfigRoot.RunAgreesIff`); reads then answer as they would after a reload (`ConfigRoot.IndexAgrees`). For
  one write, every plain read agrees with the reload exactly when the write deletes, does not get done, or
  creates only names the loader keeps (`ConfigReads.ReadsIff`). A written value is read back, every other plain
  path is unchanged, and a deletion removes exactly its subtree (`ConfigRoot.RootReadOverWrite`,
  `ConfigRoot.RootFrame`, `ConfigRoot.RootDelete`). A read answers what the JSON holds at the path, and which
  writes get done is read off the JSON as well, `$`, `?`, `+` and `*` included (`ConfigReference.RootReads`,
  `ConfigReference.RootEnds`, `ConfigReference.RootResolved`). The server's cursor loop with one change at its end
  does what the recursive update says (`ConfigWrite.WritePath`).
- **Text.** The parser accepts a text and gives a tree exactly when the text denotes that tree, nested at most
  1000 deep (`JsonExact.ParseIff`); every string of section 7 of RFC 8259 is read as what it stands for, all
  escapes and surrogate pairs included (`JsonGrammar.QuotedRead`). Printing a JSON tree and parsing the text gives the tree back exactly when it is nested no deeper
  than the parser's limit (`JsonRoundTrip.RoundTrip`), through the buffers as well
  (`JsonParser.SaveAndLoad`).
- **File system.** A file or directory that is made takes the first free slot and is found there, deleting it
  frees its name, and making and deleting it again leaves the layout as it was (`FsEffects.FileMadeAt`,
  `FsEffects.NameFreed`, `FsEffects.FileUndone`, `FsEffects.DirUndone`). Every layout of a run is consistent exactly when each file that is made is made in a
  directory that exists then (`FsModel.RunConsistent`); renumbering directories in place keeps a file with its
  directory under an exact condition and is idempotent (`FsRenumber.KeepsOwnerIff`, `FsRenumber.Idempotent`).
- **Scheduler.** In every interleaving each admitted request has one response or one task that will send it,
  windows count unanswered requests and stay in 0..20, and queues are FIFO and bounded
  (`Scheduler.OneResponse`, `Scheduler.WindowSafety`, `Scheduler.QueueSafety`), all from the initial state. From
  every state reached, ordinary steps alone can answer all that is left (`SchedulerDrain.CanAnswerAll`).
- **Kernels.** The ring refines a byte queue across counter wraparound. Table-driven CRC equals the bit-by-bit CRC
  and gives the published check value (`CrcCheck.CheckValue`). DES decryption undoes encryption; the cipher has the
  complementation property, its tables meet the standard's design rules, and it gives two published answers
  (`DesComplement.EncryptedComplement`, `DesFacts.OneBitTwo`, `DesAnswers.SampleAnswer`).

How the source's form is kept: the hash table's fields, the AVL nodes, the JSON child lists, the file-system arrays,
the print and parse buffers, the ring and the iterator are classes or arrays updated in place, and loops are
loops. The scheduler is a state machine over its steps. Characters of strings stand for bytes, and strings
hold no NUL, as C strings do.

Places where the code differs from what its comments or a first reading suggest, and what was proved instead:

- A request key may create an entry whose name the loader refuses (for instance with `#`), so the index and
  the reloaded tree then differ (`ConfigNames.LossExample`); a write that fails further down leaves such an
  entry behind as well (`ConfigNames.FailedLossExample`). For every outcome, the two agree exactly when the
  write deletes or every segment it creates has a name the loader keeps (`ConfigNames.AgreesIff`). A reload
  takes such a write back: every plain path then answers as before it (`ConfigReads.TakenBack`).
- A write to an array item that is an object changes nothing and can never be read back. The code answers "no
  change" where the value is the item's label text (`x[0]`), and failure otherwise; the model says `Failed` in
  both cases, so the read-back laws speak of fields and text items there.
- An array index is cut to 32 bits before it is checked, so `x[4294967296]` names item 0
  (`RequestOps.WrappedIndex`). An index text is accepted exactly when its number is at most LONG_MAX and its
  low 32 bits are below 256, and it names its own number exactly when that is below 256
  (`RequestPath.IndexAsWritten`, for whole keys `RequestPath.NumbersAsWritten`).
- Two fsync tasks can exist at once: the first has reported completion and is about to return while the
  second is received (`Scheduler.TwoFsyncs`). There is at most one throughout a run exactly when no fsync is
  asked for while the counter is 0 and the worker's fsync has reported but not returned
  (`Scheduler.OneFsyncIff`).
- A file whose directory id is not live can fall into another directory when directories are renumbered
  (`FsRenumber.OrphanExample`): a file keeps its owner slot exactly when it has an owner or its directory id
  is no live slot's new id (`FsRenumber.KeepsOwnerIff`).
- `fs_allocate_file` accepts any positive directory id; the layout stays consistent exactly when the directory
  is live or the request is turned down anyway (`FsModel.FileAllocated`).

## Model

| member | source | states |
|---|---|---|
| `Words.Rev` | naxfw/addons/dict/dict.c:799-807 | the shift-and-mask loop reverses all 64 bits, and the number held is the reversed number |
| `Words.ReverseInvolution` | naxfw/addons/dict/dict.c:799-807 | reversing twice gives the number back |
| `DictScan.BumpRegister` | naxfw/addons/dict/dict.c:922-928 | on 64-bit registers, setting the bits above the mask, reversing with `rev`, adding one and reversing gives the next cursor |
| `DictChains.MoveOne` | naxfw/addons/dict/dict.c:228-239 | relinking the head of an open chain to the front of another chain keeps every other chain and no entry stands twice |
| `DictChains.RelinkBucket` | naxfw/addons/dict/dict.c:226-240 | the chain loop ends with the chains of the two tables after the whole bucket is moved |
| `DictChains.LinkEntry` | naxfw/addons/dict/dict.c:339-351 | the new entry heads its bucket's chain and the other chains stay |
| `DictChains.UnlinkEntry` | naxfw/addons/dict/dict.c:410-429 | the loop with the trailing pointer takes out the first entry with the key and no other, or there is none |
| `DictChains.CutHeads` | naxfw/addons/dict/dict.c:416-421 | making the pointer before an entry skip it removes exactly that entry from the chains |
| `DictOps.NextExp` | naxfw/addons/dict/dict.c:1016-1029 | the smallest exponent, at least 2, whose power holds the size; 63 for sizes at or above LONG_MAX |
| `DictOps.Dict.Expand` | naxfw/addons/dict/dict.c:141-189 | the map is unchanged; the first table, or the second one with a rehash from bucket 0, has the least size that holds the entries asked for; why it is refused |
| `DictOps.Dict.Resize` | naxfw/addons/dict/dict.c:127-138 | shrinking keeps the map and goes to the least table that holds all entries, at least 4; it is refused while rehashing, when resizing is off, or when the table has that size already |
| `DictState.MoveHeadInv` | naxfw/addons/dict/dict.c:227-241 | moving one entry to the new table keeps every table invariant and every lookup |
| `DictState.MoveAllKeeps` | naxfw/addons/dict/dict.c:227-241 | emptying a bucket keeps the invariant and the map, and removes exactly that bucket from the old table |
| `DictOps.Dict.MoveBucket` | naxfw/addons/dict/dict.c:226-242 | one bucket is moved and the rehash position advances past it |
| `DictOps.Dict.SkipEmpty` | naxfw/addons/dict/dict.c:219-225 | a non-empty bucket lies ahead while the old table holds entries, so the inner loop ends inside the table; it passes one bucket per visit used and gives up exactly when the visits are used up |
| `DictOps.Dict.Rehash` | naxfw/addons/dict/dict.c:212-258 | the map is unchanged; at most n buckets move and at most 10n empty ones are passed, and it goes on only after reaching one of the two; it reports whether more remains |
| `DictOps.Dict.RehashStep` | naxfw/addons/dict/dict.c:291-293 | nothing happens while rehashing is paused; otherwise one full and at most ten empty buckets are passed, or the rehash is over, and the map is kept |
| `DictOps.Dict.StepIfRehashing` | naxfw/addons/dict/dict.c:291-293 | an unpaused lookup or change pushes a rehash on by one to eleven buckets or ends it |
| `DictOps.RehashEnds` | naxfw/addons/dict/dict.c:212-293 | any run of unpaused operations ends a rehash: at most as many as the old table has buckets left, and one |
| `DictOps.Dict.ExpandIfNeeded` | naxfw/addons/dict/dict.c:992-1013 | the first table gets four buckets; a table grows to the least size that holds one entry more exactly when it is full, growing is allowed, and resizing is on or it holds more than five entries a bucket; it fails only at 2^60 entries with the state unchanged |
| `DictOps.Dict.Find` | naxfw/addons/dict/dict.c:510-529 | the value the map holds for the key, and nothing otherwise; an unpaused rehash is pushed on |
| `DictOps.Dict.AddRaw` | naxfw/addons/dict/dict.c:323-353 | adds exactly the key when it is absent; otherwise the map is unchanged and the reason is reported; an unpaused rehash is pushed on, and without one no table stays over-full |
| `DictOps.Dict.Add` | naxfw/addons/dict/dict.c:296-305 | succeeds exactly when the key was absent and there is room |
| `DictOps.Dict.Replace` | naxfw/addons/dict/dict.c:360-381 | the map then holds the new value, and the result says whether the key was new |
| `DictOps.Dict.Delete` | naxfw/addons/dict/dict.c:399-433 | removes exactly the key from the union of both tables and returns its value; an unpaused rehash is pushed on |
| `DictEdits.InsertInv` | naxfw/addons/dict/dict.c:338-352 | pushing a new entry keeps one table per key and exact counts |
| `DictEdits.UnlinkInv` | naxfw/addons/dict/dict.c:408-430 | unlinking an entry changes no other lookup |
| `DictEdits.OverwriteInv` | naxfw/addons/dict/dict.c:369-380 | replacing a value changes no other lookup |
| `DictEdits.FinishInv` | naxfw/addons/dict/dict.c:246-253 | swapping in the new table after the last bucket keeps the map |
| `DictScan.ScanCovers` | naxfw/addons/dict/dict.c:893-977 | one call emits an entry at or after the reversed cursor, or leaves it at or after the new non-zero one, with one table or two |
| `DictScan.ScanProgress` | naxfw/addons/dict/dict.c:921-929 | the reversed cursor strictly grows until it is zero |
| `DictScan.ScanSound` | naxfw/addons/dict/dict.c:893-977 | only entries of the dictionary are emitted |
| `DictScan.NotPassed` | naxfw/addons/dict/dict.c:893-977 | over a run, an entry not yet emitted lies at or after the reversed cursor |
| `DictScan.ScanComplete` | naxfw/addons/dict/dict.c:893-977 | a whole scan emits every entry present throughout, whatever happens between the calls |
| `DictScan.LargeLoopEnds` | naxfw/addons/dict/dict.c:953-971 | expanding the larger table's cursors ends at the next cursor of the smaller table |
| `DictScan.ScanTables` | naxfw/addons/dict/dict.c:930-972 | the two-table branch computes the specified cursor and entries |
| `DictScan.BumpCursor` | naxfw/addons/dict/dict.c:922-928 | the step on a 64-bit cursor, through the registers |
| `DictScan.ScanCall` | naxfw/addons/dict/dict.c:893-977 | the loops compute the specified cursor and entries |
| `DictScanOnce.CallOnce` | naxfw/addons/dict/dict.c:893-977 | one call emits no key twice, and only keys of the block its cursor is in |
| `DictScanOnce.SteadyCalls` | naxfw/addons/dict/dict.c:893-977 | a scan of an unchanged dictionary takes one call for each bucket of the smaller table |
| `DictScanOnce.ScanOnce` | naxfw/addons/dict/dict.c:893-977 | a scan of an unchanged dictionary emits each of its keys exactly once, and nothing else |
| `DictIterator.StepLemma` | naxfw/addons/dict/dict.c:596-627 | each call returns one pending entry and leaves exactly the others pending |
| `DictIterator.EditUnnoticed` | naxfw/addons/dict/dict.c:589-638 | an edit that spares the iterator's next entry changes no other key's being pending |
| `DictIterator.IterationExact` | naxfw/addons/dict/dict.c:589-638 | a safe iteration returns every key present from start to finish exactly once |
| `DictIterator.SafeIterator.Next` | naxfw/addons/dict/dict.c:596-627 | one step of the specified iteration; the first call pauses rehashing |
| `DictIterator.SafeIterator.Advance` | naxfw/addons/dict/dict.c:598-626 | the loop finds the specified next entry |
| `AvlTree.SingleRotateLeft` | naxfw/src/avltree.c:239-259 | relinks three nodes into the rotated tree with exact heights |
| `AvlTree.SingleRotateRight` | naxfw/src/avltree.c:261-281 | the mirror rotation |
| `AvlTree.DoubleRotateLeft` | naxfw/src/avltree.c:283-308 | the double rotation in place |
| `AvlTree.DoubleRotateRight` | naxfw/src/avltree.c:310-335 | the mirror double rotation |
| `AvlTree.AvlInsert` | naxfw/src/avltree.c:22-66 | the heap becomes the tree with the node inserted, unchanged where an equal key or the node itself is linked already |
| `AvlModel.InsertBalanced` | naxfw/src/avltree.c:22-66 | insertion keeps balance and exact heights and grows the height by at most one |
| `AvlModel.InsertInorder` | naxfw/src/avltree.c:22-66 | insertion into the tree is insertion into the sorted list |
| `AvlModel.ListInsertContents` | naxfw/src/avltree.c:22-66 | exactly the given node is added, unless an equal key is there |
| `AvlTree.InsertGood` | naxfw/src/avltree.c:22-66 | the result is again ordered and balanced |
| `AvlTree.AvlRemove` | naxfw/src/avltree.c:68-183 | the heap becomes the tree without the matching node, which is reported, or null if there is none; an empty tree leaves the report untouched |
| `AvlModel.RemoveBalanced` | naxfw/src/avltree.c:68-183 | removal keeps balance and exact heights |
| `AvlModel.RemoveInorder` | naxfw/src/avltree.c:68-183 | removal from the tree is removal from the sorted list, and the node found is the node reported |
| `AvlModel.RemoveMin` | naxfw/src/avltree.c:85-95 | taking the successor out of the right side removes its first node |
| `AvlTree.Splice` | naxfw/src/avltree.c:85-95 | the successor takes the place of a node with two children |
| `AvlTree.RemoveGood` | naxfw/src/avltree.c:68-183 | the result is again ordered and balanced |
| `AvlModel.ListRemoveOne` | naxfw/src/avltree.c:68-183 | exactly one node, the matching one, leaves the list |
| `AvlTree.AvlSearch` | naxfw/src/avltree.c:185-207 | finds the member with an equal key, null exactly when there is none, within height + 1 comparisons |
| `AvlTree.AvlGetMin` | naxfw/src/avltree.c:209-225 | the first node in order |
| `AvlModel.SizeBound` | naxfw/src/avltree.c:22-66 | a balanced tree of stored height h has at least Fib(h+3)-1 nodes |
| `ConfigModel.Indexed` | ldr/ldr.c:100-215 | the loader builds one node per member, in order, when names are good and distinct |
| `ConfigModel.FindBoth` | ldr/ldr.c:25-30 | a level of the index and its JSON object answer to a name at the same place |
| `Limits.NameOkIff` | ldr/ldr.c:14-16 | a name is kept whole exactly when it has 1 to 191 characters and none of the ten forbidden ones |
| `Limits.NameShown` | ldr/ldr.c:57-98 | too long a name is cut after 24 characters and marked, one with a forbidden character is dropped |
| `Limits.ValueShown` | ldr/ldr.c:100-215 | a text of 256 characters or more is cut and marked, as a field after 24 and as an array item after 64 |
| `ConfigUpdate.AppendAgrees` | runtime/runtime.c:781-878 | an append, done or failed, leaves the index as the loader would build it |
| `ConfigUpdate.UpdateAgrees` | runtime/runtime.c:289-436 | so does every update and deletion below an archive |
| `ConfigUpdate.UpdateItemAgrees` | runtime/runtime.c:324-382 | an array item's update or deletion keeps labels, size and JSON positions in step |
| `ConfigUpdate.DropItemAgrees` | runtime/runtime.c:79-111 | deleting item k shifts later items, their labels, the size and the JSON positions together |
| `ConfigNames.AgreesIff` | ldr/ldr.c:57-98 | a write, done or failed, agrees with a reload exactly when it deletes or every segment it creates has a name the loader keeps |
| `ConfigNames.LossExample` | ldr/ldr.c:14-16 | a concrete key whose value is read before a reload and not after it |
| `ConfigNames.FailedLossExample` | runtime/runtime.c:781-878 | a concrete write that fails and still leaves an entry a reload loses |
| `ConfigReads.TakenBack` | runtime/runtime.c:1052-1150 | after a write that creates a name the loader refuses and a reload, every plain path answers as before the write |
| `ConfigReads.LostRead` | ldr/ldr.c:57-98 | a successful such write is read at its path before the reload and not after it |
| `ConfigReads.ReadsIff` | ldr/ldr.c:57-98 | every plain path reads the same before and after a reload exactly when the write deletes, does not get done, or creates only names the loader keeps |
| `ConfigLaws.TargetOfPlain` | runtime/runtime.c:944-1050 | a path with plain indices means itself |
| `ConfigLaws.ReadOverWrite` | runtime/runtime.c:1052-1150 | a write that the model does not report failed is read back at the path it means, `$` and `+` included; a write to an object item is reported failed, also where the code answers "no change" |
| `ConfigLaws.Frame` | runtime/runtime.c:1052-1150 | a write, done or failed, changes no other plain path's answer |
| `ConfigLaws.DeleteReads` | runtime/runtime.c:880-939 | after a deletion each plain path answers what the path behind it answered before; paths through the target answer nothing |
| `ConfigLaws.DropItemReads` | runtime/runtime.c:79-111 | items after the deleted one are read one index lower |
| `ConfigRoot.RootKeptIff` | runtime/runtime.c:1052-1150 | after an accepted request every archive's index is the one a reload builds from its JSON exactly when the request creates no name the loader refuses |
| `ConfigRoot.RunAgreesIff` | runtime/runtime.c:1052-1150 | over a run, the tree equals its reload after every request exactly when no request creates such a name in the tree it meets |
| `ConfigRoot.SoundRun` | ldr/ldr.c:57-98 | requests whose own names the loader keeps make such a run from every tree |
| `ConfigRoot.IndexAgrees` | runtime/runtime.c:655-779 | after any such run every read equals the read on the reloaded tree |
| `ConfigRoot.RootReadOverWrite` | runtime/runtime.c:1052-1150 | from the root, a write that the model does not report failed is read back (object items as above) |
| `ConfigRoot.PlainReadOverWrite` | runtime/runtime.c:1052-1150 | a path of plain names and numbers is read back as it was written |
| `ConfigRoot.RootFrame` | runtime/runtime.c:1052-1150 | from the root, every other plain path keeps its answer; only a newly created archive becomes readable |
| `ConfigRoot.RootDelete` | runtime/runtime.c:880-939 | from the root, a deletion removes exactly what lies below its path |
| `ConfigReference.SameIff` | ldr/ldr.c:25-30 | two names are the same exactly when they are equal letter by letter, upper and lower case alike |
| `ConfigReference.SearchReads` | runtime/runtime.c:655-779 | below an archive a read of the index is the read of the JSON: `x[$]` is the last item and `x[?]` the number of items |
| `ConfigReference.RootReads` | runtime/runtime.c:655-779 | the same from the root |
| `ConfigReference.UpdateEnds` | runtime/runtime.c:1052-1150 | below an archive, whether a write gets done, fails or changes nothing, read off the JSON |
| `ConfigReference.RootEnds` | runtime/runtime.c:1052-1150 | the same from the root |
| `ConfigReference.LastItem` | runtime/runtime.c:739-749 | reading, writing and deleting `x[$]` is doing so at the last index |
| `ConfigReference.SearchResolved` | runtime/runtime.c:655-779 | a path reads like the path with `$` replaced by the last index |
| `ConfigReference.UpdateResolved` | runtime/runtime.c:1052-1150 | and writes and deletes like it |
| `ConfigReference.TargetResolved` | runtime/runtime.c:944-1050 | and means the same place |
| `ConfigReference.RootResolved` | runtime/runtime.c:1052-1150 | the three from the root |
| `ConfigOps.ReadPath` | runtime/runtime.c:655-779 | the cursor loop answers what the recursive search defines |
| `ConfigOps.Follow` | runtime/runtime.c:666-774 | one turn of the loop follows a segment, answers or fails |
| `ConfigOps.RemoveItem` | runtime/runtime.c:79-111 | unlinking and relabelling give the list without item k, numbered from 0 |
| `ConfigOps.DeepDelete` | runtime/runtime.c:384-436 | ends, and removes exactly the node from the index and from the JSON, whatever order its children go in |
| `ConfigOps.ClearLevel` | runtime/runtime.c:393-396 | the loop over the children ends with both sides empty |
| `ConfigOps.ClearItems` | runtime/runtime.c:398-405 | the loop over the items empties the array |
| `ConfigWrite.OnwardStep` | runtime/runtime.c:969-1042 | passing a match leads to a well-formed tree, and the update below it, put back around, is the update here |
| `ConfigWrite.RefusedStep` | runtime/runtime.c:989-1039 | where the match loop fails the update leaves everything as it was |
| `ConfigWrite.Reach` | runtime/runtime.c:944-1050 | the cursor stops where the path is matched in full or no further, and the whole update is the update there, put back around |
| `ConfigWrite.AppendAt` | runtime/runtime.c:1117-1145 | appending at the last match, or refusing, is what the update says |
| `ConfigWrite.AppendItemAt` | runtime/runtime.c:1117-1145 | the same for an array that exists |
| `ConfigWrite.DeleteAt` | runtime/runtime.c:880-939 | deleting the matched node or item is what the update says |
| `ConfigWrite.OverwriteAt` | runtime/runtime.c:1093-1104 | updating the matched field or item is what the update says |
| `ConfigWrite.WritePath` | runtime/runtime.c:1052-1150 | match, then append, update or delete, gives the outcome and the tree of the recursive update; an empty value is refused |
| `ConfigWrite.Config.Read` | runtime/runtime.c:655-779 | reading the current tree |
| `ConfigWrite.Config.Write` | runtime/runtime.c:1052-1150 | the new tree, exactly when it is the one a reload builds, and the written value's being readable |
| `RequestPath.SegmentBack` | runtime/request.c:13-165 | a rendered segment is read back with its name, index and kind |
| `RequestPath.SegmentRead` | runtime/request.c:13-165 | a segment that is read obeys the grammar |
| `RequestPath.PathBack` | runtime/request.c:167-268 | rendering a well-formed path and separating it gives the same path |
| `RequestPath.AcceptedKeys` | runtime/request.c:167-268 | every accepted key gives a well-formed path, which its own text gives again |
| `Limits.WellFormedIff` | runtime/request.c:68-268 | a well-formed path has 1 to 10 segments of at most 191 characters, indices of at most 255 or one of four symbols where they may stand, and kinds by place |
| `Limits.SymbolRead` | runtime/request.c:102-108 | each symbol is read as its number, 0x7FFFFF00 and the code of its character |
| `RequestOps.IsArraySyntax` | runtime/request.c:13-66 | the bracket scan classifies a segment as specified |
| `RequestOps.SeparateKey` | runtime/request.c:187-268 | the loop over the dots gives the specified segments |
| `RequestOps.AcceptedIsPath` | runtime/request.c:187-268 | an accepted key is a path the configuration laws apply to |
| `RequestPath.IndexAsWritten` | runtime/request.c:109-122 | an index text is accepted exactly when its number is at most LONG_MAX with its low 32 bits below 256, and names its own number exactly when that is below 256 |
| `RequestPath.NumberedSegment` | runtime/request.c:68-165 | the same for a numbered segment below an archive |
| `RequestPath.NumbersAsWritten` | runtime/request.c:167-268 | an accepted key has one segment per piece, and its indices are the numbers written exactly when all of these are below 256 |
| `RequestOps.WrappedIndex` | runtime/request.c:109-122 | an index of 2^32 is read as 0 |
| `JsonGrammar.QuotedRead` | ldr/cJSON.c:708-834 | every string of section 7 of RFC 8259 (raw characters, the eight short escapes, hexadecimal escapes in either case, surrogate pairs) is read to its end as what it stands for, up to its first NUL |
| `JsonGrammar.SpeltIff` | ldr/cJSON.c:708-834 | a string is read exactly when its characters stand for it; beyond the grammar, raw control characters and wrong hexadecimal digits are accepted as the code does |
| `JsonGrammar.ReadStands` | ldr/cJSON.c:757-812 | nothing is unescaped that does not stand there |
| `JsonGrammar.Utf8Only` | ldr/cJSON.c:648-699 | a code point is written in the one UTF-8 sequence that decodes to it and is no longer than needed |
| `JsonExact.ValueIff` | ldr/cJSON.c:1222-1274 | a value is found, up to its end, exactly when the text denotes it there, nested within the limit |
| `JsonExact.OneMeaning` | ldr/cJSON.c:1222-1274 | a text denotes one value only, and ends at one place |
| `JsonExact.ParseIff` | ldr/cJSON.c:1010-1085 | a whole text is accepted, and gives a tree, exactly when it denotes it nested at most 1000 deep |
| `JsonRoundTrip.StringBack` | ldr/cJSON.c:708-834 | a quoted and escaped string parses to itself, wherever it stands |
| `JsonRoundTrip.ClosingBack` | ldr/cJSON.c:724-745 | the closing quote found is the one that was printed |
| `JsonRoundTrip.UnescapeBack` | ldr/cJSON.c:757-812 | unescaping undoes escaping |
| `JsonRoundTrip.PrintedString` | ldr/cJSON.c:837-956 | a printed string is a string of the grammar that stands for what was printed |
| `JsonRoundTrip.ShortPrinted` | ldr/cJSON.c:908-951 | a character that has a short escape is printed as that one, except the slash |
| `JsonRoundTrip.OtherPrinted` | ldr/cJSON.c:908-951 | other control characters are printed as numbers, all other characters as they are |
| `JsonRoundTrip.PrintedFormats` | ldr/cJSON.c:1468-1706 | where the formatted and the unformatted text have blanks, on a concrete tree |
| `JsonRoundTrip.Printed` | ldr/cJSON.c:1277-1348 | printed text, formatted or not, denotes its value in the grammar |
| `JsonRoundTrip.ValueBack` | ldr/cJSON.c:1222-1274 | text that denotes a value nested within the limit parses to it and stops at its end |
| `JsonRoundTrip.ValueDeep` | ldr/cJSON.c:1351-1362 | text that denotes a value nested too deep is refused |
| `JsonRoundTrip.RoundTrip` | ldr/cJSON.c:1222-1727 | parsing printed text gives the tree back exactly when it is nested at most 1000 deep, and nothing otherwise |
| `JsonGrammar.Utf8Decodes` | ldr/cJSON.c:648-699 | the bytes written for a code point decode to it |
| `JsonRoundTrip.SurrogatesBack` | ldr/cJSON.c:587-646 | a surrogate pair of escapes is read as its code point |
| `JsonRoundTrip.EscapeBack` | ldr/cJSON.c:587-646 | a single escape outside the surrogates is read as its code point |
| `JsonBuffer.EscapedLength` | ldr/cJSON.c:863-888 | the counting loop gives the exact escaped length |
| `JsonBuffer.PrintString` | ldr/cJSON.c:837-956 | the buffer of the computed size is filled exactly with the quoted string |
| `JsonBuffer.WriteEscaped` | ldr/cJSON.c:908-951 | the copying loop writes the escaped characters |
| `JsonBuffer.PrintBuffer.PrintValue` | ldr/cJSON.c:1277-1348 | exactly the value's text is appended |
| `JsonBuffer.PrintBuffer.PrintElements` | ldr/cJSON.c:1468-1492 | the array loop appends the items' text |
| `JsonBuffer.PrintBuffer.PrintAllMembers` | ldr/cJSON.c:1643-1706 | the object loop appends the members' text |
| `JsonRoundTrip.SkipTo` | ldr/cJSON.c:973-991 | every blank and control character is skipped, up to the next visible one |
| `JsonParser.ParseBuffer.SkipWhitespace` | ldr/cJSON.c:973-991 | the cursor stops at the next visible character or the last one |
| `JsonParser.ParseBuffer.ReadString` | ldr/cJSON.c:708-834 | the two loops find and unescape the string |
| `JsonParser.ParseBuffer.ReadValue` | ldr/cJSON.c:1222-1274 | the cursor parser finds what the grammar function defines, and restores the depth |
| `JsonParser.ParseBuffer.ReadElements` | ldr/cJSON.c:1385-1422 | the array loop |
| `JsonParser.ParseBuffer.ReadMembers` | ldr/cJSON.c:1537-1596 | the object loop |
| `JsonParser.ParseText` | ldr/cJSON.c:1010-1085 | parsing a whole text, byte order mark skipped |
| `JsonParser.SaveAndLoad` | ldr/cJSON.c:1222-1727 | printing and parsing through the buffers gives the value back unless it is too deep |
| `JsonList.Children.Add` | ldr/cJSON.c:1858-1884 | the item is linked behind the last child |
| `JsonList.Children.Detach` | ldr/cJSON.c:2085-2113 | the neighbours are joined, the item is left unlinked, the order of the rest is kept |
| `JsonList.Children.Replace` | ldr/cJSON.c:2184-2218 | the replacement takes the item's place; an item that replaces itself stays |
| `JsonList.Children.Get` | ldr/cJSON.c:1753-1770 | the child at a position, or none |
| `FsModel.DirAllocated` | fs/virfs.c:423-453 | a directory is allocated exactly when the name is free, is not `proc`, and a slot is free; the layout stays consistent |
| `FsModel.FileAllocated` | fs/virfs.c:455-486 | the layout stays consistent exactly when the directory is live or the request is turned down |
| `FsModel.FileAllocFails` | fs/virfs.c:455-486 | a file allocation fails exactly on bad arguments, a duplicate name or a full file table, and then changes nothing |
| `FsModel.FileDeleted` | fs/virfs.c:646-667 | deletion succeeds exactly on a live slot; then exactly that slot and its bit are cleared and the layout stays consistent, otherwise nothing changes |
| `FsModel.DirDeleted` | fs/virfs.c:669-697 | a directory goes with exactly its own files, slots and bits; otherwise nothing changes |
| `FsEffects.FileAsked` | fs/virfs.c:455-486 | what a create of a file answers and does, for every request: the first free slot, its id, its bit, or the reason why not |
| `FsEffects.FileMadeAt` | fs/virfs.c:455-486 | a file that is made takes the first free slot, with its bit, its owner and its id |
| `FsEffects.NameFreed` | fs/virfs.c:646-667 | after a deletion the name is free in its directory and a create of it is not refused |
| `FsEffects.FileUndone` | fs/virfs.c:455-667 | making a file and deleting it leaves the layout as it was |
| `FsEffects.DirMadeAt` | fs/virfs.c:423-453 | a directory that is made takes the first free slot i, with the id (i+1)<<16 |
| `FsEffects.DirUndone` | fs/virfs.c:423-697 | making a directory and deleting it leaves the layout as it was |
| `FsModel.SetBitAt` | fs/inner.c:29-52 | setting or clearing a bit leaves every other bit alone |
| `FsModel.RunConsistent` | fs/virfs.c:423-697 | every layout of a run is consistent (mask bits, sections, ids, names and owners) exactly when every file it makes is made in a live directory |
| `FsModel.IdsUnique` | fs/virfs.c:423-486 | no two live entries share an id |
| `FsOps.FileSystem.TakeFreeSection` | fs/inner.c:10-27 | the nested loops take the lowest clear bit |
| `FsOps.FileSystem.SearchDirByName` | fs/inner.c:54-73 | the first live directory with the name |
| `FsOps.FileSystem.SeekFreeDir` | fs/inner.c:75-91 | the first free directory slot |
| `FsOps.FileSystem.SearchFileByName` | fs/inner.c:132-152 | the first file with the name in the directory |
| `FsOps.FileSystem.Mkdir` | fs/virfs.c:423-453 | on the arrays, a new directory stands in the first free slot and nothing else changes, or nothing changes and the code says why |
| `FsOps.FileSystem.Create` | fs/virfs.c:455-486 | on the arrays, a new file stands in the first free slot with its bit and nothing else changes, or nothing changes and the code says why, for every directory id; exactly when the layout stays consistent |
| `FsOps.FileSystem.Unlink` | fs/virfs.c:646-667 | on the arrays, exactly the slot of a live file and its bit are cleared; otherwise nothing changes |
| `FsOps.FileSystem.Rmdir` | fs/virfs.c:669-697 | on the arrays, exactly the directory and its files are cleared; otherwise nothing changes |
| `FsRenumber.KeepsOwners` | fs/virfs.c:759-827 | live directory slot i gets id (i+1)<<16 and every owned file stays with its directory slot |
| `FsRenumber.NewFileIds` | fs/virfs.c:802-818 | when a directory is out of place, every owned live file gets the id made of its directory's new id and its own slot, and no other file changes |
| `FsRenumber.NewIdsApart` | fs/virfs.c:802-818 | no two owned live files get the same id |
| `FsRenumber.NothingToDo` | fs/virfs.c:784-818 | when every directory has the id of its slot nothing changes |
| `FsRenumber.KeepsOwnerIff` | fs/virfs.c:802-818 | a live file keeps its owner slot exactly when it has an owner or its directory id is no live slot's new id |
| `FsRenumber.Idempotent` | fs/virfs.c:766-827 | running it again changes nothing |
| `FsRenumber.OrphanExample` | fs/virfs.c:802-818 | a file without an owner can gain one |
| `FsRenumber.NumberDirs` | fs/virfs.c:784-800 | the first loop numbers the directories and indexes their old ids |
| `FsRenumber.MoveFiles` | fs/virfs.c:802-818 | the second loop gives every owned file its directory's new id |
| `FsRenumber.TearDown` | fs/virfs.c:820-826 | the loop empties the index and takes every node out exactly once |
| `FsRenumber.UpdateSeq` | fs/virfs.c:766-827 | the three loops together renumber both arrays in place as specified |
| `Scheduler.StepKeeps` | pro/order.c:394-581 | every step keeps the invariant |
| `Scheduler.TotalAfter` | pro/order.c:458-581 | each step changes the count of tasks for a link, a request or the token by what enters and leaves |
| `Scheduler.WindowSafety` | ldr/interact.c:127-183 | an open link's window is in 0..20 and equals its admitted, unanswered requests |
| `Scheduler.OneResponse` | pro/order.c:121-158 | each admitted request has been answered once, or one task will answer it, across the hand-off to `recover2` |
| `Scheduler.AllAnswered` | ldr/interact.c:645-661 | when nothing is left to do, every request has had exactly one response and every window is empty |
| `Scheduler.QueueSafety` | pro/order.c:488-581 | `task_pending` is the queue's length, at most 100, and tasks start in the order they were queued |
| `Scheduler.Admission` | ldr/interact.c:127-183 | a request is admitted exactly when fewer than 20 of its link are unanswered, a task queued exactly when fewer than 100 are |
| `Scheduler.HandOffTotal` | fs/checkpoint.c:132-145 | the hand-off neither adds nor loses a response |
| `Scheduler.Reached` | pro/order.c:394-581 | every state reached from the initial one satisfies the invariant |
| `Scheduler.OneFsync` | pro/order.c:219-236 | in every reached state at most one fsync task has not reported completion, and there are at most two in all, two only while one is leaving |
| `Scheduler.FsyncStep` | pro/order.c:219-236 | a step from a state with at most one fsync task leads to one with at most one exactly when it does not ask for an fsync while the counter is 0 and an fsync is leaving |
| `Scheduler.OneFsyncIff` | pro/order.c:219-236 | a run from the initial state has at most one fsync task throughout exactly when it never takes such a step |
| `Scheduler.TwoFsyncs` | fs/virfs.c:640-644 | a run with two fsync tasks at once |
| `SchedulerDrain.ApartAfter` | fs/checkpoint.c:132-145 | in every state reached the disk worker holds no second phase and the protocol worker neither an fsync nor a first phase |
| `SchedulerDrain.NextLess` | pro/order.c:394-581 | while work is left some ordinary step can be taken and leaves less |
| `SchedulerDrain.Drains` | pro/order.c:394-581 | from every such state a run of ordinary steps ends with no work left and no fsync token lost on the way |
| `SchedulerDrain.CanAnswerAll` | ldr/interact.c:645-661 | after it every request admitted has been answered once and every window is empty |
| `RingBuffer.PutQueued` | naxfw/src/cfifo.c:30-40 | the two copies of a put append to the queue |
| `RingBuffer.SameQueue` | naxfw/src/cfifo.c:13-28 | a counter that wraps at 2^32 stands for the same queue |
| `RingBuffer.Ring.Put` | naxfw/src/cfifo.c:30-40 | appends the first min(size, free) bytes |
| `RingBuffer.Ring.Get` | naxfw/src/cfifo.c:87-103 | removes and returns the first min(size, length) bytes; a drained ring restarts at zero |
| `Crc.InitialTable` | naxfw/src/hash.c:87-104 | entry i is the eight-bit division of i |
| `Crc.TableStep` | naxfw/src/hash.c:116-119 | one table step equals feeding one byte bit by bit |
| `Crc.TableCrc` | naxfw/src/hash.c:108-122 | the loop computes the bit-by-bit reflected CRC for every start and input |
| `Crc.Chaining` | naxfw/src/hash.c:108-122 | checksums of non-empty pieces chain |
| `CrcCheck.CheckValue` | naxfw/src/hash.c:87-122 | the checksum of the text 123456789 is 0xCBF43926 |
| `DesTables.Inverse` | naxfw/src/hash.c:546-559 | the two permutation tables undo each other |
| `DesFacts.IpFormula` | naxfw/src/hash.c:546-551 | the initial permutation reads the bits column by column, even columns first |
| `DesFacts.ExpandFormula` | naxfw/src/hash.c:562-567 | each group of six is a group of four with its neighbours |
| `DesFacts.SpreadApart` | naxfw/src/hash.c:570-573 | P uses no bit twice |
| `DesFacts.ParityUnused` | naxfw/src/hash.c:636-641 | the first choice leaves out the eight parity bits and uses no bit twice |
| `DesFacts.Choose2Apart` | naxfw/src/hash.c:644-649 | the second choice uses no bit twice |
| `DesFacts.Choose2Halves` | naxfw/src/hash.c:644-649 | it takes its first 24 bits from the first half and the others from the second |
| `DesFacts.MovesFormula` | naxfw/src/hash.c:652-652 | in which rounds the halves turn by one |
| `DesFacts.HalvesReturn` | naxfw/src/hash.c:701-737 | after the sixteen rounds the key halves are back where they were |
| `DesFacts.RowsPermute` | naxfw/src/hash.c:576-633 | each row of each box is a permutation of 0 to 15 |
| `DesFacts.OneBitTwo` | naxfw/src/hash.c:576-633 | changing one input bit of a box changes at least two output bits |
| `DesFacts.TwoBitsDiffer` | naxfw/src/hash.c:576-633 | changing the two middle bits changes at least two output bits; changing the first two changes the output |
| `DesAnswers.SampleAnswer` | naxfw/src/hash.c:826-951 | key 07A7137045DA2A16 and block 3BDD119049372802 give DFD64A815CAF1A0F |
| `DesAnswers.ZerosAnswer` | naxfw/src/hash.c:826-951 | the key and the block of zeros give 8CA64DE9C1B123A7 |
| `DesComplement.MixBlind` | naxfw/src/hash.c:838-846 | the round function gives the same for half and key complemented |
| `DesComplement.EncryptedComplement` | naxfw/src/hash.c:895-921 | complementing key and data complements the ciphertext |
| `Des.SubstituteInPlace` | naxfw/src/hash.c:802-823 | the S boxes' output never overtakes the input still to be read |
| `Des.RoundsUndone` | naxfw/src/hash.c:826-891 | the rounds with the subkeys reversed and the last swap left out undo the rounds |
| `Des.ThroughUndone` | naxfw/src/hash.c:826-891 | decrypting a block undoes encrypting it |
| `Des.MakeSubKeys` | naxfw/src/hash.c:728-737 | the loop gives the sixteen specified subkeys |
| `Des.RoundInPlace` | naxfw/src/hash.c:838-851 | a round through the in-place boxes is the specified round |
| `Des.EncryptBlock` | naxfw/src/hash.c:826-857 | the sixteen rounds in key order |
| `Des.DecryptBlock` | naxfw/src/hash.c:860-891 | the sixteen rounds in the opposite order |
| `Des.Crypt` | naxfw/src/hash.c:895-951 | block by block; an input that is empty or not whole blocks is refused |
| `Des.DecryptUndoes` | naxfw/src/hash.c:895-951 | decryption undoes encryption for every key and every input of whole blocks |

## Left out

- Sockets, threads, locks, memory mapping, file reads and writes, logging, clocks and argument parsing: input and output only.
- JSON numbers: printing and reading them rests on the C library's floating point; the parser model refuses a text that starts a number.
- Memory exhaustion, and the growth of the print buffer up to INT_MAX: the model's buffers are as long as needed.
- The AVL tree inside every level of the configuration tree: a level is modelled as a list searched by name, which is what the tree module proves its trees to be.
- ConfigOps.DeepDelete: works on values, like `ConfigOps.RemoveItem` and `ConfigWrite.WritePath`, so aliasing between a node and its JSON item is not captured; the JSON item of a node is found by its name.
- ConfigUpdate.UpdateItem: an object item's label text, which a deletion before it leaves out of date and a reload renews, is not part of the model; a write of exactly that text is reported failed where the code answers "no change". The tree is unchanged either way.
- Files whose JSON root is not an object, and array items that are neither objects nor strings: the loader gives them no proper node.
- File contents and sizes on disk, `fs_override_file`, synchronisation and checkpoints, apart from the response hand-off.
- Enumeration of directories and files by the loader, which skips a match in the last slot.
- End-to-end recovery, fsync liveness and flush durability: failed fsyncs never return their token, which the scheduler model counts as leaked.
- Scheduler: worker threads' stop and the publication of changes to subscribers.
- `cJSON_Minify`, raw items, references and the other list edits of cJSON.
- Request heads and payload lines, which only cut the text before the keys are read.
- DictScan.ScanCall: the callback only records what it is given, so a callback that edits the dictionary during a call is not modelled; edits between calls are.
- DictOps.Dict: holds its tables as values with a sequence per bucket; the `next` pointers are the subject of `DictChains`, whose loops work on the arrays of the two tables and are not called from the class.
- JsonParser.ParseText: a text that starts a number is refused, as in `JsonParser.ParseBuffer.ReadValue`.
- Hash-table statistics, random sampling, fingerprints, unsafe iterators and the hash function itself, which is a parameter.
- Base64, MD5, SHA-256, pools and allocators of the support library.
