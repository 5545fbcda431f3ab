# Verified models of the p-kernel's crash safety, locking and wire protocols

A Dafny 4.11 project that models the parts of the system whose correctness is hard to see from
the code, and proves what the code and its documentation promise about them. `dafny verify
dfyconfig.toml` checks everything; there is nothing to execute.

| files | component |
|---|---|
| `ArkFormat`, `ArkLog`, `ArkCrash`, `ArkLibrary`, `Ark` | ARK, the log-structured filesystem (`arch/common/arkfs.c`): records, the two-pass mount, every operation, power loss after any sector write |
| `ArkSession`, `ArkRuns`, `ArkFiles`, `ArkLedger` | whole runs of calls, compactions, formats and power losses: crash atomicity, the files users see, and the versions of a path |
| `ArkRoom` | which calls fit: the result code of every call |
| `ArkCompaction`, `ArkSweep`, `ArkFresh` | compaction under crash, its check of the directory tree, and format |
| `ArkLimits`, `ArkIncidents` | exactly when a new log is shown, and histories in which the code does not keep its promises |
| `ArkDamage`, `ArkHistory` | damaged sectors; old versions |
| `ArkTree`, `ArkMerkle`, `ArkPath` | the Merkle directory tree and its paths |
| `ArkIndex`, `ArkLayout` | the linear-probing block index, the byte layouts |
| `Bkl` | the Big Kernel Lock and the reschedule decision (`arch/aarch64/smp.c`) |
| `WorkQueue` | the fork/join work queue (`arch/aarch64/mc2_smp.c`) |
| `Pipeline` | the semaphore ring (`arch/common/pipeline.c`) |
| `Relay`, `RelayMac`, `Sha256`, `TcpFrame` | the relay's packet gate, signatures, hashing and framing (`relay/`) |
| `FloorChain` | the tighten-only rule chain (`arch/common/conscience.c`) |
| `Fold` | the order-fixed fold (`arch/common/dkva.c`) |

## How the models are built

**ARK.** A medium is a sequence of sectors, each readable or not. `Ark.Volume` is the file-static
state of `arkfs.c` with its operations as methods. Its ghost field `shots` holds the medium after
every single sector write since the start, so a power loss is "continue from any shot". The class
invariant says that every shot is recoverable, and each operation says which libraries (table, tree
root, index) the shots it adds show: the one before the call or the one after it, nothing else.
The device may refuse any write; a ghost counter of refused writes lets a contract say that a call fails for want of room, on a refused write, or not at all (`ArkRoom`). `ArkRuns` is the step relation of whole runs (a call, a compaction, a
format, a power loss at any medium so far, in any order), with methods that perform each kind of step
on a volume; `ArkFiles` follows the files users see through such a run, as a map from paths to contents, and `ArkLedger` the versions of one path.

A `Format` bundles hash, checksum and encoders as function values. What the theorems ask of it is that
decoding undoes encoding and that the hash is collision free (`FormatOk`). `ArkLayout.LayoutOk` proves
this of the packed little-endian layout of the source, for every collision-free 32-unit hash and every
32-bit checksum. Storage units are bytes or whole digests, because no function into 32 bytes is
collision free; `ArkLayout.WholeLayoutOk` names such a hash, so no theorem is about nothing.

Two assumptions of the code are explicit. *Resync* (arkfs.c:649-656): no zero-padded payload sector a call
writes decodes as a commit header of the current epoch. It is a condition on the payloads actually
written (`Quiet` for blocks, `RowsQuiet` for commits), and it says nothing about which contents those are:
`ArkLayout.PlainQuiet` shows that only a sector beginning with the record magic can break it, and
`ArkIncidents.ResyncAssumptionNeeded` is a history in which it is broken and the promise fails. *Free epoch*:
compaction and format stamp the epoch after the current one, so no commit of that epoch may lie on the
medium. `ArkLimits.SwitchShownIff` and `ArkLimits.FormatShownIff` say exactly when the new log is what
mount shows; `ArkIncidents` has histories in which it is not; `ArkRuns.PremisesMet` gives the invariant under
which it always is, which a run loses only by a power loss (or an abort) inside a compaction.

**Concurrency.** `Bkl`, `WorkQueue` and `Pipeline` are state machines whose steps are single loads,
stores, semaphore calls or row computations of one CPU or thread; the theorems quantify over all
finite interleavings of any number of them, under sequential consistency. In `Bkl` the flag `atomic`
chooses between the code as written, with `g_bkl_depth = 0` stored after the raw unlock
(smp.c:593-594), and the same code with smp.c:592-594 as one step. With single stores mutual
exclusion and the reschedule guard hold for non-nested use; that the depth word equals the nesting
does not, and `Bkl.LateStoreStrandsLock` is a run after which both CPUs are outside and the lock is
taken; `Bkl.StrandedForever` proves that it stays taken in every continuation without nesting.
`Bkl.ReleaseFreesIff` says when a release frees the lock. With the three stores in one step nesting and idling inside the lock are allowed and the depth is exact.

**Where code and comments disagree, the model follows the code.** The comment on `mpath_split` says a
trailing slash is refused; the code accepts one (`ArkPath.SplitExact`). `tcp_reasm_next` returns 0
both for "no frame yet" and for an empty frame (`TcpFrame.EmptyFrameStalls`), so the reader returns the
packets sent if and only if none is empty (`TcpFrame.Receive`). A comment on the end of `ark_compact` says that
after a failed superblock write the old superblock still points at the intact old log; if the primary
copy was written and the replica was not, it does not, and the next calls overwrite the log that it
points at (`ArkIncidents.HalfSwitchLosesAll`). `ark_format` bumps the epoch so that no
old record is ever replayed; with an unreadable sector 0, or after an interrupted compaction, they are
(`ArkIncidents.FormatRestoresOld`, `ArkIncidents.FormatShowsStale`). The check of the directory tree before a
compaction skips a directory whose id it has met as file content (`ArkIncidents.SweepLooksAway`). A rule of class 0 in front of the others switches refusals off
(`FloorChain.ClassZeroBlinds`).

## Model

| member | source | states |
|---|---|---|
| `ArkFormat.SectorsLeast` | arch/common/arkfs.c:332-340 | a payload takes as many sectors as hold it and no more |
| `ArkFormat.BumpWraps` | arch/common/arkfs.c:345-365 | sequence numbers and epochs count modulo 2^32 |
| `ArkLog.ReadRec` | arch/common/arkfs.c:391-443 | a record is read only under a header of this epoch that fits the log; a payload reported good is the stored bytes and hashes to the header's id |
| `ArkLog.ReadRecIff` | arch/common/arkfs.c:391-443 | when read_record accepts a header (of this epoch, verifying, payload within its buffer and in front of the replica) and when it calls the payload good (readable, checksum and hash as in the header) |
| `ArkLog.MountFinds` | arch/common/arkfs.c:660-708 | on a sound log the two mount passes yield exactly the fold of the records up to the last commit |
| `ArkLog.CommittedInv` | arch/common/arkfs.c:641-656 | what a mount keeps is again a sound log; the rolled-back tail holds no commit |
| `ArkCrash.EmitStep` | arch/common/arkfs.c:332-369 | after any number of sectors of a new record, written zero-padded as the code does, the medium holds a sound log, the old one or the old one with the record, whatever stale data lay there |
| `ArkCrash.LandedWhole` | arch/common/arkfs.c:340-369 | a completely written record reads back |
| `ArkCrash.RemountYields` | arch/common/arkfs.c:624-710 | remounting a recoverable medium gives head, index, table and root of the log up to its last landed commit |
| `ArkCrash.SuperIff` | arch/common/arkfs.c:572-589 | the superblock found is the primary copy if it decodes with version 3 and 512-byte sectors, else the replica if that does |
| `ArkCrash.ForeignInv` | arch/common/arkfs.c:1096-1108 | records of another epoch written in front of or behind the log leave it alone |
| `ArkLibrary.CrashRecovery` | arch/common/arkfs.c:624-710 | on every recoverable medium a remount succeeds, shows the library of the last landed commit, and every indexed block, in particular every block a row names, reads back with bytes that hash to its id |
| `ArkLibrary.AppendKeeps` | arch/common/arkfs.c:332-369 | an append, complete or failed at any sector, keeps memory and medium in agreement up to one record that landed unreported |
| `ArkLibrary.VolumeReads` | arch/common/arkfs.c:739-754 | a block in the index of a mounted volume reads back as exactly the bytes put |
| `ArkLibrary.BlockGetIff` | arch/common/arkfs.c:739-754 | ark_block_get returns bytes exactly if the id is indexed and a block record with those bytes passing both tests stands there; NOTFOUND exactly for ids not indexed, else CORRUPT |
| `ArkLibrary.VolumeFile` | arch/common/arkfs.c:1340-1352 | a file whose blocks are indexed reads back as exactly the bytes written |
| `ArkLibrary.PutRowOk` | arch/common/arkfs.c:1314-1329 | the table after a write is well-formed, names only indexed blocks, keeps every other row, and its row is a file of the written size listing the ids of the written chunks |
| `ArkLibrary.FindRow` | arch/common/arkfs.c:520-525 | the first row of a name, or none |
| `Ark.Volume.DevWrite` | arch/common/arkfs.c:315-317 | one sector written, or an error, counted, and nothing changed |
| `Ark.Volume.WriteSectors` | arch/common/arkfs.c:352-364 | the write loop lands a prefix of the image, sector by sector |
| `Ark.Volume.Emit` | arch/common/arkfs.c:332-369 | full exactly when the record does not fit, IO exactly when the device refused a sector; head and sequence number move exactly when every sector landed |
| `Ark.Volume.EmitLive` | arch/common/arkfs.c:332-369 | the log in memory and on the medium after the landed sectors |
| `Ark.Volume.Append` | arch/common/arkfs.c:332-369 | every medium passed shows the library without the record or with it |
| `Ark.Volume.StoreNew` | arch/common/arkfs.c:727-736 | a new block: appended and indexed; FULL exactly when log or index have no room for it |
| `Ark.Volume.BlockPut` | arch/common/arkfs.c:718-737 | TOOBIG, OK or FULL exactly as size, index and room say, unless the device refuses a write; a known block costs nothing; on success the block is indexed; earlier locations stay; nothing becomes visible before a commit |
| `Ark.Volume.CommitLive` | arch/common/arkfs.c:497-514 | succeeds exactly if the commit fits, unless the device refuses a write; on success the live table and root are durable, otherwise the old ones; every medium passed shows one of the two; without a refused write the log ends with both copies of the commit, or has no room for the second |
| `Ark.Volume.Checkpoint` | arch/common/arkfs.c:763-767 | makes everything put so far durable, with the result codes and the two copies of CommitLive |
| `Ark.Volume.PutBlocks` | arch/common/arkfs.c:1306-1312 | succeeds exactly if the sectors and index rows of the blocks not stored yet, each counted once, fit; all chunks are then indexed, invisibly |
| `Ark.Volume.Publish` | arch/common/arkfs.c:1331-1332 | the common end of every mutation: new table and root, then the commit |
| `Ark.Volume.WriteBlocks` | arch/common/arkfs.c:1299-1317 | the checks of a write, its blocks, and room for its row; any code but OK is the one WriteFile promises |
| `Ark.Volume.WriteFile` | arch/common/arkfs.c:1297-1333 | the exact code: INVAL for long names, TOOBIG above 16 blocks, else OK if and only if new blocks, row and commit fit, or IO after a refused write; on success the file reads back, its row is one version up, all is durable, in two copies if they fit; a power loss at any sector shows the library before or after the call; only blocks and commits of the new table are added to the log |
| `Ark.Volume.Mkdir` | arch/common/arkfs.c:1390-1402 | INVAL exactly for long or existing names, OK exactly if row and commit fit, unless a write is refused; one directory row more, atomically |
| `Ark.Volume.Unlink` | arch/common/arkfs.c:1404-1413 | NOTFOUND exactly for unknown names, OK exactly if the commit fits, unless a write is refused; one row of the path is gone, with unique names the path is no longer found, the others keep their order, atomically |
| `Ark.Volume.Pass1` | arch/common/arkfs.c:660-679 | the sector just past the last commit that verifies |
| `Ark.Volume.Pass2` | arch/common/arkfs.c:681-703 | the index and live state of the accepted region |
| `Ark.Volume.Mount` | arch/common/arkfs.c:624-710 | any medium: superblock or replica, then the two passes; CORRUPT exactly when neither copy is valid |
| `Ark.Volume.Remount` | arch/common/arkfs.c:624-710 | on a recoverable medium the volume is valid again, shows the last landed commit and holds the records up to it |
| `Ark.Volume.PowerCut` | arch/common/arkfs.c:1546-1554 | power loss after any sector write ever made, then a mount: a valid volume with exactly the library that medium shows, holding exactly its records up to the last landed commit |
| `Ark.Volume.ResetState` | arch/common/arkfs.c:531-540 | an empty volume at the start of its log |
| `Ark.Volume.FormatSupers` | arch/common/arkfs.c:561-568 | how many of the two superblock copies landed, fewer than both only after a refused write, and the medium after each |
| `Ark.Volume.FirstCommit` | arch/common/arkfs.c:614-619 | the code, the sectors of the initial commit, and the log after any number of them |
| `Ark.Volume.FormatDisk` | arch/common/arkfs.c:591-622 | INVAL below four sectors, else OK exactly if the first commit fits, unless a write is refused; the exact medium a success leaves; if no commit of the new epoch lies on the medium, every medium passed shows the empty library, a success is a sound empty volume, and later epochs stay free |
| `ArkFresh.FormatDone` | arch/common/arkfs.c:591-622 | with the new epoch free, supers and first commit keep every medium empty and recoverable, at every sector |
| `ArkFresh.FormatStops` | arch/common/arkfs.c:612-613 | the same for a format that fails on a superblock copy |
| `ArkLimits.FormatShownIff` | arch/common/arkfs.c:598-619 | what mount accepts after a successful format is its own empty log if and only if scanning the space behind it, as it was before, meets no commit of the epoch stamped; then the library shown is empty |
| `ArkIncidents.FormatRestoresOld` | arch/common/arkfs.c:598-607 | a volume whose sector 0 has become unreadable: format stamps epoch 1 again, leaves the old medium sector for sector, and mount shows the old tree |
| `ArkIncidents.FormatShowsStale` | arch/common/arkfs.c:598-607 | format, put, compact, a compaction cut before its switch, format: the second format stamps the epoch of the interrupted attempt and mount shows the old tree |
| `ArkSession.Call` | arch/common/arkfs.c:718-1413 | any file, block or tree call: what it may do to table, root and index, what success means, that every medium passed shows the library before or after it, and that success is durable |
| `ArkRuns.DoCall` | arch/common/arkfs.c:718-1413 | a call performs a step of a run and keeps the invariant of runs |
| `ArkRuns.DoCompact` | arch/common/arkfs.c:1121-1291 | so does a compaction of a settled volume whose next epoch is free |
| `ArkRuns.DoFormat` | arch/common/arkfs.c:591-622 | so does a format onto a free epoch |
| `ArkRuns.DoPowerLoss` | arch/common/arkfs.c:624-710 | so does a power loss at any medium of the run so far, followed by a mount |
| `ArkRuns.RunKeeps` | arch/common/arkfs.c:1546-1554 | in every state of every run of calls, compactions, formats and power losses every medium so far is recoverable and shows the root of a stored tree, and a mounted volume is sound |
| `ArkRuns.RunAtomic` | arch/common/arkfs.c:1546-1554 | in every run every medium after every sector write mounts and shows exactly the library of the last acknowledged commit or the one being committed, after an acknowledgement the latter only, the empty library only from a format; every block it names reads back; and the durable library of a mounted state is that of the last acknowledged call, compaction or format, or the one a power loss since has mounted |
| `ArkRuns.AckedShown` | arch/common/arkfs.c:497-514 | a power loss after an acknowledged commit, while the volume is idle, shows its library |
| `ArkRuns.PremisesMet` | arch/common/arkfs.c:1096-1101 | where the account of the run says so (no compaction cut since the last switch or format, nothing written that imitates a later epoch) the next epoch is free, so compaction and format may run |
| `ArkRuns.FreshTree` | arch/common/arkfs.c:531-540 | a fresh filesystem starts with the empty tree |
| `ArkRuns.ShownTreeLoads` | arch/common/arkfs.c:817-836 | on every medium of a run the root node of the shown tree loads as its entries |
| `ArkFiles.OpShows` | arch/common/arkfs.c:1297-1413 | a call does to the file table what it does to a map from paths to files and directories: a write sets the bytes, a mkdir a directory, an unlink takes the path out; a failed call does that or nothing |
| `ArkFiles.RepresentsOne` | arch/common/arkfs.c:500-525 | a table stands for one such map only |
| `ArkFiles.RunFiles` | arch/common/arkfs.c:1297-1413 | in every run the map is computed call by call; a power loss leaves one of two maps of its medium, for an idle volume that of the last acknowledged commit; in every mounted state ark_read_file answers every path by the map: the bytes, or NOTFOUND for directories and unknown paths; and every medium shows one of its two maps |
| `ArkFiles.ReadNow` | arch/common/arkfs.c:1354-1377 | the same as a contract of ark_read_file at any mounted state of a run |
| `ArkFiles.CallThenRead` | arch/common/arkfs.c:1297-1413 | any call and then a read of any path: after OK the answer of the changed map, so the bytes just written, NOTFOUND for a directory just made or a path just removed |
| `ArkLedger.OpKeepsVersions` | arch/common/arkfs.c:1297-1413 | any call other than removing the path keeps its versions and adds at most the one it writes, in memory and at every sector |
| `ArkLedger.RunBooks` | arch/common/arkfs.c:1297-1515 | the books of a path, kept along any run from the first format on, are true of memory and of every medium |
| `ArkLedger.RunVersions` | arch/common/arkfs.c:1354-1515 | in every mounted state of every run in which the path is not unlinked, each acknowledged version that no power loss or compaction took back reads as exactly the bytes written and is listed; whatever is listed was written by some call, with its size; the current file reads as the bytes of its version |
| `ArkLedger.RunHistoryExact` | arch/common/arkfs.c:1463-1491 | if no call failed half way, power failed only while idle and nothing was compacted, the history lists exactly the acknowledged versions, each once, in increasing order |
| `ArkLedger.ReadHeld` | arch/common/arkfs.c:1495-1515 | the same as a contract: reading an acknowledged version at any mounted state of a run returns its bytes |
| `ArkLedger.RunDamage` | arch/common/arkfs.c:1340-1377 | damage to any sectors after any power loss of any run: mount succeeds and reads of the path give bytes some call of the run wrote under it, by version the bytes of that version, or an error |
| `ArkCompaction.MountUnmoved` | arch/common/arkfs.c:641-708 | on any medium, damaged or not, rewriting sectors outside the accepted log moves no mount as long as no commit of the epoch verifies behind it |
| `ArkCompaction.MountIndexed` | arch/common/arkfs.c:681-703 | any mount leaves an index that points at headers carrying the id, inside the accepted log |
| `ArkCompaction.RewriteStep` | arch/common/arkfs.c:1226-1248 | each sector of the new log is invisible to the old epoch; each complete record joins the new log |
| `ArkCompaction.RewriteUnmoved` | arch/common/arkfs.c:1096-1108 | whatever has been rewritten so far, behind the log or in front of it, the mount is as before |
| `ArkCompaction.Switched` | arch/common/arkfs.c:1276-1290 | the new superblock makes the complete new log the mounted one |
| `ArkCompaction.CompactedShows` | arch/common/arkfs.c:1154-1191 | the new log shows the same table and root, and each readable block with the same bytes |
| `ArkCompaction.VolMounted` | arch/common/arkfs.c:1121-1125 | a sound volume whose last append succeeded is a state compaction may start from |
| `ArkCompaction.FaultIff` | arch/common/arkfs.c:389-425 | a read fault is the header sector, or behind a good header a payload sector, that the device does not return |
| `Ark.Volume.LiveReadable` | arch/common/arkfs.c:1127-1150 | true exactly when every block a row names still reads |
| `Ark.Volume.Survey` | arch/common/arkfs.c:1167-1191 | the blocks that still read, each once, their number, and the sectors they take; IO exactly if the device cannot read some indexed record |
| `Ark.Volume.EmitNew` | arch/common/arkfs.c:1238-1240 | one record of the new log, confined to the free region; FULL exactly if it does not fit there |
| `Ark.Volume.CopyOne` | arch/common/arkfs.c:1226-1242 | a block is copied exactly when it still reads; FULL only if it does not fit, IO only after a refused write or a read fault |
| `Ark.Volume.CopyBlocks` | arch/common/arkfs.c:1225-1250 | the new log indexes exactly the readable blocks, takes exactly their sectors, and their number is the one the dry pass counted; FULL only if all of them do not fit |
| `Ark.Volume.SealNew` | arch/common/arkfs.c:1260-1263 | the new log ends in a commit of the live table and root, in two copies unless the second does not fit or is refused |
| `Ark.Volume.WritePass` | arch/common/arkfs.c:1210-1263 | the write pass as a whole, the media it passes, and when it may fail with which code |
| `Ark.Volume.Switch` | arch/common/arkfs.c:1275-1290 | after either superblock copy the medium shows the compacted library |
| `Ark.Volume.SwitchOver` | arch/common/arkfs.c:1273-1291 | the switch, the restored memory after a failed one, the remount after a complete one |
| `Ark.Volume.CompactInto` | arch/common/arkfs.c:1208-1291 | write pass and switch into a chosen region |
| `Ark.Volume.Compact` | arch/common/arkfs.c:1121-1291 | the exact code, if commits of one table have one size: CORRUPT if a block of the table does not read, the verdict of the tree check, IO on a read fault, else OK if and only if the blocks that read and a commit fit behind the log or in front of it, or IO after a refused write; power loss at any sector: the complete old library or the complete compacted one; success keeps table, root and the bytes of every readable block, and all of the directory tree if the tree check covers it; after a failure memory is as it was, and a sound volume is still sound if and only if the primary superblock was not rewritten |
| `ArkSweep.SweepTree` | arch/common/arkfs.c:1044-1069 | the tree check is the walk in queue order: each id counted and read at its first meeting, a directory entered only if it is first met as one, the caps, the verdict |
| `ArkSweep.SweepOkIff` | arch/common/arkfs.c:1044-1069 | OK if and only if the walk over the tree stays within its caps and every block it meets reads; CORRUPT only if some block of the tree does not read; FULL only if a cap is passed |
| `ArkSweep.OkMeansIntactIff` | arch/common/arkfs.c:1057-1065 | a verdict of OK means on every medium that the whole tree reads if and only if the walk passes its caps, or each directory is entered (first met as a directory, and not among the blocks of the file table) or has all its entries met elsewhere |
| `ArkIncidents.SweepLooksAway` | arch/common/arkfs.c:1057-1065 | format, put of a file with the bytes of the node of b, put of b/a, and rot in the block of b/a: the check says OK and b/a does not read |
| `ArkSweep.TreeSurvives` | arch/common/arkfs.c:1151-1157 | a tree all of whose blocks read is, after a successful compaction, the tree of the new library with every block in the store |
| `ArkLimits.SwitchShownIff` | arch/common/arkfs.c:1214 | a log written under a new epoch is what mount shows if and only if scanning the space behind it, as it was before, meets no commit of that epoch |
| `ArkIncidents.StaleCompactionWins` | arch/common/arkfs.c:1214 | format, an uncommitted block, a compaction cut before its switch, a remount, a tree put and a successful compaction (its index walk meeting the content before the node): mount then shows the empty tree of the interrupted attempt |
| `ArkIncidents.HalfSwitchLosesAll` | arch/common/arkfs.c:1276-1284 | format, put, a compaction that fails on the replica superblock, and one more acknowledged put of contents not stored yet: after a restart neither tree is there |
| `ArkIncidents.ResyncAssumptionNeeded` | arch/common/arkfs.c:649-656 | format, a block put whose payload spells a commit record, power loss, checkpoint: mount shows the root the block spelled |
| `ArkDamage.DamagedMount` | arch/common/arkfs.c:624-710 | with any sectors damaged, in the log, in front of it, behind it or a superblock copy, mount shows the last commit that is still intact, as long as the superblock is found and the damage has forged no commit |
| `ArkDamage.OneSuperSuffices` | arch/common/arkfs.c:624-640 | one intact superblock copy is enough to find the superblock |
| `ArkDamage.LaidResyncs` | arch/common/arkfs.c:649-656 | payloads none of whose chunks imitates a header, however the sector goes on, make the log resynchronise |
| `ArkDamage.OneCopySuffices` | arch/common/arkfs.c:482-508 | damage that spares one of the two copies of the last commit leaves table and root unchanged, whatever blocks stand behind them |
| `ArkDamage.MountGenuine` | arch/common/arkfs.c:739-754 | on any medium a block read through the mounted index has the bytes of its id, or fails |
| `ArkDamage.DamagedReads` | arch/common/arkfs.c:1340-1377 | mounted on a damaged medium, reading a path by version gives the bytes written as that version or an error, and reading the file, with its fall back to older versions, gives bytes written under that path or an error |
| `ArkDamage.DecayedReads` | arch/common/arkfs.c:1340-1377 | the same for damage under a mounted volume |
| `Ark.Volume.ReadDentBlocks` | arch/common/arkfs.c:1340-1352 | the blocks of a row in order, or the first failure |
| `Ark.Volume.ReadFile` | arch/common/arkfs.c:1354-1377 | the current version; if it does not read, the newest older one that does, all between failing; if none does, the first error |
| `ArkHistory.SoundRead` | arch/common/arkfs.c:1354-1377 | on a sound volume reading a file returns the bytes of the write that minted its live version |
| `Ark.Volume.ReadVersion` | arch/common/arkfs.c:1495-1515 | the row of the first commit that holds this version of the path |
| `Ark.Volume.History` | arch/common/arkfs.c:1463-1491 | the first rows of the listing of versions |
| `ArkHistory.MintKeepsVersions` | arch/common/arkfs.c:1297-1333 | a write adds one version to the chronicle of its path and changes none, in memory and after a power loss at any sector |
| `ArkHistory.OthersKeepVersions` | arch/common/arkfs.c:1390-1413 | calls that leave the row alone leave the chronicle alone, at every sector |
| `ArkHistory.RemountChronicle` | arch/common/arkfs.c:624-710 | a remount loses nothing of a chronicle |
| `ArkHistory.EmptyChronicle` | arch/common/arkfs.c:591-622 | after a format every path has an empty chronicle |
| `ArkHistory.WriteFollows` | arch/common/arkfs.c:1314-1329 | a write keeps every other row, and its own row is the next version with the written ids and size |
| `ArkHistory.UnlinkFollows` | arch/common/arkfs.c:1404-1413 | unlinking another path keeps the row |
| `ArkHistory.RemovedRow` | arch/common/arkfs.c:1408-1412 | the table is the old one with one row of the path taken out, the rest in order; with unique names the path is no longer in it |
| `ArkHistory.AppendFollows` | arch/common/arkfs.c:1390-1402 | a new directory row keeps all others |
| `ArkHistory.VersionReadsBack` | arch/common/arkfs.c:1495-1515 | every version that any commit of the log holds reads back as the bytes of the write that minted it |
| `ArkHistory.HeldReads` | arch/common/arkfs.c:1495-1515 | every version some commit of the log holds reads back as the bytes of the write that minted it |
| `ArkHistory.HistoryExact` | arch/common/arkfs.c:1463-1491 | the listing holds each version of the path exactly once, in increasing order, with its size, and nothing else |
| `ArkHistory.HistoryHolds` | arch/common/arkfs.c:1463-1491 | the listing holds a version if and only if some commit of the log does, each once, in increasing order, with the size of its bytes |
| `ArkTree.PutLooks` | arch/common/arkfs.c:873-948 | a put changes the lookup of its own path and of no other, and keeps the tree well-formed |
| `ArkTree.PutIff` | arch/common/arkfs.c:886-936 | a put is blocked exactly if a file stands where the path needs a directory or a directory where it needs a file; full exactly if, with nothing in the way, a directory on the path has 46 entries and not the one needed |
| `ArkTree.SameTree` | arch/common/arkfs.c:834-850 | well-formed directories with the same lookups are the same tree |
| `ArkTree.InsertAscends` | arch/common/arkfs.c:840-850 | a new name at its place keeps the order |
| `ArkTree.LessIff` | arch/common/arkfs.c:786-791 | names are ordered by the first byte that differs, a prefix before what it begins |
| `ArkTree.Place` | arch/common/arkfs.c:845-847 | where the sort puts a key |
| `ArkTree.IndexOf` | arch/common/arkfs.c:852-853 | the first entry of a name, or none |
| `ArkMerkle.RootInjective` | arch/common/arkfs.c:769-781 | equal root ids are equal trees |
| `ArkMerkle.RootIsContents` | arch/common/arkfs.c:834-868 | the root id is a function of the tree's contents: equal exactly when all lookups agree, whatever the order of insertion |
| `ArkMerkle.NodeRewrite` | arch/common/arkfs.c:904-940 | append or replace, then sort, gives the node of the changed tree, and fails exactly when the directory is full |
| `ArkMerkle.LoadIff` | arch/common/arkfs.c:817-836 | mnode_load gives the empty directory for the zero id, else the entries of a block that reads and decodes to at most 46; NOTFOUND exactly for ids not stored, else CORRUPT |
| `ArkMerkle.LoadReads` | arch/common/arkfs.c:817-836 | on a sound volume every node of a stored tree loads as its entries |
| `ArkMerkle.Sink` | arch/common/arkfs.c:843-848 | the inner loop of the sort |
| `ArkMerkle.MentSort` | arch/common/arkfs.c:840-850 | the in-place sort is insertion at the right place, entry by entry |
| `Ark.Volume.MnodeEmit` | arch/common/arkfs.c:857-868 | the sorted node is stored under its hash; FULL only without room for a block |
| `Ark.Volume.Descend` | arch/common/arkfs.c:886-903 | the entries of every directory on the path; INVAL exactly when a file blocks it |
| `Ark.Volume.Ascend` | arch/common/arkfs.c:905-941 | the nodes rewritten bottom-up are those of the tree with the path put; INVAL only if the put is blocked, FULL only if a directory or the log is full, IO only after a refused write |
| `Ark.Volume.StoreNodes` | arch/common/arkfs.c:886-941 | the way down and the way up of a put whose content is stored, with their codes |
| `Ark.Volume.MtreeStore` | arch/common/arkfs.c:885-941 | content and nodes of a put stored, invisibly until the commit, with their codes |
| `Ark.Volume.MtreePut` | arch/common/arkfs.c:873-948 | on success the volume holds the tree with this one path changed, durably; at every sector the old root or the new one; with room for the content, a node per component and a commit, OK, INVAL or FULL exactly as the tree says, or IO after a refused write |
| `Ark.Volume.MtreeGet` | arch/common/arkfs.c:950-976 | exactly the lookup of the tree |
| `ArkPath.SplitPath` | arch/common/arkfs.c:793-812 | the components of a path, or INVAL |
| `ArkPath.SplitExact` | arch/common/arkfs.c:793-812 | a path splits into given components exactly when it spells them, with or without one leading and one trailing slash |
| `ArkPath.SplitNames` | arch/common/arkfs.c:793-812 | whatever C string is accepted, its components are names of the tree |
| `ArkPath.PutPath` | arch/common/arkfs.c:873-948 | put on a path string |
| `ArkPath.GetPath` | arch/common/arkfs.c:950-976 | get on a path string |
| `ArkPath.PutThenGet` | arch/common/arkfs.c:873-976 | put on one spelling, get on another: the new bytes exactly if both spell the same path, otherwise what was there |
| `ArkIndex.BlockIndex.constructor` | arch/common/arkfs.c:300-306 | an empty index, capped by medium and pool |
| `ArkIndex.BlockIndex.Find` | arch/common/arkfs.c:264-274 | finds an id exactly when the map holds it, with its location |
| `ArkIndex.BlockIndex.Add` | arch/common/arkfs.c:276-292 | the map gains the pair unless the id is known or the cap is reached; for any hash |
| `ArkIndex.Missing` | arch/common/arkfs.c:264-274 | a probe that meets an empty row or goes around missed nothing |
| `ArkIndex.NewRow` | arch/common/arkfs.c:281-287 | an insertion breaks no probe chain |
| `ArkIndex.FirstLocationWins` | arch/common/arkfs.c:276-292 | after any insertions up to the cap each id has the location of its first insertion |
| `ArkIndex.AllInserted` | arch/common/arkfs.c:276-292 | and the ids are exactly those inserted |
| `ArkLayout.LayoutSound` | arch/common/arkfs.c:67-148 | the layouts of superblock, header and commit decode what they encode, for any 32-byte hash and 32-bit checksum |
| `ArkLayout.HdrRoundTrip` | arch/common/arkfs.c:77-86 | the 60-byte record header |
| `ArkLayout.SuperRoundTrip` | arch/common/arkfs.c:67-75 | the 32-byte superblock |
| `ArkLayout.DentRoundTrip` | arch/common/arkfs.c:121-129 | the 592-byte directory row |
| `ArkLayout.CommitRoundTrip` | arch/common/arkfs.c:449-481 | a commit parses as the table and root serialised |
| `ArkLayout.NodeRoundTrip` | arch/common/arkfs.c:817-868 | a tree node of up to 46 entries fits a block and loads as it was emitted |
| `ArkLayout.HdrIff` | arch/common/arkfs.c:391-402 | a sector is taken for a record header exactly if it begins with the magic and its checksum holds |
| `ArkLayout.SuperCopyIff` | arch/common/arkfs.c:572-589 | a sector is taken for a superblock exactly if it begins with its magic and its checksum holds |
| `ArkLayout.RowsParsed` | arch/common/arkfs.c:468-480 | however many rows a payload declares, those parsed are at most 32 and lie in it whole |
| `ArkLayout.NodeIff` | arch/common/arkfs.c:817-836 | a node declares at most 46 entries, all in its block |
| `ArkLayout.LayoutOk` | arch/common/arkfs.c:67-156 | with any collision-free 32-unit hash that never gives the zero id, the layouts of the source meet every assumption made of formats and tree nodes |
| `ArkLayout.WholeLayoutOk` | arch/common/arkfs.c:67-156 | such a hash exists in the model, so the assumptions are consistent |
| `ArkLayout.PlainQuiet` | arch/common/arkfs.c:399-400 | contents are quiet unless one of their sectors begins with the record magic |
| `ArkLayout.PlainUnlike` | arch/common/arkfs.c:399-400 | contents whose sectors begin with another byte than the record magic imitate no header, however the sector goes on |
| `ArkLayout.EmptyTableQuiet` | arch/common/arkfs.c:449-466 | the commit of an empty table is always quiet |
| `ArkLayout.LowestFirst` | arch/common/arkfs.c:67-86 | numbers lie on the medium lowest byte first |
| `ArkLayout.LayoutEven` | arch/common/arkfs.c:449-466 | on the layout of the source commits of one table do have one size |
| `Bkl.RunInv` | arch/aarch64/smp.c:501-646 | every state of every interleaving satisfies the lock invariant |
| `Bkl.MutualExclusion` | arch/aarch64/smp.c:501-599 | no two CPUs are ever inside the lock |
| `Bkl.OwnerTellsTruth` | arch/aarch64/smp.c:559-599 | wherever a CPU can take an interrupt it holds the raw lock exactly when the owner word names it |
| `Bkl.SwitchesIffDue` | arch/aarch64/smp.c:680-746 | on the way out of an interrupt a CPU switches, and uses up its request, if and only if one is pending, it does not hold the raw lock, and a different, existing task is to run on a busy CPU with dispatching allowed; otherwise it goes on where it was with its request kept |
| `Bkl.IrqReturns` | arch/aarch64/smp.c:680-746 | that step is always possible |
| `Bkl.PendingExact` | arch/aarch64/smp.c:345-353 | a request is set by a resched interrupt of that CPU, used up by a due switch or on the way out of idling, and touched by nothing else |
| `Bkl.OnlySpinWaits` | arch/aarch64/smp.c:501-646 | the only wait is the test-and-set while another CPU holds the lock |
| `Bkl.MaskRestored` | arch/aarch64/smp.c:501-599 | the lock code saves the interrupt mask, masks, and restores what it saved |
| `Bkl.ReadyGrows` | arch/aarch64/smp.c:944-950 | a push puts its task at the end of the list while there is room for it; nothing else changes the list |
| `Bkl.PullRotates` | arch/aarch64/smp.c:955-969 | a pull claims the task it stands at and moves the head behind it |
| `Bkl.PulledOnce` | arch/aarch64/smp.c:955-969 | no task is handed out twice |
| `Bkl.NullMeansClaimed` | arch/aarch64/smp.c:955-969 | a pull gives up only when every task on the list is claimed |
| `Bkl.CounterExact` | arch/aarch64/smp.c:987-1000 | the shared counter is the number of completed increments |
| `Bkl.DepthIsNesting` | arch/aarch64/smp.c:586-599 | with smp.c:592-594 in one step, the depth word is the nesting of the CPU inside |
| `Bkl.IdleKeepsNesting` | arch/aarch64/smp.c:616-628 | an idling CPU does not hold the lock and its nesting is kept aside |
| `Bkl.NestUnmoved` | arch/aarch64/smp.c:630-646 | sleeping and waking never change the nesting, so the lock comes back to the same depth |
| `Bkl.ReleaseFreesIff` | arch/aarch64/smp.c:586-599 | with single stores the depth word at a release is 0 or 1, and the release frees the lock exactly when it is 1, that is when no late store of 0 hit it since the lock was taken |
| `Bkl.LateStoreStrandsLock` | arch/aarch64/smp.c:592-594 | a run of two CPUs after which both are outside and the lock stays taken |
| `Bkl.StrandedForever` | arch/aarch64/smp.c:586-599 | once stranded the lock stays taken by the same CPU in every continuation without nesting |
| `WorkQueue.Partition` | arch/aarch64/mc2_smp.c:212-229 | every row lies in exactly one slice |
| `WorkQueue.NextInv` | arch/aarch64/mc2_smp.c:333-354 | every step of primary or helper keeps the protocol invariant |
| `WorkQueue.ReturnRows` | arch/aarch64/mc2_smp.c:489-553 | at a return every row of a slice that has a CPU was computed exactly once, every other row not at all |
| `WorkQueue.ParallelEqualsSerial` | arch/aarch64/mc2_smp.c:489-553 | with a CPU for every slice the buffer is what the serial loop leaves, after any number of dispatches |
| `WorkQueue.TooWideLosesRows` | arch/aarch64/mc2_smp.c:489-553 | with more slices than CPUs the last row is never computed |
| `WorkQueue.QuietAfterReturn` | arch/aarch64/mc2_smp.c:527-546 | after a return no helper is still at work |
| `WorkQueue.StepShrinks` | arch/aarch64/mc2_smp.c:489-553 | inside a call every step of primary or helper lowers a bound on the steps left |
| `WorkQueue.CallReturns` | arch/aarch64/mc2_smp.c:489-553 | so in every interleaving a call returns within that many steps |
| `WorkQueue.NeverStuck` | arch/aarch64/mc2_smp.c:489-553 | and until it has returned some step is possible |
| `WorkQueue.SerialIffSmall` | arch/aarch64/mc2_smp.c:489-505 | the caller computes alone exactly for a width of at most one or fewer than 64 rows |
| `Pipeline.RunInv` | arch/common/pipeline.c:37-95 | every interleaving keeps the slot, lock and order invariants |
| `Pipeline.PoppedIsPrefix` | arch/common/pipeline.c:56-95 | popped frames are a prefix of pushed frames, in lock order |
| `Pipeline.NoOverwrite` | arch/common/pipeline.c:56-73 | no unread slot is overwritten |
| `Pipeline.NoEmptyRead` | arch/common/pipeline.c:79-95 | a consumer reads the oldest unread frame |
| `Pipeline.SemaphoreBounds` | arch/common/pipeline.c:37-50 | no semaphore passes its maximum, and one thread at a time is in a critical section |
| `Pipeline.Conservation` | arch/common/pipeline.c:56-95 | with nobody under way, pushed is popped plus what the data semaphore counts |
| `Pipeline.OnlyLockWaits` | arch/common/pipeline.c:56-95 | inside a push or pop the only wait is for the lock |
| `Pipeline.NeverStuck` | arch/common/pipeline.c:56-95 | while some thread is under way, some thread can step |
| `Pipeline.FindsRoom` | arch/common/pipeline.c:56-95 | with nobody under way a push finds space exactly if fewer than 16 frames are unread, a pop data exactly if one is |
| `Pipeline.FramesKept` | arch/common/pipeline.c:56-95 | a push puts in the frame it was called with, a pop returns the frame it took out |
| `Relay.WindowIsSet` | relay/relay.c:401-430 | the 64-bit window accepts a nonce by the rule over the set of accepted nonces, and then stands for one more |
| `Relay.SlotsInjective` | relay/relay.c:86-99 | different slots belong to different ids |
| `Relay.ParseRanges` | relay/relay.c:307-343 | wide packets carry 16-bit ids, all others 8-bit ids |
| `Relay.ParseIff` | relay/relay.c:307-343 | a packet parses to given fields exactly if it spells them, byte by byte |
| `Relay.KeyBytes` | relay/relay.c:318-339 | source and nonce of a signed packet are its bytes 6, 8 if it is of version 3, and 12 to 19, and nothing else |
| `Relay.Server.constructor` | relay/relay.c:77-83 | an empty relay |
| `Relay.Server.SlotOf` | relay/relay.c:86-99 | ids keep their slot for good; a new wide id takes the next one; refusals exactly as stated |
| `Relay.Server.ReplayCheck` | relay/relay.c:401-430 | accepts exactly fresh nonces of slots 1 and up |
| `Relay.Server.EvictStale` | relay/relay.c:464-474 | of the nodes in use exactly those idle for longer than the limit lose their route, never their window, and nothing else changes |
| `Relay.Server.TcpConnClose` | relay/relay.c:615-630 | exactly the routes over the closed connection go, windows stay |
| `Relay.Server.LeasePick` | relay/relay.c:502-511 | the id this address already leases, else the smallest free one, else 0 |
| `Relay.Server.HandleLease` | relay/relay.c:560-585 | asking again gives the same id; its entry is the address asking; no other entry changes; 0 only if all 255 ids are taken by others |
| `Relay.Server.Admit` | relay/relay.c:806-830 | a signed packet is admitted exactly when its nonce is fresh for its id and the id has or gets a slot |
| `Relay.Server.ProcessPacket` | relay/relay.c:786-890 | unsigned packets never pass in secure mode; a signed packet with a source is acted on exactly when fresh, and never twice, and what is recorded are its own bytes of source and nonce; a signed packet without a source is a lease request or dropped; what becomes of every table entry |
| `Relay.Server.Serve` | relay/relay.c:786-890 | over any run with evictions, leases and closed connections, of all packets with the same signed source and nonce, as bytes on the wire, at most one is acted on, and ids keep their slots |
| `RelayMac.ComputeMac` | relay/relay.c:347-388 | the first 16 bytes of HMAC over preamble and payload |
| `RelayMac.SignedBytes` | relay/relay.c:347-362 | what is signed are bytes of the packet itself: version to destination, nonce, for version 3 the high id bytes, and everything behind the signature |
| `RelayMac.MacInputInjective` | relay/relay.c:347-362 | the signed bytes determine version, type, source, destination, nonce and payload |
| `Sha256.Ctx.constructor` | relay/sha256.c:65-73 | a fresh context stands for the empty message |
| `Sha256.Ctx.Update` | relay/sha256.c:75-91 | any piece extends the message by exactly that piece |
| `Sha256.Ctx.Final` | relay/sha256.c:93-111 | the digest of the padded message (sections 5.1.1 and 6.2.2 of FIPS 180-4) |
| `Sha256.HashParts` | relay/sha256.c:65-111 | however a message is cut, the digest is that of the whole |
| `Sha256.OneShot` | relay/sha256.c:113-119 | the one-shot hash is the same digest |
| `Sha256.PaddedWhole` | relay/sha256.c:93-103 | a padded message is whole blocks |
| `Sha256.PaddedIff` | relay/sha256.c:93-103 | the padding is the one of section 5.1.1 of FIPS 180-4: a one bit, zeros, the length in bits highest byte first in the last eight bytes, no block more than needed |
| `Sha256.WordsValue` | relay/sha256.c:105-110 | the digest spells the words of the state in order, highest byte first |
| `Sha256.InitialState` | relay/sha256.c:65-73 | the initial words are the fractional parts of the square roots of the first eight primes (section 5.3.3 of FIPS 180-4) |
| `Sha256.HmacSha256` | relay/sha256.c:121-155 | HMAC of section 2 of RFC 2104, truncated |
| `Sha256.HmacBlocks` | relay/sha256.c:134-155 | the inner hash begins with the key xor 0x36 in each byte of a block, the outer with the key xor 0x5c, padded with those bytes |
| `Sha256.HmacLongKey` | relay/sha256.c:130-133 | a key longer than a block counts as its digest |
| `Sha256.XorBit` | relay/sha256.c:139-142 | each bit of the exclusive or is set where exactly one of the two is |
| `TcpFrame.Encode` | relay/tcp_frame.h:45-53 | the packet behind its length, high byte first, or -1 above 65535 bytes |
| `TcpFrame.Reasm.Push` | relay/tcp_frame.h:58-66 | appends as much as fits |
| `TcpFrame.Reasm.Next` | relay/tcp_frame.h:76-88 | -1 exactly for a frame announcing more than the cap; a whole frame in front is taken out, its packet returned; else nothing moves |
| `TcpFrame.Reasm.Drain` | relay/relay.c:1217-1230 | pops every complete frame |
| `TcpFrame.Receive` | relay/relay.c:1206-1233 | for every list of packets of at most 1416 bytes and every cut into reads of at most 2048 bytes, exactly that list comes out and no byte is refused, if and only if no packet is empty |
| `TcpFrame.DrainStream` | relay/tcp_frame.h:68-88 | whole frames and a part of the next drain to exactly the packets and the part |
| `TcpFrame.DrainDies` | relay/tcp_frame.h:76-88 | a frame announcing more than the cap kills the drain behind the packets before it |
| `TcpFrame.EmptyFrameStalls` | relay/tcp_frame.h:76-88 | an empty frame makes the drain stop before the packets behind it |
| `FloorChain.FloorRuleIn` | arch/common/conscience.c:159-170 | true exactly when the blob holds the rule as a floor rule |
| `FloorChain.FloorHasClass` | arch/common/conscience.c:173-179 | true exactly when it has a floor rule of the class |
| `FloorChain.CarriesAll` | arch/common/conscience.c:237-243 | true exactly when every floor rule is carried |
| `FloorChain.LawBlobOk` | arch/common/conscience.c:185-206 | every structural and genesis condition, spelled out |
| `FloorChain.LawWalkVerify` | arch/common/conscience.c:224-254 | the walk, block by block |
| `FloorChain.WalkIffChain` | arch/common/conscience.c:224-254 | the verifier accepts exactly the heads of content-linked, tightening chains of at most 33 blocks |
| `FloorChain.HeadKeepsAncestors` | arch/common/conscience.c:236-244 | the head keeps the floor rules of every ancestor |
| `FloorChain.HeadKeepsGenesis` | arch/common/conscience.c:199-205 | and of the compiled-in genesis |
| `FloorChain.CsContains` | arch/common/conscience.c:51-60 | true exactly if the pattern is found |
| `FloorChain.ContainsIff` | arch/common/conscience.c:45-60 | a pattern is found exactly if, not empty, it occurs in the text up to the case of ASCII letters, and up to nothing else |
| `FloorChain.FoldedMatches` | arch/common/conscience.c:454-458 | a folded pattern matches exactly the texts the pattern matches |
| `FloorChain.LexiconScanOne` | arch/common/conscience.c:321-336 | the class of the first rule that matches |
| `FloorChain.RefusedIff` | arch/common/conscience.c:321-336 | a text is refused exactly when the first rule it matches has a class |
| `FloorChain.RefusalsStay` | arch/common/conscience.c:321-373 | with no rule of class 0 in front of the genesis rules, whatever the genesis refuses the head refuses |
| `FloorChain.AmendKeepsFront` | arch/common/conscience.c:436-470 | the genesis is in that shape and an amendment of any class keeps it |
| `FloorChain.ClassZeroBlinds` | arch/common/conscience.c:321-336 | an accepted head with a class-0 rule in front lets through a text the genesis refuses |
| `FloorChain.AmendTightens` | arch/common/conscience.c:436-470 | an amendment keeps all rules in place, so nothing refused is allowed again |
| `FloorChain.AmendmentStays` | arch/common/conscience.c:236-244 | an amendment is never taken back: every later accepted head carries its rule |
| `FloorChain.AmendScans` | arch/common/conscience.c:436-458 | after an amendment a text gets the class of the rules before, and where none of them matches the new class exactly if the pattern occurs in it |
| `FloorChain.AmendVerifies` | arch/common/conscience.c:436-480 | a stored amendment of an accepted head is accepted, unless the chain is at its longest |
| `FloorChain.Conscience.LawVerify` | arch/common/conscience.c:256-281 | yes exactly if nothing is persisted or the persisted chain walks; the floor is then its head or the genesis, and carries every genesis rule |
| `FloorChain.Conscience.ConscienceCheck` | arch/common/conscience.c:340-373 | FAILSAFE exactly if the floor at hand, or where nothing was verified yet the persisted chain, is not accepted; else REFUSE exactly if either field gets a class; never allows a field the genesis refuses while no class 0 stands in front of the genesis rules |
| `FloorChain.Conscience.LawAmend` | arch/common/conscience.c:436-480 | the store is asked exactly when floor, pattern, room and laws allow it; once it has the new head, the call succeeds if the old floor heads a stored chain of at most 32 blocks; a success is a verified chain whose head is the old floor with the new rule behind it, and then every text gets the class of AmendScans |
| `Fold.Requester.Offer` | arch/common/dkva.c:701-747 | the first packet of each source and kind is kept, others are ignored |
| `Fold.Requester.Accumulate` | arch/common/dkva.c:239-250 | one packet added component by component |
| `Fold.Requester.Finish` | arch/common/dkva.c:306-318 | self, then ids ascending, partial before summary, each once |
| `Fold.Infer` | arch/common/dkva.c:695-778 | the totals are the fixed-order fold of the contributions that arrived |
| `Fold.OrderFree` | arch/common/dkva.c:265-280 | for any addition the totals depend only on which contributions arrived |
| `Fold.FixedOrder` | arch/common/dkva.c:306-318 | the contributions are added each once, by ascending id, the partial of a node before its summary |
| `Fold.HierarchyIsExact` | arch/common/dkva.c:629-638 | over exact numbers folding region summaries gives the total of folding every node |
| `Fold.EveryNodeOnce` | arch/common/dkva.c:695-747 | over exact numbers the totals count every live node once, whatever arrived besides from the requester itself and as a summary from its own coordinator |
| `Fold.ExpectCore` | arch/common/dkva.c:364-392 | who is waited for, exactly, with one summary per confirmed region, and the three counts |

## Left out

- Ark.Volume.Compact: requires that no commit of the next epoch lies on the medium and that what it writes is quiet; the exact condition is ArkLimits.SwitchShownIff, the invariant under which it holds ArkRuns.PremisesMet, a history that breaks it ArkIncidents.StaleCompactionWins.
- Ark.Volume.FormatDisk: promises the empty library only onto a free epoch; the exact condition is ArkLimits.FormatShownIff, histories that break it ArkIncidents.FormatRestoresOld and ArkIncidents.FormatShowsStale.
- ArkRuns.DoCompact: from a settled volume, one whose last append did not fail half way; after a half switch the run goes on only with a power loss or a format.
- Ark.Volume.WriteFile: requires quiet payloads, the resync assumption of arkfs.c:649-656, for the chunks and for the commit; path names are C strings.
- Ark.Volume.Append: requires a quiet payload, for the same reason.
- Ark.Volume.PutBlocks: requires quiet chunks, for the same reason.
- Ark.Volume.CommitLive: requires that the commit it writes is quiet; so do Checkpoint, Publish, Mkdir and Unlink.
- Ark.Volume.MtreePut: requires that content, nodes and commit are quiet; so do MnodeEmit, Ascend and MtreeStore for what they write. Its code is exact where a node of full size for each component would fit; it may succeed with less room, because nodes already stored cost nothing.
- ArkSweep.SweepTree: the footprint mtree_collect adds up is overwritten by the survey and not modelled; that OK does not always mean an intact tree is ArkSweep.OkMeansIntactIff.
- Ark.Volume.ReadFile: returns whole files; the cut at the caller's buffer size is not modelled.
- Ark.Volume.BlockPut: requires a quiet payload; keeps the index as a map, ArkIndex.BlockIndex is the table that refines it.
- The guard for an unmounted volume, NULL arguments, and read errors that come and go: a sector is readable or not for the whole life of a medium.
- Media of 2^32 sectors or more: sector arithmetic is unbounded, sequence and epoch counters wrap at 2^32.
- ArkLedger.RunVersions: for paths not unlinked and version counters below 2^32 - 1; a compaction keeps the live version only, as the source says.
- ArkDamage.DamagedMount: damaged sectors of the log become unreadable or fail as headers and payload; damage that forges a header in the log or a commit behind it is excluded, and the payloads must not imitate headers.
- ark_readdir, ark_mtree_list, ark_stat, ark_version, self-tests and shell commands: listing and output.
- Bkl.MutualExclusion: sequential consistency, interrupt entry in one step; GIC programming, PSCI bring-up and the assembly dispatcher are not modelled.
- Bkl.DepthIsNesting: only with smp.c:592-594 in one step; with single stores it is false (Bkl.LateStoreStrandsLock).
- WorkQueue.ParallelEqualsSerial: every join ends by count; the watchdog that gives up a join is not modelled, and the queue lock is one step.
- Pipeline.RunInv: the statistics counters, and pushes and pops that return at once.
- Relay.Server.ProcessPacket: stops at forwarding; sockets, delay queue, keepalive echoes and logging are plumbing.
- Relay.WindowIsSet: the 64-bit window word is its 64 bits; nonces are natural numbers (RelayMac bounds them by 2^64).
- Sha256.Ctx.Final: over any compression function; the rounds themselves are not modelled.
- FloorChain.LawWalkVerify: a pattern is its declared bytes; blobs whose declared pattern length passes the 56-byte field are not modelled. The genesis is any floor of 21 classed rules, not the literal list.
- FloorChain.Conscience.ConscienceCheck: counters, logging and the body coupling of a refusal.
- Fold.HierarchyIsExact: over reals, one component; each component of the vectors is folded by itself.
- The coordinator's own aggregation, deadlines and the degraded report of dkva.c.
- Everything else in the repository: drivers, learning and inference arithmetic, the job queue, single-branch policies.
