# A verified model of the PFS3 write path

PFS3 is the Professional File System of the Amiga; libpfs3 reads, writes, formats and checks it. This
project models the write path of libpfs3 and the readers that must agree with it, and proves that they do.

The model is layered.

- `Ownership.dfy`, `Transitions.dfy`, `Guarantees.dfy`: a volume as finite maps (anode table, directory
  blocks, free sets) with one invariant over chains, ownership, names, contents and the directory tree, and
  the steps that keep it.
- `Bitmap.dfy`, `Anodes.dfy`, `Table.dfy`, `Runs.dfy`, `Overlay.dfy`, `Layout.dfy`, `Sectors.dfy`,
  `Directory.dfy`, `Steps.dfy`: how bitmap words, index and anode blocks, staged writes, sectors and
  directory entries represent those maps.
- `Compose.dfy`, `Outcomes.dfy`, `Overwriting.dfy`, `Renaming.dfy`, `LongNames.dfy`: whole operations as
  compositions of steps,
  and what they leave behind when names or anode numbers clash.
- `Writer.dfy`: the `Writer` class, its fields updated in place as in the source, every operation proved
  against the map of names a user sees. `History.dfy` keeps the log of committed operations and states what
  holds over every run. `Image.dfy` says what a device at rest holds, `Format.dfy` that formatting
  establishes it.
- `Codec.dfy`, `DirBlocks.dfy`, `Records.dfy`, `Bits.dfy`, `Words.dfy`: the byte formats, `ByteLayout.dfy` what is
  where, offset by offset, and `Refine.dfy`: every staged write in
  bytes refines the same write in the typed block. `OneDevice.dfy`: root cluster, reserved blocks and data as
  sectors of one disk, `DiskBytes.dfy`: formatting and committing on it, `ByteReader.dfy`:
  reading it. `Cache.dfy`: the block cache. `Reader.dfy`,
  `Counting.dfy`: file and bitmap readers. `Descent.dfy`: on which volumes the checker's descent ends.
  `Check.dfy`: the tree scan, with `Certify.dfy` proving what it says of every volume the writer leaves.
  `Scenarios.dfy`: runs on freshly formatted disks. `Calendar.dfy`: dates.

`Writer.Valid()` is the invariant between operations: the device, read through the index, holds exactly the
anode table and the directories; both bitmaps in memory equal the blocks on the device; both counters equal
the number of set bits; each data block is free or on exactly one chain; each reserved block is free, a
directory block or a system block, and lies between the root cluster and the data area; each name denotes
exactly what its chain reads as; every directory is reachable from the root; the names are what the logged
operations made of the names at the start. Formatting and opening establish it. Every operation requires it and
says exactly when it succeeds. When it succeeds, and none of the cases below applies, it establishes the
invariant again and adds itself to the log; when it fails, its contract says what the device holds.

Where the code does not do what its interface suggests, the model follows the code and states exactly when
the promise holds:

- Anodes allocated in one transaction get different numbers only as long as they number at most the vacant
  slots in committed anode blocks plus one, because the index is read from the device only. A chain built from
  more runs has a head that points at itself (`Runs.ChainReadsBackIff`, `Steps.OverfullExample`). A directory
  that has to grow needs one anode more: with one too many, its new block takes the anode of the new file or
  directory, and the directory lists itself. So a new file reads back, and a new directory is empty, exactly
  when the anodes of both together are few enough (`Writer.CreateFile`, `Writer.MakeDir`); a grown file runs
  into a loop otherwise (`Writer.Overwrite`).
- Nothing looks whether a name is in use when a directory is made, or a file written over a directory: then
  its directory lists the name twice. The volume has a consistent reading exactly when the name was unused and
  the anode numbers suffice (`Writer.MakeDir`, `Writer.CreateFile`; `Scenarios.MakeTwice` on every disk that
  can be formatted).
- Names are cut at 107 bytes where an entry is built, but looked up in full: writing or renaming to a longer
  name never finds what it is about to double (`Writer.WriteFile`, `Writer.Rename`).
- An overwrite records sizes from 2^32 on only if the entry already has the extended size field
  (`Directory.PatchedSizeIff`, `Overwriting.RecordedIff`).
- A failed data allocation has cleared every bit while the free counter keeps its value
  (`Writer.AllocDataBlocks`); no block in use becomes free.
- A growing overwrite that fails has already overwritten the old blocks (`Writer.Overwrite`): the file reads as
  before exactly when its old contents are a prefix of the new data (`Overwriting.HalfNamesIff`;
  `Scenarios.FailsHalfway` on every disk that can be formatted).
- A rename onto the same name loses the object (`Writer.Rename`). A directory moved into itself becomes
  unreachable (`Renaming.MoveReachableIff`; `Scenarios.MoveIntoItself` on every disk that can be formatted).
- A rename deletes its target before it writes the new entry. That entry finds room, unless the source has
  2^32 bytes or more and the target's entry lacks the extended size field, or entries were shorter than the
  writer builds them (`Renaming.ReplaceFits`); `Writer.Rename` states the exact condition.
- The scan of the checker does not end when a directory it enters, at a path with a trailing slash, leads back
  to itself by directory entries with empty names, and in no other case (`Descent.EndsIffNoCycle`).

## Model

| member | source | states |
|---|---|---|
| WriterModel.Writer.WriteFile | crates/libpfs3/src/writer.rs:132-144 | Overwrites what the name denotes if that is a file, otherwise creates a file under the first 107 bytes of the name. It succeeds exactly when the resources needed are there. The metadata then has a consistent reading if and only if all anodes needed get different numbers and the name created was unused; in that case exactly one name changed and denotes the data, an existing file keeping its head, a new one getting a head no object has. A new head reads back as the data exactly when the numbers differ; an existing chain otherwise runs into an anode that points at itself. Under a name in use, where the parent has room or the numbers suffice, the name is listed twice. On success the entry carries the date. On failure nothing visible changed, or the old blocks of the file hold the start of the data and it reads as that, as long as it was. |
| WriterModel.Writer.CreateFile | crates/libpfs3/src/writer.rs:147-170 | Under the first 107 bytes of the name. Succeeds exactly when free blocks, vacant slots and reserved blocks suffice. The new head then leads to data blocks that hold exactly the bytes given if and only if the anodes needed, one more for a directory that has to grow, get different numbers; otherwise the head points at itself, or its anode has become that of the directory's new block. The metadata has a consistent reading if and only if they do and the name was unused, and then every other name is unchanged and the whole invariant holds again; under a name in use the directory lists the name twice. In every case each anode there was but the directory's last keeps its record, and the sectors hold what every existing name reads as. The entry carries the date. On failure device metadata and root cluster are untouched. |
| WriterModel.Writer.NameFile | crates/libpfs3/src/writer.rs:168-170 | Naming a chain just built and committing: succeeds exactly when the entry finds room; the name denotes the data, nothing else changes. |
| WriterModel.Writer.MakeDir | crates/libpfs3/src/writer.rs:173-186 | Under the first 107 bytes of the name. Succeeds exactly when reserved blocks and slots suffice. The new directory then lists nothing if and only if the anodes needed get different numbers; otherwise it lists itself, its anode having become that of its parent's new block. The metadata has a consistent reading if and only if they do and the name was unused, and then nothing else changes; under a name in use the parent lists the name twice. In every case each anode there was but the parent's last keeps its record, and no sector changes. The entry carries the date. On failure nothing visible changes. |
| WriterModel.Writer.Overwrite | crates/libpfs3/src/writer.rs:316-386 | Same-size, shrinking and growing overwrites, length 0 included. It succeeds exactly when the blocks the file lacks, and anodes for them, are available; with anode numbers enough the file keeps its head and reads back as the data (as far as the entry can record its size), every other name is unchanged; with too many runs its chain ends in an anode that points at itself, the metadata has no consistent reading, and each anode there was but its last keeps its record. The entry then carries the new date. After a failure every old block holds the new data, the file reads as the start of the data, as long as it was, and every other name as before. |
| WriterModel.Writer.ShrinkFile | crates/libpfs3/src/writer.rs:360-386 | Cutting the chain, patching the entry and committing leaves a consistent volume with only this file changed. |
| WriterModel.Writer.GrowFile | crates/libpfs3/src/writer.rs:363-386 | Allocating, filling and appending more blocks: succeeds exactly when they and their anodes are available; with too many runs the chain of the file never ends, and each anode there was but its last keeps its record; after a failure device metadata and root cluster are as they were, the old blocks hold the start of the data, and every other file is unchanged. |
| WriterModel.Writer.RecordGrowth | crates/libpfs3/src/writer.rs:383-386 | Recording the new size of an extended file completes a consistent volume. |
| WriterModel.Writer.Delete | crates/libpfs3/src/writer.rs:633-657 | NotFound exactly when the name is unused, NotEmpty exactly when it denotes a directory with entries, both changing nothing; otherwise exactly this name is gone and the invariant holds again, so all its blocks are free. |
| WriterModel.Writer.RemoveFile | crates/libpfs3/src/writer.rs:648-657 | Freeing the blocks, clearing the anodes and removing the entry removes exactly this name and restores the invariant, so every block of the file is free again. |
| WriterModel.Writer.RemoveEmptyDir | crates/libpfs3/src/writer.rs:641-656 | Giving back the blocks and anodes of an empty directory and removing its entry removes exactly this name and restores the invariant. |
| WriterModel.Writer.Rename | crates/libpfs3/src/writer.rs:595-630 | Succeeds exactly when on the volume without the target there is room for the entry, which is always so where directory blocks are filled as the writer fills them and the source is below 2^32 bytes or the target's entry has the extended size field. NotEmpty exactly when the target is a non-empty directory, NotFound when the source is missing. Between different names: the new name denotes the same chain with the same contents, the old name is gone, a replaced target is gone, everything else is unchanged, the new name being kept to its first 107 bytes; a directory moved into itself leaves names and chains like any other move, and no route leads to it any more; after a failure the device still holds a whole volume, missing at most the target. Onto the same name, ignoring case, the object is lost, whatever the result. When the name is cut and what is left is in use by another object, the directory lists it twice and the metadata has no consistent reading; when it is the object's own name, nothing changes but its spelling. |
| WriterModel.Writer.MoveEntry | crates/libpfs3/src/writer.rs:618-630 | Adding the entry under its new name, cut to 107 bytes, and removing the old one: succeeds exactly when the entry finds room, and moves exactly that object, also into itself; once the old name is gone it changes nothing or is refused; over a name in use it leaves that name listed twice, over its own name at most another spelling. |
| WriterModel.Writer.DropOldName | crates/libpfs3/src/writer.rs:627-629 | An entry is found under the old name exactly when the name is in use, or is the new one and the new entry went to a block the directory had; removing it moves the object, undoes the addition, leaves another object's name listed twice, or leaves the object under its own name. |
| WriterModel.Writer.ReadFile | crates/libpfs3/src/volume.rs:259-296 | Reading by name returns exactly the contents the name denotes; the error cases are exact. |
| WriterModel.Writer.ReadRange | crates/libpfs3/src/volume.rs:300-360 | Reading a byte range by name is the slice of the full contents, clipped at the end. |
| WriterModel.Writer.Lookup | crates/libpfs3/src/dir.rs:56-70 | A lookup succeeds exactly when the directory has a name that is byte for byte the one asked for but for the case of ASCII letters, and returns the entry of the object it denotes. |
| Renaming.ListedIff | crates/libpfs3/src/dir.rs:56-70 | A name is in use exactly when the directory has it in some spelling, letter by letter. |
| WriterModel.Writer.ResolveDir | crates/libpfs3/src/dir.rs:111-133 | A path resolves to a directory exactly as following its names one by one does, with NotFound and NotADirectory where that fails. |
| WriterModel.Writer.ListDir | crates/libpfs3/src/dir.rs:14-39 | A listing is the concatenation of the entries of all blocks of the directory's chain. |
| WriterModel.Writer.Open | crates/libpfs3/src/writer.rs:43-71 | Opening reads only device and root cluster and yields both bitmaps, both counters, the datestamp, and a writer that satisfies the whole invariant. |
| WriterModel.LoadDataBitmap | crates/libpfs3/src/writer.rs:742-763 | Following the bitmap index finds exactly the bitmap blocks in memory order with their words. |
| WriterModel.Writer.AtRest | crates/libpfs3/src/writer.rs:1205-1245 | After every commit the device alone holds the volume the writer shows. |
| WriterModel.Writer.Reopen | crates/libpfs3/src/writer.rs:43-71 | Committing and reopening reproduces data bitmap, reserved bitmap, both counters, datestamp, all names and the account of the reserved area. |
| WriterModel.Writer.Accounted | crates/libpfs3/src/writer.rs:765-844 | In every state between operations the counters equal the number of set bits, and each data block is free or on exactly one chain, a file's, reachable from the root; it is no system block, directory block or free reserved block. |
| WriterModel.Writer.ReservedAccounted | crates/libpfs3/src/writer.rs:871-1038 | In every state between operations each reserved block the volume was opened with is exactly one of free, directory block, system block it was opened with, or anode block the index leads to; none appears or disappears. On a formatted disk these are all reserved blocks behind the root cluster, as `OnFreshDisk` states. |
| WriterModel.OnFreshDisk | crates/libpfs3/src/format.rs:52-312 | Formatting and opening succeeds exactly when the disk is larger than boot blocks and reserved area: no names, the free counter is the number of blocks behind a reserved area whose size is listed for every disk size, and the reserved blocks accounted for are all of them. |
| LongNames.MovedOnto | crates/libpfs3/src/writer.rs:618-629 | Moving an entry to a name another object of the directory has leaves that name listed twice. |
| LongNames.MovedHere | crates/libpfs3/src/writer.rs:618-629 | Moving an entry to a cut name that is its own either removes the new entry again or replaces the old one by it; the invariant holds. |
| LongNames.DescentRank | crates/libpfs3/src/writer.rs:595-630 | Along every route of names directories are ranked in order, so that no directory lies inside what it names. |
| Directory.ShortEntry | crates/libpfs3/src/writer.rs:1163-1164 | The entry built for a name is the one built for its first 107 bytes and carries just those. |
| Scenarios.StopOnFreshDisk | crates/libpfs3/src/writer.rs:147-170 | On every disk that can be formatted, whatever it held and whatever the unmodelled fields of root block and extension are: the sectors written show the store and the root cluster the writer opens, every block behind the reserved area is free, reading the root directory from the bytes alone gives an empty listing, and stopping after any prefix of any data writes to free blocks leaves that volume, root cluster and reserved blocks included. |
| Scenarios.MoveIntoItself | crates/libpfs3/src/writer.rs:595-630 | On every disk that can be formatted: making a directory and moving it into itself succeeds, and the only name left is in a directory no route leads to. |
| Scenarios.MakeTwice | crates/libpfs3/src/writer.rs:173-186 | On every disk that can be formatted: making the same directory twice succeeds, the root lists the name twice, and the volume has no consistent reading. |
| Scenarios.FailsHalfway | crates/libpfs3/src/writer.rs:333-381 | On every disk that can be formatted: a one-byte file overwritten, without success, with more than the disk holds reads as the first new byte when the disk is opened again. |
| WriterModel.Writer.Commit | crates/libpfs3/src/writer.rs:1205-1245 | Flushing everything staged and then writing the root cluster leaves device and memory equal, with a datestamp one higher and above that of the root cluster before. |
| WriterModel.Writer.FlushPending | crates/libpfs3/src/writer.rs:1248-1263 | The device becomes exactly what reads through the staged writes showed. |
| WriterModel.Writer.Stage | crates/libpfs3/src/writer.rs:1280-1289 | Staging is a point update of the combined view and keeps one pair per block. |
| WriterModel.Writer.ReadRaw | crates/libpfs3/src/writer.rs:1266-1278 | A raw read returns the last staged value or else the device content. |
| WriterModel.Writer.AllocReserved | crates/libpfs3/src/writer.rs:871-886 | Succeeds exactly when a reserved block is free; that block leaves the free set, counter and bitmap agree. |
| WriterModel.Writer.FreeReserved | crates/libpfs3/src/writer.rs:888-897 | A directory block returns to the free set, counter and bitmap agree. |
| WriterModel.Writer.FreeDataBlock | crates/libpfs3/src/writer.rs:829-844 | Exactly the block given becomes free, in memory, staged bitmap and counter; blocks of the reserved area are ignored. |
| WriterModel.Writer.AllocDataBlocks | crates/libpfs3/src/writer.rs:765-804 | First fit: succeeds exactly when enough blocks are free and then returns the lowest free blocks in order, bits, staged blocks and counter agreeing; a failure has cleared every bit and left the counter. |
| WriterModel.Writer.TakeFrom | crates/libpfs3/src/writer.rs:767-799 | One bitmap block: a prefix of its free blocks is taken and the block staged. |
| WriterModel.Writer.AllocAnode | crates/libpfs3/src/writer.rs:901-950 | Succeeds exactly when a slot is vacant or a new anode block can be registered and paid for. Uses a vacant slot of the committed index if there is one, otherwise registers a new anode block; no other anode changes. |
| WriterModel.Writer.GrowAnodes | crates/libpfs3/src/writer.rs:953-1038 | Succeeds exactly when the sequence number has an index block and a reserved block is free; the new anode block is registered under the first missing number and its first user slot used. |
| WriterModel.Writer.RegisterAnodeBlock | crates/libpfs3/src/writer.rs:956-1033 | The staged index and anode blocks are exactly the old ones with the new block entered. |
| WriterModel.Writer.WriteAnode | crates/libpfs3/src/writer.rs:443-472 | Rewriting or clearing one slot is a point update of the anode table. |
| WriterModel.Writer.GetChain | crates/libpfs3/src/anode.rs:81-103 | On a consistent volume the chain of a head is its whole path. |
| WriterModel.Writer.CreateAnodeChain | crates/libpfs3/src/writer.rs:1040-1059 | One anode per maximal run, allocated last run first, each pointing at the next. Succeeds exactly when vacant slots, and reserved blocks past those, suffice for the number of runs. |
| WriterModel.Writer.AppendToChain | crates/libpfs3/src/writer.rs:433-440 | Only the tail's next pointer changes. |
| WriterModel.Writer.TruncateChain | crates/libpfs3/src/writer.rs:390-419 | With 1 <= k <= total the chain keeps its first k blocks, exactly the rest become free, exactly the dropped slots are cleared, nothing else changes, wherever the cut falls; k = 0 and k > total are stated too. |
| Steps.CutIsPrefix | crates/libpfs3/src/writer.rs:390-430 | After a cut to k blocks the chain reads as the first k blocks of the old one, exactly the others are released, and exactly the anodes behind the cut are gone. |
| WriterModel.Writer.CutInside | crates/libpfs3/src/writer.rs:401-409 | A cut inside an extent frees its tail, shrinks it and drops the rest. |
| WriterModel.Writer.CutAfter | crates/libpfs3/src/writer.rs:410-416 | A cut between extents makes the last kept anode the tail and drops the rest. |
| WriterModel.Writer.FreeAndClear | crates/libpfs3/src/writer.rs:422-430 | All blocks of the anodes become free and all their slots vacant. |
| WriterModel.Writer.FindEntry | crates/libpfs3/src/writer.rs:476-504 | Finds an entry with the name exactly when one of the directory's blocks has one, ignoring case as `Types.SameNameIff` states. |
| WriterModel.Writer.AddDirEntry | crates/libpfs3/src/writer.rs:1087-1139 | The entry goes to the first block with room, else to a new block appended to the directory's chain; fails exactly when there is neither room nor a reserved block and an anode for a new one. |
| WriterModel.Writer.ExtendDir | crates/libpfs3/src/writer.rs:1128-1138 | A new directory block holding just the entry is chained behind the directory, exactly when a block and an anode are available. |
| WriterModel.Writer.RemoveDirEntry | crates/libpfs3/src/writer.rs:1141-1153 | The found entry disappears, order of the others kept; fails exactly when there is none. |
| WriterModel.Writer.UpdateSize | crates/libpfs3/src/writer.rs:507-579 | Only size and date of the found entry change. |
| WriterModel.Writer.StoreData | crates/libpfs3/src/writer.rs:156-168 | Succeeds exactly when enough blocks are free and anodes for their runs available. The blocks written were free in the committed bitmap; they hold the data and carry a new chain of fresh anodes; with two runs more than vacant slots the head of that chain points at itself. |
| WriterModel.Writer.PutSectors | crates/libpfs3/src/writer.rs:157-165 | Consecutive sector-sized pieces, the last padded with zeros. |
| WriterModel.Writer.ScanFree | crates/libpfs3/src/bitmap.rs:29-64 | Loading every bitmap block from the device and counting set bits gives the free counter. |
| WriterModel.Writer.ScanReserved | crates/libpfs3/src/volume.rs:199-218 | Counting every word of the root cluster behind the header gives the reserved counter and whatever bits are set behind the reserved bitmap. |
| Guarantees.EveryBlockAccounted | crates/libpfs3/src/writer.rs:765-844 | Conservation: a data block is free or on the chain of exactly one file head, never both, that head is reachable from the root, and the block is none of the reserved area. |
| Guarantees.FilesDisjoint | crates/libpfs3/src/writer.rs:765-844 | Chains of different heads share no block. |
| Guarantees.DirectoriesReachable | crates/libpfs3/src/dir.rs:111-133 | Every directory of a consistent volume has a route of names from the root. |
| Transitions.AddFileChainKeeps | crates/libpfs3/src/writer.rs:1040-1059 | Adding a chain of fresh anodes over free blocks keeps the whole invariant. |
| Transitions.AppendKeeps | crates/libpfs3/src/writer.rs:433-440 | Joining a floating chain behind another keeps the invariant and what every file reads as. |
| Transitions.CutKeeps | crates/libpfs3/src/writer.rs:390-419 | Truncating a chain keeps the invariant and the file's contents when the kept blocks cover its recorded size. |
| Transitions.DropFileKeeps | crates/libpfs3/src/writer.rs:816-827 | Releasing a whole file chain keeps the invariant. |
| Transitions.DropDirKeeps | crates/libpfs3/src/writer.rs:1061-1083 | Releasing an empty directory's chain keeps the invariant. |
| Transitions.EnterKeeps | crates/libpfs3/src/writer.rs:1087-1125 | Naming a floating head keeps the invariant. |
| Transitions.EnterLoose | crates/libpfs3/src/writer.rs:1087-1125 | Naming a floating head inside itself keeps all of the invariant but the order of directories. |
| Transitions.LeaveKeeps | crates/libpfs3/src/writer.rs:1141-1153 | Removing an entry leaves its head floating and keeps the rest. |
| Transitions.PatchKeeps | crates/libpfs3/src/writer.rs:507-579 | Replacing an entry by one of the same name, type and head keeps the invariant. |
| Transitions.RewriteKeeps | crates/libpfs3/src/writer.rs:333-358 | Writing to a file's own blocks changes that file's contents only. |
| Transitions.WriteFreeKeeps | crates/libpfs3/src/writer.rs:157-165 | Writing to free blocks changes nothing any file or directory shows. |
| Transitions.LiftRanked | crates/libpfs3/src/writer.rs:595-630 | Moving a subtree keeps every directory above its parent, so the tree stays acyclic. |
| SectorData.CrashSafe | crates/libpfs3/src/writer.rs:147-170 | Stopping after any prefix of the data writes of a creation leaves every file of the committed volume as it reads. |
| DiskBytes.FormatBytes | crates/libpfs3/src/format.rs:161-302 | Formatting sector by sector: the reserved blocks hold the bytes of what was laid down, each with the identifier of its kind; the root cluster holds datestamp and counters, and at each reserved block's bit whether it is free; and no data block changes. |
| DiskBytes.RootCluster | crates/libpfs3/src/format.rs:161-215 | The bytes of the root cluster show datestamp, both counters, the reserved bitmap, bit by bit with the highest first, and no bit behind it. |
| DiskBytes.IndexBytes | crates/libpfs3/src/format.rs:239-252 | The bytes of an index block show its entries under the identifier given. |
| DiskBytes.BitmapBytes | crates/libpfs3/src/format.rs:254-273 | The bytes of a bitmap block show its words, each bit where readers test it, under the identifier of bitmap blocks. |
| DiskBytes.RootAnodes | crates/libpfs3/src/format.rs:283-292 | The bytes of the first anode block show the root directory anode and vacant slots elsewhere. |
| DiskBytes.UpdateRoot | crates/libpfs3/src/writer.rs:1216-1239 | Updating datestamp, counters and reserved bitmap in the bytes of the root cluster shows the new ones, each bit where readers test it, and what lies behind the bitmap as before. |
| DiskBytes.CommitBytes | crates/libpfs3/src/writer.rs:1205-1263 | A commit on a disk that shows the store: flushing the staged blocks and rewriting the root cluster leaves a disk that shows the combined view, the new counters and the new reserved bitmap bit by bit, every data block as it was. |
| OneDevice.Apart | crates/libpfs3/src/format.rs:76-159 | No sector belongs to two reserved blocks, or to a reserved block and the root cluster or the data area, or to root cluster and data area. |
| OneDevice.CrashSafe | crates/libpfs3/src/writer.rs:147-170 | On a single disk of sectors that shows the reserved blocks in use the store holds: stopping after any prefix of data writes to free blocks leaves root cluster and every reserved block with the bytes they had, so listings and chains are as committed, and every name reads as committed. |
| OneDevice.BlockWritten | crates/libpfs3/src/ondisk/mod.rs:282-299 | Writing one reserved block to the disk changes that block alone: other reserved blocks, root cluster and data area keep their bytes. |
| OneDevice.FlushedShows | crates/libpfs3/src/writer.rs:1248-1263 | Flushing staged blocks sector by sector, stopped anywhere: the reserved blocks hold the combined view of what was written so far, root cluster and data area are unchanged. |
| OneDevice.RootWritten | crates/libpfs3/src/writer.rs:1205-1245 | Writing the root cluster changes no reserved block and no data block. |
| WriterModel.Writer.CrashOnDisk | crates/libpfs3/src/writer.rs:147-170 | The same for whatever volume a run of the writer has left on a disk that shows its store. Formatting and every commit yield such a disk, as `DiskBytes.FormatBytes` and `DiskBytes.CommitBytes` state. |
| WriterModel.Writer.ReadersFollow | crates/libpfs3/src/writer.rs:43-71 | Directory blocks, anode blocks, bitmap blocks and the blocks of both indexes are on the device and among the blocks such a disk shows. |
| SectorData.ReadsBack | crates/libpfs3/src/volume.rs:270-296 | Reading through blocks that hold consecutive pieces of data returns its prefix. |
| SectorData.BlocksFor | crates/libpfs3/src/writer.rs:154-154 | The least number of sectors that hold the data, never zero. |
| SectorData.BlocksForLeast | crates/libpfs3/src/writer.rs:154-154 | No smaller number of sectors holds the data. |
| Compose.NewFileKeeps | crates/libpfs3/src/writer.rs:147-170 | Creating a file, as one composition of ownership steps, keeps the invariant and adds exactly one name. |
| Compose.NewDirKeeps | crates/libpfs3/src/writer.rs:173-186 | Creating a directory keeps the invariant and adds exactly one name. |
| Compose.DeleteFileKeeps | crates/libpfs3/src/writer.rs:633-657 | Deleting a file keeps the invariant and removes exactly one name. |
| Compose.DeleteDirKeeps | crates/libpfs3/src/writer.rs:633-657 | Deleting an empty directory keeps the invariant and removes exactly one name. |
| Outcomes.DatedIs | crates/libpfs3/src/writer.rs:563-575 | In a consistent volume an entry that names a head and carries a date is the entry of that head. |
| Outcomes.NoReading | crates/libpfs3/src/writer.rs:173-186 | A directory that lists a name twice is part of no consistent volume, whatever witnesses are chosen. |
| Outcomes.TwiceNamed | crates/libpfs3/src/writer.rs:1087-1139 | Adding an entry under a name the directory has makes it list the name twice, in its own chain. |
| Outcomes.StuckUnreadable | crates/libpfs3/src/writer.rs:147-170 | Metadata in which an entry names a head whose anodes never end has no consistent reading. |
| Outcomes.UsurpedUnreadable | crates/libpfs3/src/writer.rs:1087-1139 | Neither has metadata in which the anode of a head has become that of the block its entry is in, be it a file or a directory. |
| Outcomes.NoWayOut | crates/libpfs3/src/writer.rs:363-386 | A chain that keeps its anodes and runs into a loop behind its last one never ends. |
| Outcomes.EnteredKeeps | crates/libpfs3/src/writer.rs:1087-1139 | Wherever an entry is added, no anode from before the transaction changes but the last one of the directory. |
| Outcomes.CreateOutcome | crates/libpfs3/src/writer.rs:147-170 | A new head reads back exactly when the anodes needed got different numbers; where the directory had to grow and they did not, the head is the anode of its new block. |
| Outcomes.MakeOutcome | crates/libpfs3/src/writer.rs:173-186 | A new directory lists nothing exactly when the anodes needed got different numbers, and itself otherwise. |
| Compose.ListsEmptyIff | crates/libpfs3/src/writer.rs:641-645 | A directory lists as empty exactly when no name is in it. |
| Compose.NotFoundIff | crates/libpfs3/src/writer.rs:476-504 | A name is in use exactly when some block of its directory has it. |
| Overwriting.ShrunkKeeps | crates/libpfs3/src/writer.rs:333-362 | An overwrite with no more blocks keeps the invariant and changes one object's data. |
| Overwriting.GrownKeeps | crates/libpfs3/src/writer.rs:333-381 | An overwrite with more blocks keeps the invariant: old and new blocks together hold the data. |
| Overwriting.RecordedIff | crates/libpfs3/src/writer.rs:507-579 | After an overwrite the whole data is recorded exactly when its length is below 2^32, or below 2^48 and the entry already carries the extended size field. |
| Overwriting.HalfNamesIff | crates/libpfs3/src/writer.rs:333-381 | A file whose growing overwrite failed reads as before exactly when its old contents are a prefix of the new data. |
| Overwriting.HalfNamesExample | crates/libpfs3/src/writer.rs:333-381 | On a map of names with one file that holds the byte 1: after such a failure with data that starts with 2 it reads as 2. |
| Overwriting.HalfIsDone | crates/libpfs3/src/writer.rs:333-381 | Once the old blocks hold the new data and the size is unchanged, the file reads as the start of the data and every other name as before. |
| Renaming.MovedKeeps | crates/libpfs3/src/writer.rs:595-630 | Moving an entry keeps the invariant and contents; only two names change. |
| Renaming.ReplaceFits | crates/libpfs3/src/writer.rs:609-626 | Where blocks are filled as the writer fills them, the moved entry fits where the target's entry was, unless the source has 2^32 bytes or more and the target's entry lacks the extended size field. |
| Renaming.MovedLoose | crates/libpfs3/src/writer.rs:595-630 | Moving an entry anywhere, even into what it names, keeps all of the invariant but the order of directories. |
| Renaming.MoveReachableIff | crates/libpfs3/src/writer.rs:595-630 | A moved directory stays reachable exactly when it does not move into itself, which the source does not check. |
| Renaming.DirInIff | crates/libpfs3/src/dir.rs:111-133 | An anode is a directory of the volume exactly when it is the root or some name denotes a directory with it. |
| Renaming.IntoItselfExample | crates/libpfs3/src/writer.rs:595-630 | The names of the smallest volume on which moving a directory into itself makes it unreachable. |
| History.UntouchedRun | crates/libpfs3/src/writer.rs:132-170 | Over every run of operations, a name no operation touches keeps its object, head and contents. |
| History.LastWriteWins | crates/libpfs3/src/writer.rs:132-170 | Over every run, the last write to a name is what the name reads as; from 2^32 bytes on it may be cut to what the entry can record, as `Overwriting.RecordedIff` states. |
| History.HeadStable | crates/libpfs3/src/writer.rs:314-316 | Over every run that only writes to a name, its head anode never changes. |
| Anodes.GetChain | crates/libpfs3/src/anode.rs:81-103 | On every table: terminates, and succeeds exactly when following next reaches the end marker through existing anodes within the limit, returning that whole path. |
| Anodes.RunDistinct | crates/libpfs3/src/anode.rs:81-103 | A walk that reaches the end never visits an anode twice. |
| Anodes.RegisterSmall | crates/libpfs3/src/writer.rs:1016-1033 | Two-level index: after registration the new sequence number resolves to the new block, every other one as before. |
| Anodes.RegisterLargeCorrect | crates/libpfs3/src/writer.rs:968-1015 | Three-level index: the same, with or without a new intermediate block. |
| Anodes.EncInverse | crates/libpfs3/src/writer.rs:910-932 | Slot to anode number is inverted by the reader's split. |
| Anodes.SplitInverse | crates/libpfs3/src/anode.rs:56-63 | Anode number to slot is inverted by the writer's encoding, in split and non-split mode. |
| Table.PutSlotTie | crates/libpfs3/src/writer.rs:443-467 | Writing a slot in an anode block is a point update of the anode map the index reaches. |
| Table.GrowTie | crates/libpfs3/src/writer.rs:953-1038 | Registering an anode block adds exactly its occupied slots. |
| Table.ReadTied | crates/libpfs3/src/anode.rs:50-78 | Reading an anode number returns exactly what the map holds. |
| Runs.Group | crates/libpfs3/src/writer.rs:1042-1052 | The grouping loop yields maximal consecutive runs whose concatenation is the input. |
| Runs.MaximalUnique | crates/libpfs3/src/writer.rs:1042-1052 | Maximal runs are determined by the block list, so is the number of anodes. |
| Runs.BuiltFresh | crates/libpfs3/src/writer.rs:1040-1059 | With enough vacant slots the chain uses distinct fresh anodes, one per run, and no other anode changes. |
| Runs.BuiltKeeps | crates/libpfs3/src/writer.rs:1040-1059 | Whatever the number of runs, anodes from before the transaction keep their records. |
| Runs.BuiltTop | crates/libpfs3/src/writer.rs:901-1059 | With one run more than vacant slots the head is the first anode of a new block. |
| Runs.ChainReadsBackIff | crates/libpfs3/src/writer.rs:1040-1059 | The chain just built reads back as the block list exactly when the runs number at most the vacant committed slots plus one; otherwise its head points at itself. |
| Steps.OverfullExample | crates/libpfs3/src/writer.rs:901-1059 | For every geometry, on the anode table alone, its one block full of one-block extents: two more extents get the same anode number, and the chain built from them cannot be followed. |
| Bitmap.TakeBits | crates/libpfs3/src/writer.rs:769-795 | The word and bit loops take the lowest set bits in order and leave every other bit. |
| Bitmap.FirstBit | crates/libpfs3/src/writer.rs:872-884 | The reserved scan finds the first set bit or proves there is none. |
| Bitmap.Locate | crates/libpfs3/src/writer.rs:833-837 | Quotient and remainder address exactly the bit of the block. |
| Overlay.Stage | crates/libpfs3/src/writer.rs:1280-1289 | Replace or push keeps block keys unique and updates the combined view at one block. |
| Overlay.Read | crates/libpfs3/src/writer.rs:1266-1278 | The backwards search returns what the combined view holds. |
| Overlay.Flush | crates/libpfs3/src/writer.rs:1248-1263 | Writing the pairs in turn turns the device into the combined view. |
| Overlay.StageRun | crates/libpfs3/src/writer.rs:1248-1289 | Over any sequence of staged writes reads see a plain map and a flush turns the device into it, changing no other block. |
| Overlay.ApplyLast | crates/libpfs3/src/writer.rs:1266-1278 | The plain map holds the last value written to a block. |
| Cache.BlockCache.ReadReserved | crates/libpfs3/src/cache.rs:45-81 | Returns the device content, keeps coherence, the capacity bound and least-recently-used residency: a block read and not invalidated is cached until as many other blocks as the cache holds have been read since. |
| Cache.BlockCache.Oldest | crates/libpfs3/src/cache.rs:66-72 | The evicted block is the one read longest ago. |
| Cache.BlockCache.Invalidate | crates/libpfs3/src/cache.rs:40-42 | Only the block given leaves the cache. |
| Cache.EvictedLong | crates/libpfs3/src/cache.rs:65-74 | When a full cache evicts its oldest block, a full cache's worth of other blocks has been read since. |
| Cache.CachedDevice.Stage | crates/libpfs3/src/writer.rs:1280-1289 | Staging with invalidation keeps every cached block equal to the device. |
| Cache.CachedDevice.Flush | crates/libpfs3/src/writer.rs:1248-1263 | A flush with invalidation keeps every cached block equal to the changed device. |
| Cache.CachedDevice.ReadCommitted | crates/libpfs3/src/cache.rs:45-81 | A cached read returns the committed content whatever is staged. |
| Codec.ParseBuilt | crates/libpfs3/src/ondisk/direntry.rs:69-122 | Parsing a built entry anywhere in a block returns its name, type, anode, 48-bit size, date and protection, and the next offset lands right behind it. |
| Codec.ParseRawBuilt | crates/libpfs3/src/writer.rs:1155-1196 | The same for the record alone, for both parities of the name and with or without the extended size. |
| Codec.ParsePatched | crates/libpfs3/src/writer.rs:507-579 | Seen through the parser, patching a record changes size and date and nothing else. |
| Codec.Put32Get | crates/libpfs3/src/ondisk/mod.rs:272-274 | A big-endian write is read back and disturbs no other field. |
| DirBlocks.ParseBlock | crates/libpfs3/src/dir.rs:42-53 | The loop collects what repeated parsing yields. |
| DirBlocks.ParsePacked | crates/libpfs3/src/dir.rs:42-53 | On a well-formed block the parser sees exactly its records in order. |
| DirBlocks.FindEnd | crates/libpfs3/src/writer.rs:1109-1116 | The scan stops right behind the last record. |
| DirBlocks.FindRecord | crates/libpfs3/src/writer.rs:476-504 | Succeeds exactly when a record has the name, the same but for the case of ASCII letters, and then gives the offset of the first one. |
| DirBlocks.InsertRecord | crates/libpfs3/src/writer.rs:1105-1123 | Fits exactly when the typed model says so; the parser then sees the old entries followed by the new one, and the terminator is kept. |
| DirBlocks.RemoveRecord | crates/libpfs3/src/writer.rs:1141-1153 | The parser sees the old entries without the removed one, in order, terminator kept. |
| DirBlocks.PatchRecord | crates/libpfs3/src/writer.rs:507-579 | The parser sees the old entries with one size and date patched. |
| DirBlocks.PatchAgrees | crates/libpfs3/src/writer.rs:516-565 | On well-formed records at even offsets the patcher's walk finds the extended size field where the parser reads it. |
| DirBlocks.BuiltWell | crates/libpfs3/src/writer.rs:1155-1196 | Records the writer builds are well formed. |
| Directory.BuildSize | crates/libpfs3/src/writer.rs:1155-1180 | A built entry records a size exactly when it is below 2^48. |
| Directory.PatchedSizeIff | crates/libpfs3/src/writer.rs:507-565 | A patched entry records a size exactly when it is below 2^32, or below 2^48 and the extended field is there. |
| Directory.SizeLostExample | crates/libpfs3/src/writer.rs:507-565 | A size of 2^32 patched into an entry without the extended field is recorded as 0. |
| Directory.FindName | crates/libpfs3/src/dir.rs:65-69 | The first entry with the name, the same but for the case of ASCII letters. |
| Types.NameEqIsCanon | crates/libpfs3/src/util.rs:155-157 | Two names are equal ignoring case exactly when their canonical spellings agree. |
| Types.SameNameIff | crates/libpfs3/src/util.rs:155-157 | Both hold exactly when the names have equal length and each pair of bytes is equal, or one is an ASCII capital and the other 32 above it. |
| Records.PutSlotGet | crates/libpfs3/src/writer.rs:460-466 | Writing one slot in the bytes of an anode block changes that slot and no other. |
| ByteBits.MaskApart | crates/libpfs3/src/writer.rs:787-787 | Clearing and setting a bit by its mask changes no other bit of the word. |
| ByteBits.BitSetIff | crates/libpfs3/src/writer.rs:871-886 | Bit k of a byte, the highest first, is set exactly when the number has its weight. |
| WordBits.WordsBits | crates/libpfs3/src/writer.rs:806-814 | Bytes that read as the numbers of bitmap words hold bit j of each word at bit j % 8 of its byte j / 8, the highest first. |
| WordBits.MaskSeesBit | crates/libpfs3/src/writer.rs:871-886 | A reader that puts a word together from four bytes and tests it with the mask of bit j sees exactly that bit. |
| DiskBytes.PackedBits | crates/libpfs3/src/format.rs:377-389 | The words the formatter packs put reserved block q at bit q % 8 of byte q / 8 behind the header. |
| Records.WriteReservedBlocks | crates/libpfs3/src/ondisk/mod.rs:282-299 | The sector loop writes consecutive padded pieces. |
| Records.ReservedReadsBack | crates/libpfs3/src/ondisk/mod.rs:282-299 | Reading the sectors of a block gives back what was written; other sectors are unchanged. |
| Refine.EditBytes | crates/libpfs3/src/writer.rs:443-1153 | Every edit of a staged anode, index, bitmap or directory block, made in the bytes, gives the bytes of the typed block with that edit made in it, and is refused exactly when it is refused there. |
| Refine.EditStore | crates/libpfs3/src/writer.rs:1266-1289 | A staged write to a block of the store, made in bytes, leaves bytes that show the whole store with that write made in it. |
| Refine.FreshAnodes | crates/libpfs3/src/writer.rs:956-961 | A newly built anode block is accepted as one and decodes to vacant slots. |
| Refine.FreshDir | crates/libpfs3/src/writer.rs:177-182 | The block of a new directory is accepted as a directory block and decodes to no entries. |
| Refine.FreshDirWith | crates/libpfs3/src/writer.rs:1129-1137 | A new block for a directory is accepted as a directory block and decodes to its one entry. |
| Refine.Decodes | crates/libpfs3/src/writer.rs:443-1153 | Bytes hold at most one directory, and at most one anode, index or bitmap block of a length. |
| Refine.OneKind | crates/libpfs3/src/ondisk/mod.rs:146-151 | Bytes are accepted as blocks of at most one kind: each kind has its own identifier. |
| ByteReader.ListEntries | crates/libpfs3/src/dir.rs:13-40 | Listing a directory from the bytes of the disk, skipping blocks without the identifier of directory blocks, gives what following its anodes gives. |
| ByteReader.AnodeShown | crates/libpfs3/src/anode.rs:51-79 | On a disk that shows the store every anode number reads from the bytes as in the store; blocks without the identifier of anode blocks are refused. |
| ByteReader.EntriesShown | crates/libpfs3/src/dir.rs:43-54 | The bytes of a directory block read as its entries. |
| ByteReader.BytesShow | crates/libpfs3/src/dir.rs:13-40 | On a disk that shows the store of a consistent volume the chain of each head and the listing of each directory read from the bytes are those of the volume. |
| WriterModel.Writer.ReadInBytes | crates/libpfs3/src/dir.rs:13-40 | The same between any two operations of the writer. |
| ByteLayout.SlotLayout | crates/libpfs3/src/anode.rs:68-78 | An anode block starts with AB, and slot o holds size, block and next anode as big-endian numbers at bytes 16 + 12 o, 20 + 12 o and 24 + 12 o. |
| ByteLayout.VacantLayout | crates/libpfs3/src/writer.rs:908-952 | A slot counts as vacant exactly when its first eight bytes are zero. |
| ByteLayout.IndexLayout | crates/libpfs3/src/anode.rs:141-156 | An index block starts with IB or MI, and entry i is the big-endian number at byte 12 + 4 i. |
| ByteLayout.BitmapLayout | crates/libpfs3/src/writer.rs:806-814 | A bitmap block starts with BM, and bit j of word i is in byte 12 + 4 i + j / 8, the highest first. |
| ByteLayout.DirLayout | crates/libpfs3/src/dir.rs:43-54 | A directory block starts with DB, its entries are parsed from byte 20 on, and a zero there means none. |
| ByteLayout.RootLayout | crates/libpfs3/src/writer.rs:1216-1239 | Datestamp and counters are at bytes 8, 60 and 68 of the root cluster, the reserved bitmap from byte 12 of its second sector on. |
| ByteLayout.RecordLayout | crates/libpfs3/src/ondisk/direntry.rs:73-125 | The fixed fields of a directory record, offset by offset. |
| ByteLayout.BuiltLayout | crates/libpfs3/src/writer.rs:1155-1196 | What the writer builds: an even length in the first byte, the cut name at byte 18, an empty comment, and flags with the upper size behind them exactly when it is not zero. |
| ByteLayout.ExtraLayout | crates/libpfs3/src/ondisk/direntry.rs:127-175 | The order and width of the extra fields when all are there. |
| Refine.PutAllWords | crates/libpfs3/src/writer.rs:806-814 | Datestamp and all words of a bitmap block are written; the words read back, each bit where readers test it, and the identifier stays. |
| FileReader.ReadFileData | crates/libpfs3/src/volume.rs:270-296 | The nested loops return the first bytes of the concatenated blocks, all of them when the chain is too short. |
| FileReader.ReadFileRange | crates/libpfs3/src/volume.rs:300-360 | For every extent layout, zero-length extents and short chains included, a range read equals the slice of the full read. |
| Counting.CountFree | crates/libpfs3/src/bitmap.rs:29-64 | The scan counts exactly the free blocks among the first disksize bits. |
| Counting.ReservedCountFree | crates/libpfs3/src/volume.rs:199-218 | The scan counts the free reserved blocks and whatever bits are set in the words behind the bitmap. |
| Counting.ClearIff | crates/libpfs3/src/volume.rs:199-218 | Nothing is counted in a list of words exactly when no bit of it is set. |
| Format.CalcNumReserved | crates/libpfs3/src/format.rs:316-328 | The number of reserved blocks: for every small disk the one listed for its size, and for every disk of up to 2^32 blocks what the listed result of the doublings gives for the block size, in whole bitmap words and within limits. |
| Format.ReservedTable | crates/libpfs3/src/format.rs:316-328 | Each range of small disk sizes has a fixed number of reserved blocks, from 32 up to 103040; 14784 from 524289 to 1048576 blocks. |
| Format.TakenTable | crates/libpfs3/src/format.rs:316-328 | The result of the doublings for each range of disk sizes up to 2^32 blocks. |
| Format.DoublingTable | crates/libpfs3/src/format.rs:316-328 | A disk of the small range gets at least one reserved block for every 140 blocks, before rounding. |
| Format.ReservedMonotone | crates/libpfs3/src/format.rs:316-328 | A larger disk never gets fewer reserved blocks. |
| Format.ReservedSuffices | crates/libpfs3/src/format.rs:76-159 | For every small disk the reserved area holds the root cluster and all structures the formatter lays down, with at least 16 blocks to spare. |
| Format.BitmapKilobytes | crates/libpfs3/src/format.rs:81-89 | The least root cluster that has room for the reserved bitmap. |
| Format.ReservedAllocator.Alloc | crates/libpfs3/src/format.rs:359-371 | Fails exactly when nothing is free; otherwise exactly one free block is taken, wrapping around. |
| Format.ReservedAllocator.AllocBlocks | crates/libpfs3/src/format.rs:140-159 | Succeeds exactly when that many blocks are free; the blocks handed out are distinct, were free, and lie behind the root cluster. |
| Format.Allocate | crates/libpfs3/src/format.rs:76-159 | Succeeds exactly when the disk is larger than boot blocks and reserved area. All structures get distinct reserved blocks outside the root cluster, enough bitmap and index blocks for the disk. |
| Format.BuildBitmap | crates/libpfs3/src/format.rs:254-271 | A bitmap block has a set bit for exactly the data blocks there are. |
| Format.BuildReserved | crates/libpfs3/src/format.rs:377-389 | The reserved bitmap words are the allocator's bits. |
| Format.CountFree | crates/libpfs3/src/format.rs:373-375 | The reserved counter is the number of free bits. |
| Format.LayDown | crates/libpfs3/src/format.rs:239-300 | Bitmap index, bitmap, anode index, anode block and root directory hold what the plan says, and no other block is written. |
| Format.FormattedImage | crates/libpfs3/src/format.rs:52-312 | What the formatter wrote satisfies the writer's whole invariant with no names, every data block free and both counters exact. |
| Format.FormatDisk | crates/libpfs3/src/format.rs:52-312 | For every small disk: succeeds exactly when the disk is larger than boot blocks and reserved area, whose size is listed for every disk size, and yields a consistent empty volume; a failure is DiskFull. |
| Format.AllReserved | crates/libpfs3/src/format.rs:76-159 | On a fresh volume each reserved block behind the root cluster is free, the root directory, or a system block. |
| Format.FreeTied | crates/libpfs3/src/format.rs:254-273 | The data bitmap has one set bit per block from the end of the reserved area to the disk end and none elsewhere. |
| Descent.ValidateChain | crates/libpfs3/src/volume.rs:362-373 | All blocks of a chain, exactly when the chain can be followed to its end. |
| Check.CheckCtx.RecordBlocks | src/cmd/check.rs:275-282 | No error exactly when no block is new twice or already owned. |
| Check.CheckCtx.RecordAnodes | src/cmd/check.rs:284-290 | The anodes of a readable chain are noted; the end marker is never among them, so the warning about it cannot be given. |
| Check.CheckCtx.ScanDir | src/cmd/check.rs:207-273 | Terminates wherever the descent ends, which `Descent.EndsIffNoCycle` characterises. No new error exactly when, along every route of entries, each entry of a negative type or a directory has an ending run of anodes without a repeated block, each directory can be listed within the nesting limit, and no block is on the runs of two of them or was taken before; then no new warning exactly when every file's run is long enough for its size. |
| Check.CheckCtx.ScanEntry | src/cmd/check.rs:224-272 | One more entry keeps that equivalence. |
| Check.VerdictIff | src/cmd/check.rs:207-282 | The scan finds no error exactly when the tree is intact, stated by routes, entry types and runs of anodes alone. |
| Check.SizesIff | src/cmd/check.rs:241-252 | Then it warns of no file exactly when every file on a route has blocks enough for its size. |
| Check.CleanMeans | src/cmd/check.rs:207-282 | A clean scan certifies any two files or directories on different routes: each has a run that visits no anode twice, and they share no block. |
| WriterModel.CheckVolume | src/cmd/check.rs:36-205 | Whatever operations led to a volume, the check of its device, the look at the root block extension aside, ends; it reports an error exactly when the reserved area is a single block or directories are nested too deep; without an error it warns exactly when bits are set in the root cluster behind the reserved bitmap: bitmap count, reserved count and anode check included. |
| Certify.ConsistentScans | src/cmd/check.rs:207-282 | The scan of a consistent volume ends whatever the names; it finds an error exactly when directories are nested too deep, and otherwise nothing: its tree has no double claims and every chain is readable and long enough. |
| Certify.VolumeShows | crates/libpfs3/src/dir.rs:14-39 | Reading anodes, chains and directory blocks from the device shows exactly the chains and listings of the volume. |
| Certify.DirsAre | crates/libpfs3/src/dir.rs:14-39 | The entries read from the blocks of a chain are the directory's listing. |
| Certify.FollowIff | crates/libpfs3/src/anode.rs:81-103 | Following a chain with a limit succeeds exactly when it can be read, and gives its anodes. |
| Certify.TreeEnds | src/cmd/check.rs:207-273 | The scan goes down at most as many levels as there are directories ranked above the one it starts from. |
| Certify.SiblingsApart | src/cmd/check.rs:207-273 | Nothing lies inside two different entries of one directory, so the scan visits every chain once. |
| Descent.JoinMeasure | crates/libpfs3/src/util.rs:173-179 | Descending adds a slash or drops a trailing one unless the name is empty; an empty name adds a slash, or, below a trailing slash, leaves the path unchanged. |
| Descent.EndsIffNoDescent | src/cmd/check.rs:207-273 | On every image, the scan of a directory ends exactly when it cannot go down forever. |
| Descent.EndsIffNoCycle | src/cmd/check.rs:207-273 | The scan of a directory ends exactly when no directory it enters, within the nesting limit and at a path with a trailing slash, lies on a cycle of directory entries with empty names. |
| Descent.Settles | src/cmd/check.rs:207-273 | From some point on an endless descent follows empty names only, at one path. |
| Descent.LoopNeverEnds | src/cmd/check.rs:207-273 | The scan of a volume whose root lists itself under the empty name never ends. |
| Descent.LineEnds | src/cmd/check.rs:207-273 | Empty names that do not lead back do not keep the scan from ending. |
| Descent.NamedHalts | src/cmd/check.rs:207-273 | Where no directory is listed under the empty name every scan ends. |
| Calendar.Successor | crates/libpfs3/src/util.rs:35-48 | The date of day n + 1 is the Gregorian successor of the date of day n. |
| Calendar.AgreesWithCounting | crates/libpfs3/src/util.rs:35-48 | The conversion agrees with counting days one by one from 1970-01-01. |
| Calendar.YearFound | crates/libpfs3/src/util.rs:37-42 | The division formula finds the year of the era a day lies in. |

## Left out

- WriterModel.CheckVolume: the error for an unreadable root block extension; the extension is written by the formatter and never decoded here.
- Overwriting.HalfNamesExample: a map of names only; `Scenarios.FailsHalfway` is the run.
- Steps.OverfullExample: an anode table, not a whole volume with directories; `Writer.CreateFile` states the case for every volume.
- DiskBytes.FormatBytes: boot blocks and the fields of root block and extension that hold names, dates, sizes and positions; the caller gives them as bytes.
- WriterModel.Writer.Overwrite: what is stored is cut at the size the entry can record, as `Overwriting.RecordedIff` states.
- WriterModel.Writer.Rename: comment, link and owner fields of the entry are dropped by the source and not part of what a name denotes here.
- WriterModel.Writer.AllocAnode: says nothing of memory when it fails; a transaction that failed leaves staged blocks behind, and using the writer after a failure is not modelled.
- Format.FormatDisk: small disks with 512-byte sectors only; the large-disk formatter stores the index block where the reader expects one more level.
- Format.CalcNumReserved: unbounded arithmetic; the source's 32-bit product wraps for disks of more than about 2^40 blocks.
- Refine.EditStore: says what each staged write does to the bytes, one at a time; that the values staged by the writer fit their fields is not carried through its operations, so `DiskBytes.CommitBytes` takes the bytes of the staged blocks as given.
- Writer operations on volumes with a three-level anode index; registration in that index is proved by itself.
- Anode blocks with sequence numbers from 256 on, which the writer never scans.
- Deldir and undelete, which free blocks on a different schedule.
- Hard links and soft links: two entries may share one chain by design.
- The cache inside the writer: index and chain reads take the device content directly, which `Cache.CachedDevice` justifies.
- Block headers and datestamps inside reserved blocks are dropped in the typed model; the byte-level modules write them, and check the identifier of every block.
- Directory comments, protection changes, volume names and their limits.
- Device errors, mutexes, partition tables, the FUSE driver and all printing.
- The wall clock, which is a parameter.
- Non-ASCII names, for which the source measures and compares encoded text.
- Atomicity of the commit itself: metadata is updated in place.
- The check of the root block extension, repairs, and the counters and lists the checker keeps for its report.
- Splitting a path string at slashes; path operations start from the list of its components.
