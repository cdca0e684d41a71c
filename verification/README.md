# K11C storage and NPU verification

A Dafny model of three parts of this repository, with proofs that Dafny checks.

**The storage transaction engine** (`installer/engine`). A disk is a sequence of bytes in 512-byte sectors, and a GUID
partition table is what lies on it: boot sector, header, entry array, and the same again at the other end. `Bytes` and
`Crc32` are the fields and the bitwise checksum, `CrcDivision` the polynomial division it is compared with; `Gpt`, `GptCheck`, `GptEdit`, `GptRepair` and `GptMove` are the checks and
the in-place transformations of `gpt.rs`; `Plan` and `Operations` turn each of the six storage operations into write
segments, and `Determined` says that there is one work for each; `Plans`, `Flash` and `Transaction` are one-use plans, an
unreliable eMMC and the write transaction, `Planning` the making of a plan before it; `Archive` and
`ArchiveFile` are backups and their file, `PartialRestore` says for which tables a HAOS archive can be restored, and
`ArchiveStream` follows the one reader of an archive through the pipelines; `Outcomes` is what the whole eMMC holds after
each operation; `Install` is composition and installation end to end; `Sparse` and `Factory` are the manufacturer images and
their read-back, `SparseFormat` and `FactoryReadback` the same from the side of whoever wrote them; `GptImage` is the inspection of `gpt_image.py`, and `UBoot` the command program of
`prepare-emmc-install.py` together with an interpreter for it. `Samples` are concrete tables at which the code falls short,
and `Formats` spells the conditions of the model out in bytes and characters.

**The concurrency around it.** `Pipeline` and `HashWorker` are the two threads of `pipeline.rs` with their channels, and
`Control` is the handshake between the window, the host and the helper that writes. Each is a state machine whose steps are
the critical sections of the code, and the theorems are about every interleaving.

**The NPU driver** (`k11c_connectivity/npu-source`). `Scheduler`, `SchedulerSteps`, `SchedulerSafety`, `SchedulerProgress`
and `SchedulerDomain` are the gang scheduler and the IOMMU domain count it holds, `SchedulerTasks` which tasks the hardware
is given, `Starvation` the runs of it that starve a job; `Power` is the power reference count with delayed puts, `Voltage` the OPP tables and the order of clock and regulator
steps, and `Iommu` the switching of domains itself.

`dafny verify dfyconfig.toml` checks everything. `Common`, `Spans`, `Disk` and `Bytes` are shared.

## The main results

- Installing HAOS: when the transaction succeeds, the eMMC read through its new table has the seven official partitions
  byte for byte and the prepared data as the eighth, under an accepted table (`Transaction.InstallHaos`).
- The transaction, on a device whose writes may leave anything in the sectors they address and may fail at any point:
  success is the old disk with exactly the planned payloads laid over it, no outcome changes a sector outside the
  confirmed ranges, and a plan is only ever started on the boot area whose digest it carries. When nothing fails, it
  succeeds if and only if the plan is confirmed, permitted, unaltered and ready (`Transaction.Execute`), and a plan made on
  the same device is ready unless what it writes does not last (`Planning.PlanAndExecute`, `Planning.LastingExcept`).
- Five of the six operations always plan whole, disjoint sectors inside the device and leave exactly the tables they
  announced; restoring an archive does so exactly if the places that its table names allow it (`Operations.WorkPlannable`,
  `Operations.WorkSettles`, `PartialRestore.PartialRestoreExactly`). What the whole eMMC then holds is
  `Outcomes.WorkOutcome`, and for a transaction on the device `Outcomes.Carry`.
- An interrupted repair can be run again without ever reaching another geometry (`GptRepair.CrashRestart`), and damage of up
  to four bytes in an entry array is undone (`GptRepair.EntryDamageUndone`).
- Backup and restore are inverse, file format included, whatever the saved table (`ArchiveFile.Create`,
  `ArchiveFile.BackupRestore`, `Transaction.RestoreBackup`), and each segment of an archive receives its own slice of the
  payload from the shared reader (`ArchiveStream.SegmentsReceive`).
- Read-back of manufacturer firmware succeeds if and only if each planned partition is there, has room for its entry and
  holds it (`FactoryReadback.ReadbackExactly`); sparse entries mean what the definition of their format says, and the
  parser accepts exactly the files that it allows (`SparseFormat.WrittenImage`, `SparseFormat.AcceptedWritten`).
- The checksum is CRC-32 by polynomial division (`CrcDivision.CrcIsRemainder`), the emitted U-Boot program is correct
  (`UBoot.ProgramCorrect`), and the script's inspection and the engine's differ only in listed conditions
  (`GptImage.EngineAgrees`).
- The pipelines never block or stall and deliver exactly their range (`Pipeline.FinishExact`, `HashWorker.FinishExact`); a
  cancel before the permission always takes effect, a cancelled or closed operation never writes, and the next one can
  (`Control.CancelTakesEffect`, `Control.NothingAfterClose`, `Control.WritesAgain`).
- From an idle driver, every interleaving keeps the scheduler in order; after the last request it comes to rest within a
  bound, and then every job has finished if and only if each could be started and answered
  (`SchedulerProgress.AllFinishExactly`). It commits at the right moment, and each task of a request goes to one core once
  (`SchedulerTasks.TaskGiven`, `SchedulerTasks.TaskGivenOnce`); the supply is stable while held, and the domain as long as
  no request is refused.
- A rate change never leaves a voltage that was enough too low for the running clock, and a switch of tables ends with
  enough, or fails (`Voltage.Supply.SetRate`, `Voltage.Supply.SwitchTable`).

Where the code does not meet a property, the exact condition is proved instead, with an input at which it fails:

- A HAOS archive of an accepted table can always be restored, and never reaches into the partition tables, if and only if
  its eight entries name non-empty places on the disk, apart from each other and from both tables
  (`PartialRestore.PartialRestoreExactly`). Neither `check` nor `require_k11c` looks at an entry whose type is zero: its
  addresses may wrap around to sector 0 (`Samples.StrayEntry`) or leave no bytes at all (`Samples.EmptyEntry`).
- What an operation writes passes the closing checks except for a partial restore that reaches into the tables and a raw
  image with a classic boot record whose first sectors or tail are nothing but 0xcc: that one is written and then reported
  as unreadable (`Planning.LastingExcept`, `Planning.UnreadableImage`).
- A relocated table is healthy if and only if every moved partition fits (`GptMove.RelocatedHealthy`); the capacity guard
  saturates at 2^32 - 1 sectors and lets one through that does not (`Samples.SaturatedGuard`). An installation never gets
  there, because its image is at most 32 GiB (`Operations.RelocatedRoom`).
- A changed header byte is noticed if and only if the declared header size covers it (`GptRepair.HeaderDamageNoticed`,
  `Samples.UnnoticedByte`).
- The scheduler finishes all jobs if and only if every one of them has PC mode and a task object, neither mask 5 nor mask 6,
  and whole pairs of interrupts in the last task of each slice (`SchedulerSafety.DeadlockFreeExactly`,
  `SchedulerProgress.AllFinishExactly`, `Scheduler.ServableExactly`). `rknpu_submit` asks for none of this, and any other job
  can block a later one for ever (`Starvation.StarvedBehindFive`, `Starvation.StarvedBehindFailed`,
  `Starvation.StarvedBehindMask`, `SchedulerProgress.BlockedForEver`) or, given up, leave it waiting on a free core
  (`Starvation.FreeButWaiting`).
- The domain count is the number of holders if and only if no request was refused its domain (`SchedulerDomain.CountExactly`):
  the abort of such a request puts a domain it never got, and the next request can change the domain under a running job
  (`SchedulerDomain.ChangedUnderJob`).
- The device is attached to the active IOMMU domain if and only if no switch has lost it (`Iommu.RunKeeps`). That never
  happens where the kernel's IOMMU core falls back to the default domain of the group, because every switch resets that
  default (`Iommu.FallbackKeepsDomain`); where it does not, a first attach that fails loses the device, and the domain is
  granted all the same (`Iommu.GrantedDetached`).
- A cold voltage lies under the ceiling of its row if and only if the row leaves room for the delta or its ceiling is the
  supply's (`Voltage.PreparedServes`, `Voltage.ColdOverCeiling`).
- An adjusted row is in order unless the MBIST minimum lifts it over its own ceiling (`Voltage.AdjustedKept`,
  `Voltage.MbistOverCeiling`), and a lowest row above the limit runs below what it requires (`Voltage.FirstUnfit`,
  `Voltage.UnfitLowest`).

## Hypotheses

- SHA-256 is a function whose equal values mean equal arguments (`CollisionFree`, and `Distinct` for plan names). Only the
  footer digest of an archive is taken as 32 bytes; it needs no more than that.
- Compression and the metadata text give back what was put in (`Lossless`).
- A read of the eMMC that succeeds is complete and honest; a write changes only the sectors it addresses (`Emmc`). Where a
  contract speaks of a faultless device, a reliable directory or a faultless supply, none of the failures happen to it that
  it otherwise may have.
- A regulator that succeeds lands between its limits, and a failed clock, regulator or power step leaves things as they were.
- A request to the NPU has at least one task for each core of its mask, all of them in its task object if it has one, and
  task numbers that fit the `int` arithmetic of the driver. A core whose slot is taken interrupts only for a slice that was
  started there; a slice whose last task asks for whole pairs of interrupts is in the end answered by a status that matches,
  and one that asks for none is never answered.
- The voltages that an OPP table asks for do not fall with frequency, no frequency is zero, and every ceiling is at least the
  MBIST minimum (`Voltage.Usable`).
- `iommu_detach_device` either leaves the device attached to no domain or falls back to the default domain of its group,
  and then succeeds; which of the two is a parameter of `Iommu`, and what differs is stated for each.
- Integer arithmetic of the engine wraps around as in a release build; with overflow checks `(end-start+1)*512` of an unused
  entry would stop the program instead of giving the places of `Archive.EntryExtent`.

## Model

| member | source | states |
|---|---|---|
| `Bytes.WriteLe` | installer/engine/src/gpt.rs:11-12 | the in-place field write replaces exactly the k bytes at its offset by the little-endian number |
| `Bytes.LeValue` | installer/engine/src/gpt.rs:2-12 | a number written to a field is read back unchanged, for every width |
| `Bytes.LeInverse` | installer/engine/src/gpt.rs:2-12 | writing back what was read changes no byte |
| `Bytes.LeBytes` | installer/engine/src/gpt.rs:2-12 | a field has equal values in two buffers exactly when its bytes are equal |
| `Bytes.LittleEndian` | installer/engine/src/gpt.rs:2-3 | fields of two, four and eight bytes have the lowest byte first, in figures |
| `Bytes.Put32Reads` | installer/engine/src/gpt.rs:12 | a four-byte write is read back and leaves every other byte alone |
| `Bytes.Put64Reads` | installer/engine/src/gpt.rs:11 | an eight-byte write is read back and leaves every other byte alone |
| `Crc32.Compute` | installer/engine/src/gpt.rs:4 | the nested loops compute the register that CrcDivision shows to be the CRC-32 remainder |
| `Crc32.ComputeByte` | installer/engine/src/gpt.rs:4 | the inner loop is eight shifts of the register after the byte was mixed in |
| `Crc32.ShiftInjective` | installer/engine/src/gpt.rs:4 | one shift of the register is injective |
| `Crc32.FeedInjective` | installer/engine/src/gpt.rs:4 | for a fixed byte the step of the register is injective |
| `Crc32.FoldWord` | installer/engine/src/gpt.rs:4 | four bytes fed one after the other act like one 32-bit word mixed in at once |
| `Crc32.DetectsBurst` | installer/engine/src/gpt.rs:4 | replacing four consecutive bytes by any other four changes the checksum |
| `Crc32.DetectsDamage` | installer/engine/src/gpt.rs:4 | two buffers that differ only within four consecutive bytes have different checksums |
| `CrcDivision.DivisionLaw` | installer/engine/src/gpt.rs:4 | the long division used as reference is one: every polynomial over GF(2) is a product with the generator x^32 + ... + 1 and the remainder of degree under 32 |
| `CrcDivision.CrcIsRemainder` | installer/engine/src/gpt.rs:4 | the checksum of any buffer is the complement of the remainder of its reflected message, first 32 bits inverted, on division by the CRC-32 generator |
| `CrcDivision.CheckValue` | installer/engine/src/gpt.rs:4 | the digits 123456789 have the catalogued check value 0xCBF43926 |
| `Spans.NeighboursSuffice` | installer/engine/src/gpt.rs:63 | on proper spans, sorting and comparing neighbours finds an overlap exactly when some two spans overlap |
| `Spans.NeighboursOverlap` | installer/engine/src/gpt.rs:93 | the window test over a sorted list answers whether every span ends before the next starts |
| `Gpt.SealedKeeps` | installer/engine/src/gpt.rs:13 | sealing changes the checksum field only and makes the header valid; the checksum does not depend on that field |
| `Gpt.SealedUnique` | installer/engine/src/gpt.rs:5-13 | a sealed header is determined by its placement fields and its constant bytes |
| `Gpt.SealedMoved` | installer/engine/src/gpt.rs:69-70 | rewriting the three placement fields and sealing gives the header for the other place, all else equal |
| `Gpt.RetargetedBack` | installer/engine/src/gpt.rs:69-70 | a valid header rewritten for the other copy and back again is the same sector, byte for byte |
| `Gpt.BackupOfValid` | installer/engine/src/gpt.rs:69 | mirroring a valid primary gives a valid backup of the same layout, and a healthy pair if the boot sector is protective |
| `Gpt.PrimaryOfValid` | installer/engine/src/gpt.rs:70 | rebuilding the primary from a valid backup gives a valid copy of the same layout with the boot sector kept |
| `Gpt.PrimaryOfMirrored` | installer/engine/src/gpt.rs:70 | the backup a primary was rebuilt from is exactly the mirror of that primary |
| `GptCheck.ComputeHeaderOk` | installer/engine/src/gpt.rs:5-10 | the header test accepts exactly the well-formed, correctly sealed and correctly placed headers |
| `GptCheck.CollectExtents` | installer/engine/src/gpt.rs:86-92 | the loop collects the extents of exactly the used entries and notices exactly those out of bounds |
| `GptCheck.NeighboursDecide` | installer/engine/src/gpt.rs:93 | once every entry is in bounds, the sorted neighbour test is exactly pairwise disjointness of the partitions |
| `GptCheck.Check` | installer/engine/src/gpt.rs:75-95 | no issue is reported exactly for a healthy pair; otherwise the report names exactly the tests that failed, and counts the partitions |
| `GptCheck.IssuesExactly` | installer/engine/src/gpt.rs:76-95 | each issue is reported if and only if its own test fails |
| `Formats.HeaderExactly` | installer/engine/src/gpt.rs:5-10 | a header passes if and only if its bytes are those of the UEFI specification, in bytes and characters, and its checksum field is the CRC-32 of the header with that field zero |
| `GptEdit.UnitsDecide` | installer/engine/src/gpt.rs:20-21 | decoding the name up to its terminator and comparing is exactly the label test, for plain labels |
| `GptEdit.EntriesDecide` | installer/engine/src/gpt.rs:18-23 | the per-entry tests with the first start are exactly the K11C layout: eight labelled entries above the reservation and zeros after |
| `GptEdit.RequireK11c` | installer/engine/src/gpt.rs:15-24 | accepts exactly the healthy pairs with the K11C layout, and tells an unhealthy pair from a foreign layout |
| `Formats.K11cExactly` | installer/engine/src/gpt.rs:17-23 | the K11C layout in bytes and characters: the eight names, the first partition at sector 34816, none below, nothing else |
| `GptEdit.Seal` | installer/engine/src/gpt.rs:13 | in place, only the header sector changes, into its sealed form |
| `GptEdit.Retarget` | installer/engine/src/gpt.rs:69-70 | in place, the header sector becomes the only sealed header for the new place, all other bytes stay |
| `GptEdit.Backup` | installer/engine/src/gpt.rs:38-39 | the backup copy built from a primary is its mirror |
| `GptEdit.Primary` | installer/engine/src/gpt.rs:70 | the primary copy built from a backup is its mirror behind the old boot sector |
| `GptEdit.ComputeCopyValid` | installer/engine/src/gpt.rs:58-64 | the closure accepts exactly the copies with valid header, array checksum, bounds and disjoint partitions |
| `GptEdit.Repair` | installer/engine/src/gpt.rs:54-72 | computes the repair that the theorems below are about, with the same error in every refusing case |
| `GptRepair.RepairedSound` | installer/engine/src/gpt.rs:54-72 | a repaired pair is accepted and mirrored, keeps the boot sector, and takes its layout from a copy that was valid |
| `GptRepair.RepairedFixpoint` | installer/engine/src/gpt.rs:54-72 | an accepted, mirrored pair is returned unchanged |
| `GptRepair.RepairedIdempotent` | installer/engine/src/gpt.rs:54-72 | repairing twice is repairing once |
| `GptRepair.UndoesBackupDamage` | installer/engine/src/gpt.rs:69 | any damage that makes the backup invalid is undone byte for byte |
| `GptRepair.UndoesPrimaryDamage` | installer/engine/src/gpt.rs:70 | any damage behind the boot sector that makes the primary invalid is undone byte for byte |
| `GptRepair.ArrayDamageNoticed` | installer/engine/src/gpt.rs:58-59 | no change within four consecutive bytes of an entry array leaves its copy valid |
| `GptRepair.EntryDamageUndone` | installer/engine/src/gpt.rs:54-72 | four damaged bytes in the entry array of either copy are found out and repaired to the original pair |
| `GptRepair.HeaderDamageNoticed` | installer/engine/src/gpt.rs:5-10 | one changed header byte outside the size field is noticed exactly when the declared header size covers it |
| `Samples.UnnoticedByte` | installer/engine/src/gpt.rs:5-10 | a valid header and a changed byte behind its declared size that leaves it valid |
| `GptRepair.RestartAfterTornBackup` | installer/engine/src/gpt.rs:54-72 | with anything at all in the backup a valid primary was being mirrored to, repair gives the same result or refuses as ambiguous, exactly when the torn copy is valid and different |
| `GptRepair.RestartAfterTornPrimary` | installer/engine/src/gpt.rs:54-72 | with anything at all behind the boot sector of the primary being rebuilt, repair settles on the same entry array or refuses as ambiguous |
| `GptRepair.CrashRestart` | installer/engine/src/flash.rs:199-205 | whichever sectors of an interrupted repair landed, the trusted copy is untouched and a new repair reaches the same entry array or refuses, never another geometry |
| `GptMove.ShiftedLayout` | installer/engine/src/gpt.rs:34 | moving every used entry keeps partitions disjoint and in bounds exactly when each still ends inside the target |
| `GptMove.RelocatedHealthy` | installer/engine/src/gpt.rs:33-39 | a relocated healthy pair is healthy exactly when every moved partition fits the target |
| `GptMove.K11cShifted` | installer/engine/src/gpt.rs:15-24 | a moved table has the K11C layout exactly when the source has its labels and starts one reservation lower |
| `GptMove.ResizedHealthy` | installer/engine/src/gpt.rs:44-51 | for every healthy pair and every larger size the resized pair is healthy, so the check at the end never fails |
| `GptMove.DataResizedHealthy` | installer/engine/src/components.rs:164-171 | the stretched table is healthy exactly when every other partition lies below the data partition and that one is not empty |
| `GptEdit.EntryShifted` | installer/engine/src/gpt.rs:34 | a moved entry differs from the old one in its two addresses only, each 32768 higher |
| `GptEdit.ShiftEntries` | installer/engine/src/gpt.rs:34 | exactly the used entries are moved, in place, and no other byte changes |
| `GptEdit.Rebuild` | installer/engine/src/gpt.rs:33-39 | the new primary has the given entry array, an adapted and sealed header, and a boot sector changed in the disk size only |
| `GptEdit.FitsUnlessSaturated` | installer/engine/src/gpt.rs:32-40 | with the 32768 spare sectors really there, no partition of a healthy table can fail to fit |
| `Samples.SaturatedGuard` | installer/engine/src/gpt.rs:29-32 | a table of 2^32 - 1 sectors that passes every guard of the relocation and does not fit |
| `Operations.RelocatedRoom` | installer/engine/src/flash.rs:147 | for the images an installation accepts, at most 32 GiB, the guard cannot saturate |
| `GptEdit.RefuseRelocation` | installer/engine/src/gpt.rs:29-32 | which of the guards refuses, in the order of the source |
| `GptEdit.Relocate` | installer/engine/src/gpt.rs:28-41 | succeeds exactly when the guards pass and the moved table is a fitting K11C table; the result is accepted and mirrored |
| `GptEdit.Resize` | installer/engine/src/gpt.rs:44-51 | succeeds exactly for a healthy pair and a target not smaller; the result is healthy and mirrored |
| `GptEdit.ResizeData` | installer/engine/src/components.rs:164-171 | succeeds exactly when the sizes add up and the data partition is the last; the result is healthy and mirrored |
| `Disk.LaidOutside` | installer/engine/src/flash.rs:334-365 | writing segments leaves every byte outside them as it was |
| `Disk.LaidByte` | installer/engine/src/flash.rs:334-365 | the last segment to cover a byte decides it |
| `Disk.LaidCopies` | installer/engine/src/flash.rs:182 | segments copied from one disk make another agree with it exactly where they lie |
| `Disk.SpansDecide` | installer/engine/src/flash.rs:61-69 | with the lengths aligned and inside, the sorted neighbour test is exactly pairwise disjointness of the segments |
| `Disk.ValidateRanges` | installer/engine/src/flash.rs:61-69 | accepts exactly the lists of whole, disjoint sector runs inside the device |
| `Archive.Overlay` | installer/engine/src/archive.rs:208 | the copied part is exactly the intersection of block and window, nothing else of the window changes |
| `Archive.OverlaidIsWindow` | installer/engine/src/archive.rs:208 | after the overlay the window shows the disk with the block written to it |
| `Archive.OverlaidGrows` | installer/engine/src/archive.rs:186-187 | overlaying block by block is overlaying the whole range at once |
| `Archive.ReadRange` | installer/engine/src/archive.rs:184-190 | a range is read off the stream completely or refused, and both windows have it overlaid |
| `Archive.Verify` | installer/engine/src/archive.rs:181-201 | accepts exactly the payloads that are complete, carry the promised digest in every range, and contain the saved tables |
| `Formats.SavedExactly` | installer/engine/src/archive.rs:48-60 | which bytes a backup of each kind saves: all; the first 34816 and the last 33 sectors; or exactly those of the eight partitions of a table that uses all eight entries |
| `Formats.FrameSpelled` | installer/engine/src/archive.rs:10-11 | the framed file in bytes and characters: name, payload, metadata, digest, length, name |
| `ArchiveFile.ParsedFramed` | installer/engine/src/archive.rs:89-95 | every framed archive is parsed back into what was framed |
| `ArchiveFile.FramedParsed` | installer/engine/src/archive.rs:156-169 | a file is accepted only if it is byte for byte a frame of what was parsed |
| `ArchiveFile.SegmentsPlannable` | installer/engine/src/archive.rs:48-60 | an archive's segments pass the range check if and only if the places its table names are non-empty, on the disk and apart |
| `ArchiveFile.EightUsedFit` | installer/engine/src/archive.rs:56-60 | the places of eight entries in use always are, and stay clear of the boot area and both tables |
| `ArchiveFile.TablesInPayload` | installer/engine/src/archive.rs:184-199 | the window comparison holds exactly when the payload begins with the saved primary and ends with the saved tail |
| `ArchiveFile.OpenedFramed` | installer/engine/src/archive.rs:156-169 | what was written under valid metadata opens as exactly that metadata and payload |
| `ArchiveFile.ReadAll` | installer/engine/src/archive.rs:104-111 | succeeds exactly when every range can be read; the ranges carry the digests and the payload is their contents in order |
| `ArchiveFile.Compare` | installer/engine/src/archive.rs:131-138 | accepts exactly when every range is read again with the saved digest |
| `ArchiveFile.FirstPass` | installer/engine/src/archive.rs:97-114 | the metadata describes what the pass read, range by range |
| `ArchiveFile.Publish` | installer/engine/src/archive.rs:121-124 | a file gets its name exactly when its metadata is valid and short enough and its payload passes verify; it opens as what was saved |
| `ArchiveFile.SteadyFaithful` | installer/engine/src/archive.rs:96-130 | what is gathered from a device that does not change passes verify |
| `ArchiveFile.Create` | installer/engine/src/archive.rs:96-130 | an archive comes out only if it opens, is faithful and holds what the second pass found; on an unchanging device it comes out exactly when every range can be read and its metadata fits |
| `ArchiveFile.RestoreSaved` | installer/engine/src/flash.rs:175-185 | restoring puts back every saved byte and changes no other, whatever table the archive was made of |
| `ArchiveFile.BackupRestore` | installer/engine/src/flash.rs:175-185 | an archive file opened and restored onto any disk of that size is the inverse of the backup, file format included; it can be restored if and only if the places of its table fit the disk |
| `ArchiveStream.SegmentsReceive` | installer/engine/src/flash.rs:334-357 | over any interleaving of the successive pipelines that share one archive reader, segment i receives and digests exactly slice i of the payload |
| `ArchiveStream.AllReceived` | installer/engine/src/flash.rs:334-357 | all of them together receive what restoring the archive is to write |
| `PartialRestore.PartialRestoreExactly` | installer/engine/src/flash.rs:175-185 | for an accepted saved table: every archive of it, restored onto every disk it may be planned for, passes the range check and leaves the disk's tables, if and only if its eight places are non-empty, on the disk, apart, and out of both tables |
| `PartialRestore.EightUsedSound` | installer/engine/src/flash.rs:175-185 | as a corollary, whenever the eight entries are in use |
| `PartialRestore.StrayRestore` | installer/engine/src/flash.rs:175-185 | a place inside a table does harm as soon as the saved disk and the restored one differ there |
| `Samples.StrayEntry` | installer/engine/src/archive.rs:56-60 | an accepted table, its unused eighth entry wrapped around to sector 0: the plan passes the range check and can overwrite the boot sector |
| `Samples.EmptyEntry` | installer/engine/src/archive.rs:56-60 | an accepted table, its unused eighth entry empty: every disk can be backed up, and every restore of it is refused |
| `Samples.HarmlessEntry` | installer/engine/src/archive.rs:56-60 | an accepted table with an unused eighth entry that does no harm |
| `Plan.FactoryGptSettles` | installer/engine/src/flash.rs:129-134 | a GPT image moved to the device leaves exactly the announced pair of tables |
| `Plan.FactoryGptHolds` | installer/engine/src/flash.rs:129-134 | and the whole usable area is the image's |
| `Plan.FactoryGptCleared` | installer/engine/src/flash.rs:129-134 | the place of the image's own backup table is blank, and what lies behind it up to the new one is as before |
| `Plan.FactoryMbrSettles` | installer/engine/src/flash.rs:135-141 | an MBR image leaves exactly the announced head and tail, also when it ends inside the last 33 sectors |
| `Plan.FactoryMbrHolds` | installer/engine/src/flash.rs:135-141 | the image is on the disk from the first sector on |
| `Plan.FactoryMbrCleared` | installer/engine/src/flash.rs:140 | what follows the image inside the old table's place is zero |
| `Plan.InstalledSettles` | installer/engine/src/flash.rs:143-168 | an installation leaves exactly the announced pair of tables |
| `Plan.InstalledPartitions` | installer/engine/src/flash.rs:161 | everything past the first partition of the image lies 32768 sectors further along |
| `Plan.InstalledFirmware` | installer/engine/src/flash.rs:158-164 | the reserved area holds the firmware at sector 64 and zeros elsewhere |
| `Plan.InstalledCleared` | installer/engine/src/flash.rs:162-163 | the moved place of the image's own backup table is blank, and what lies behind it up to the new one is as before |
| `Plan.UbootSettles` | installer/engine/src/flash.rs:169-174 | only the firmware's bytes change, the tables stay |
| `Plan.RestoredSettles` | installer/engine/src/flash.rs:186-198 | a boot restore leaves exactly the saved tables |
| `Plan.RestoredHolds` | installer/engine/src/flash.rs:193-194 | the saved reserved area is back, both parts of it |
| `Plan.RestoredKeeps` | installer/engine/src/flash.rs:186-198 | a boot restore changes nothing between boot area and backup table |
| `Plan.RewrittenSettles` | installer/engine/src/flash.rs:199-205 | a repair that writes only the changed copies still leaves the whole repaired pair |
| `Plan.RewrittenHolds` | installer/engine/src/flash.rs:199-205 | a repair changes nothing between the two copies |
| `Operations.FindHassos` | installer/engine/src/factory.rs:160 | the window search finds exactly the tables that name a HAOS partition |
| `Operations.CheckMbr` | installer/engine/src/factory.rs:162-165 | accepts exactly the boot records with primary partitions inside the image that do not overlap, at least one |
| `Operations.RawLayout` | installer/engine/src/factory.rs:153-167 | accepts exactly whole-disk images with a healthy foreign GPT or a plain boot record |
| `Operations.BuildFactory` | installer/engine/src/flash.rs:124-142 | succeeds exactly for an accepted image that fits; the work is the one the settling theorems describe |
| `Operations.InspectImage` | installer/engine/src/images.rs:244-256 | accepts exactly the images with eight named, identified partitions and an EFI system partition first |
| `Formats.SystemTypeSpelled` | installer/engine/src/images.rs:256 | the type asked for is C12A7328-F81F-11D2-BA4B-00A0C93EC93B, in its mixed byte order |
| `Formats.NeverBoth` | installer/engine/src/factory.rs:160 | no image is accepted both as a manufacturer image and as an inspected HAOS image |
| `Operations.BuildInstall` | installer/engine/src/flash.rs:143-168 | succeeds exactly for an inspected image whose table can be moved; the tables are accepted and mirrored |
| `Operations.BuildArchive` | installer/engine/src/flash.rs:175-185 | succeeds exactly at the same capacity and, for a partial restore, on the saved partition layout |
| `Operations.BuildRestore` | installer/engine/src/flash.rs:186-198 | succeeds exactly when the saved pair is accepted and the repaired current layout is the saved one |
| `Operations.BuildRepair` | installer/engine/src/flash.rs:199-205 | succeeds exactly when the current pair can be repaired; only changed copies become segments |
| `Operations.Build` | installer/engine/src/flash.rs:120-210 | succeeds if and only if the operation's own conditions hold and, for an archive, the places of its table fit the disk |
| `Operations.WorkPlannable` | installer/engine/src/flash.rs:120-210 | for all six operations the segments are whole sectors, inside the device and pairwise disjoint; for an archive if and only if the places of its table are |
| `Operations.WorkSettles` | installer/engine/src/flash.rs:120-210 | for all six operations, applying the segments to the captured disk leaves exactly the announced primary and tail, for a partial restore if its places stay out of them |
| `Install.Compose` | installer/engine/src/components.rs:141-163 | succeeds exactly for an inspected official image, a hassos-data file system and a data partition that is the last, within the size limit |
| `Install.StillInspected` | installer/engine/src/components.rs:159 | the inspection that closes a composition never fails |
| `Install.ComposedPartition` | installer/engine/src/components.rs:141-171 | a composed image carries the seven official partitions at their places and the prepared data as the eighth |
| `Install.InstalledPartition` | installer/engine/src/flash.rs:155-161 | an installed partition has the image's contents, further along |
| `Install.InstallationPreservesPartitions` | installer/engine/src/flash.rs:143-168 | the disk read through its new table yields the seven official partitions byte for byte, the eighth equal to the prepared data, and every entry unchanged but for its addresses |
| `Plans.Store.Save` | installer/engine/src/flash.rs:212-229 | issues the least attempt that is not consumed, after at most one try per consumed plan, or leaves the shelf alone |
| `Plans.Store.Load` | installer/engine/src/flash.rs:284-294 | returns a pending plan exactly when it still has the name of its contents |
| `Plans.Store.Claim` | installer/engine/src/flash.rs:324-325 | the rename consumes the plan or does nothing; on a reliable directory a pending plan is consumed |
| `Plans.ConsumedCount` | installer/engine/src/flash.rs:212-229 | n consecutive consumed attempts need n consumed plans, which bounds the loop |
| `Plans.RunOrderly` | installer/engine/src/flash.rs:212-229 | over every run no name is both pending and consumed |
| `Plans.AtMostOnce` | installer/engine/src/flash.rs:212-229 | over every run of planning, executing, crashing and planning again, a started plan is never started or issued again |
| `Flash.ImageHashes` | installer/engine/src/flash.rs:45-55 | one pass in chunks gives the digest of the whole file and of the payload inside it |
| `Flash.Emmc.Read` | installer/engine/src/workflow.rs:37-41 | the device hypothesis: a read that succeeds is complete and honest, and on a faultless device every read inside it succeeds |
| `Flash.Emmc.Write` | installer/engine/src/flash.rs:347-349 | the device hypothesis: a write touches only the sectors it addresses, whatever it leaves there; on a faultless device it writes exactly its data |
| `Flash.Send` | installer/engine/src/flash.rs:343-355 | however the writes end, nothing outside the segment changes; without faults the segment arrives |
| `Flash.ReadDigest` | installer/engine/src/pipeline.rs:141-151 | the digest is that of the whole range on the device |
| `Flash.Transfer` | installer/engine/src/flash.rs:334-365 | success of one segment means that exactly its bytes are on the disk; any outcome leaves the rest alone; without faults it succeeds |
| `Flash.TransferAll` | installer/engine/src/flash.rs:334-365 | success of all means the old disk with the segments laid over it; any outcome leaves the rest alone; without faults it succeeds |
| `Flash.Capture` | installer/engine/src/flash.rs:113-119 | a capture that succeeds shows the boot area and the tail that are on the device; without faults it succeeds exactly if neither table reads as the denial sentinel |
| `Determined.WorkUnique` | installer/engine/src/flash.rs:120-210 | what an operation writes is determined by the operation and the captured boot area: two works that meet its conditions are equal |
| `Transaction.Recall` | installer/engine/src/flash.rs:309-314 | goes on exactly with the boot area that has the planned digest, or the named backup |
| `Transaction.CheckAfter` | installer/engine/src/flash.rs:366-373 | accepts exactly the final states with the intended tables and, for boot and repair operations, an untouched rest |
| `Transaction.Confirm` | installer/engine/src/flash.rs:319-322 | passes only if the device still holds what the plan was made for, and without faults whenever it does and is the planned one |
| `Transaction.Prepare` | installer/engine/src/flash.rs:302-322 | nothing is written; the plan carries the digest of this boot area, or its backup shows it, and the work is the one whose ranges were confirmed; without faults it succeeds exactly then |
| `Transaction.Perform` | installer/engine/src/flash.rs:329-380 | segments and closing checks: success means the segments are laid and checked; without faults it succeeds if the written disk passes the checks |
| `Transaction.ClosingHolds` | installer/engine/src/flash.rs:366-373 | if the written disk has the announced tables, the other closing checks cannot fail |
| `Transaction.Begin` | installer/engine/src/flash.rs:301-327 | everything before the first write: the gate is asked once all is checked and the plan consumed once it opened |
| `Transaction.Execute` | installer/engine/src/flash.rs:301-382 | a plan is consumed before any write, only with permission, and only for the boot area whose digest it carries; no sector outside the confirmed ranges ever changes; success means the old disk with exactly the planned payloads laid over it; without faults it succeeds if and only if the plan is confirmed, permitted, unaltered and ready |
| `Transaction.InstallHaos` | installer/engine/src/flash.rs:143-168 | from the two inputs to the device: success means an accepted table and the eight delivered partitions on the real disk |
| `Transaction.RestoreBackup` | installer/engine/src/flash.rs:175-185 | from a backup file to the device: success means every saved byte is back and no other changed, whatever the saved table; a FULL backup is the whole disk |
| `Planning.Draw` | installer/engine/src/flash.rs:243-251 | the captured boot area of this device and the operation's work on it; without faults it succeeds if and only if the boot area can be read and the operation built |
| `Planning.Draft` | installer/engine/src/flash.rs:268-279 | the record is for exactly the ranges that building gives; a legacy plan is refused exactly if its backup shows another boot area, and any other carries the digest |
| `Planning.MakePlan` | installer/engine/src/flash.rs:243-283 | a plan that was saved is pending under its own name and can be rebuilt on this disk; nothing is saved exactly if there is nothing to write; without faults and with an unaltered directory it succeeds exactly when the operation can be drawn and a legacy backup shows the boot area |
| `Planning.PlanAndExecute` | installer/engine/src/flash.rs:243-382 | a plan made on a device and carried out on it: without faults it succeeds if and only if the gate opens and what it writes lasts |
| `Planning.LastingExcept` | installer/engine/src/flash.rs:366-373 | what every operation writes passes the closing checks, except a partial restore that reaches into the tables and a raw image that reads as denied |
| `Planning.UnreadableImage` | installer/engine/src/flash.rs:113-119 | a raw image whose first sectors or tail are all 0xcc is written and then always reported as unreadable |
| `Planning.AlwaysDrawable` | installer/engine/src/flash.rs:120-210 | an eMMC with an accepted and mirrored pair can always be given a boot firmware and its own boot backup, and needs no repair |
| `Outcomes.WorkOutcome` | installer/engine/src/flash.rs:120-210 | for every operation, what the whole disk is after its segments, old table places and unchanged sectors included; a boot or partial restore keeps the partition entries that the repaired current table had |
| `Outcomes.Carry` | installer/engine/src/flash.rs:301-382 | a transaction that succeeds leaves the eMMC in exactly that state |
| `Pipeline.NeverBlocks` | installer/engine/src/pipeline.rs:36-71 | no channel ever makes its sender wait |
| `Pipeline.ReceivedExpected` | installer/engine/src/pipeline.rs:18-24 | every received block passes check_block: it is the next one, with the bytes of the source |
| `Pipeline.NeverStuck` | installer/engine/src/pipeline.rs:60-71 | a consumer that recycles each block is never left waiting while blocks are missing |
| `Pipeline.ClosedGoesOn` | installer/engine/src/pipeline.rs:72-87 | after disconnecting, a worker that has not stopped can go on, so the join ends |
| `Pipeline.EveryStepCounts` | installer/engine/src/pipeline.rs:36-80 | every step of either thread lowers a bounded measure |
| `Pipeline.FinishExact` | installer/engine/src/pipeline.rs:72-80 | success means exactly the whole range was read, digested and delivered and the reader stands behind it, ready for the next segment; it is success exactly when everything was taken |
| `Pipeline.StepKeeps` | installer/engine/src/pipeline.rs:36-80 | every interleaved step keeps the three buffers, the order and the contents |
| `Pipeline.RunKeeps` | installer/engine/src/pipeline.rs:36-80 | and so does every run |
| `HashWorker.NeverBlocks` | installer/engine/src/pipeline.rs:97-121 | neither channel of the digest thread makes its sender wait |
| `HashWorker.NeverStuck` | installer/engine/src/pipeline.rs:116-121 | a caller that submits every buffer it takes never waits for one in vain |
| `HashWorker.ClosedGoesOn` | installer/engine/src/pipeline.rs:122-139 | once the input is closed the thread can go on until it ends |
| `HashWorker.EveryStepCounts` | installer/engine/src/pipeline.rs:97-139 | every step lowers a bounded measure, so draining and joining terminate |
| `HashWorker.FinishExact` | installer/engine/src/pipeline.rs:122-132 | finish succeeds exactly when the whole range was submitted, and the digest is that of the submitted bytes in order |
| `HashWorker.DigestsRange` | installer/engine/src/pipeline.rs:141-151 | a caller that reads a range block by block and submits it gets a digest of exactly that range, over any interleaving |
| `HashWorker.StepKeeps` | installer/engine/src/pipeline.rs:97-139 | every interleaved step keeps buffers, order and contents |
| `HashWorker.RunKeeps` | installer/engine/src/pipeline.rs:97-139 | and so does every run |
| `Control.WriteControl.Begin` | installer/src-tauri/src/main.rs:12-16 | granted exactly unless the window is closing, and then the stage is preparing |
| `Control.WriteControl.Cancel` | installer/src-tauri/src/main.rs:17-23 | granted exactly while preparing or already cancelled, and then the stage is cancelled; otherwise which of the three refusals is given |
| `Control.WriteControl.CloseBlocked` | installer/src-tauri/src/main.rs:25-31 | blocked exactly while writing, and then nothing changes; otherwise the stage is closing |
| `Control.WriteControl.Permit` | installer/src-tauri/src/main.rs:32-38 | granted exactly from the preparing stage: the fields are set whatever the pipe does, and otherwise nothing changes and no byte goes out |
| `Control.WriteControl.Finish` | installer/src-tauri/src/main.rs:39 | writing is cleared, the stage is idle, a closing window stays closing |
| `Control.StepKeeps` | installer/src-tauri/src/main.rs:62-106 | every step of window, host and helper keeps the invariant of the handshake, a permit to a helper that has exited included |
| `Control.WriteNeedsPermission` | installer/src-tauri/src/main.rs:80-96 | a permit byte or a write only happens in an operation not cancelled and before closing, and from then on neither cancel nor close changes anything |
| `Control.NothingAfterClose` | installer/src-tauri/src/main.rs:25-38 | once closing was allowed, no later permit, no later write and no new operation |
| `Control.NothingAfterCancel` | installer/src-tauri/src/main.rs:17-38 | after a cancel that found the operation preparing, no permit and no write before the host has finished |
| `Control.CancelTakesEffect` | installer/src-tauri/src/main.rs:12-39 | over every run, a cancel in an operation that was not permitted, with no closing window, leaves it cancelled, and nothing is written before the host has finished |
| `Control.CancelledEnds` | installer/src-tauri/src/main.rs:79-97 | the host of a cancelled operation always has a step, and every step it takes brings it nearer to its end |
| `Control.WritesAgain` | installer/src-tauri/src/main.rs:12-106 | from every reachable state without a closing window the host can finish within three steps, and the next operation can then be permitted and write |
| `Scheduler.StartedMasks` | k11c_connectivity/npu-source/src/rknpu_job.c:409-434 | of the masks that name a core, all but 5 and 6 have a case that names every one of their cores |
| `Scheduler.FuzzTwice` | k11c_connectivity/npu-source/src/rknpu_job.c:622-645 | a status already made of whole pairs is left as it is |
| `Scheduler.AnsweredExactly` | k11c_connectivity/npu-source/src/rknpu_job.c:622-686 | the interrupt masks that some status is taken for are those made of whole pairs of bits |
| `Scheduler.FuzzPairs` | k11c_connectivity/npu-source/src/rknpu_job.c:622-645 | of each of the six pairs of status bits both are set if one was and none otherwise, and no other bits |
| `Scheduler.ServableExactly` | k11c_connectivity/npu-source/src/rknpu_job.c:301-434 | a request can be started on every core and answered for every slice if and only if it has PC mode and a task object, not mask 5 or 6, and whole pairs of interrupts in the last task of each slice |
| `Scheduler.SlicesTile` | k11c_connectivity/npu-source/src/rknpu_job.c:340-343 | the slices of a part are non-empty, within the limit, and tile it without gap or overlap |
| `Scheduler.ScheduleCoreIndex` | k11c_connectivity/npu-source/src/rknpu_job.c:515-530 | the first of the least loaded cores |
| `Scheduler.QuietFinished` | k11c_connectivity/npu-source/src/rknpu_job.c:436-566 | with nothing running that could be answered and no call pending, every job has finished on every core, if all could be served |
| `Scheduler.QuietEmpty` | k11c_connectivity/npu-source/src/rknpu_job.c:436-566 | and then every queue and every slot is empty |
| `SchedulerSteps.StepKeeps` | k11c_connectivity/npu-source/src/rknpu_job.c:436-566 | every atomic step of enqueueing, taking, committing, interrupts and completion keeps the invariant |
| `SchedulerSafety.RunKeeps` | k11c_connectivity/npu-source/src/rknpu_job.c:436-566 | every state reached from an idle driver by any interleaving is in order, domain count included |
| `SchedulerSafety.CommitMoment` | k11c_connectivity/npu-source/src/rknpu_job.c:463-464 | a decrement commits the job exactly when it was the last core to be counted, and then the job holds the slot of every core of its mask |
| `SchedulerSafety.OnlyDecrementCommits` | k11c_connectivity/npu-source/src/rknpu_job.c:409-465 | no other step commits a job |
| `SchedulerSafety.FinishedCommittedOnce` | k11c_connectivity/npu-source/src/rknpu_job.c:463-464 | a finished job was committed exactly once |
| `SchedulerSafety.NeverDeadlocked` | k11c_connectivity/npu-source/src/rknpu_job.c:436-566 | over every run of jobs that can be served: once nothing moves, queues are empty and every job was committed once and has finished |
| `SchedulerSafety.UnstartedStuck` | k11c_connectivity/npu-source/src/rknpu_job.c:301-434 | a committed job is stuck on every core that its commit could not start: mask 5 or 6, no PC mode, no task object |
| `SchedulerSafety.StuckKeepsSlot` | k11c_connectivity/npu-source/src/rknpu_job.c:436-513 | a job stuck on a core, not started there or running a slice that no interrupt answers, keeps the slot in every step until its submitter gives it up |
| `SchedulerSafety.DeadlockFreeExactly` | k11c_connectivity/npu-source/src/rknpu_job.c:301-566 | once nothing moves, all jobs have finished if and only if all of them could be served |
| `SchedulerProgress.QuietExactly` | k11c_connectivity/npu-source/src/rknpu_job.c:436-566 | nothing moves any more exactly when no step of the driver or the hardware is possible and every admitted job is queued |
| `SchedulerProgress.OwnStepLowers` | k11c_connectivity/npu-source/src/rknpu_job.c:436-566 | every step of the driver or the hardware lowers a bounded measure |
| `SchedulerProgress.OwnStepsBounded` | k11c_connectivity/npu-source/src/rknpu_job.c:436-566 | between requests they take no more steps than that measure |
| `SchedulerProgress.AllFinishExactly` | k11c_connectivity/npu-source/src/rknpu_job.c:301-566 | a run that can go no further by itself has finished every job if and only if all of them could be served |
| `SchedulerProgress.BlockedForEver` | k11c_connectivity/npu-source/src/rknpu_job.c:436-465 | a job that waits behind a stuck one waits in every later state, whatever it asks for itself, unless the stuck job is given up |
| `Starvation.StarvedBehindFive` | k11c_connectivity/npu-source/src/rknpu_job.c:409-434 | a run from an idle driver that ends with a committed job of mask 5 none of whose cores was started, and a job of mask 1 blocked behind it |
| `Starvation.StarvedBehindFailed` | k11c_connectivity/npu-source/src/rknpu_job.c:301-404 | for every such request without PC mode or task object: a run in which the interrupt of the job before commits it, and which ends with a job that could be served blocked behind it |
| `Starvation.StarvedBehindMask` | k11c_connectivity/npu-source/src/rknpu_job.c:622-686 | for every interrupt mask that is not made of whole pairs: a run that ends with a job running for ever and one that could be served blocked behind it |
| `Starvation.FreeButWaiting` | k11c_connectivity/npu-source/src/rknpu_job.c:568-592 | a run in which a submitter gives up its failed job, and a job that could be served is left waiting on the free core |
| `SchedulerSafety.EachTaskOnce` | k11c_connectivity/npu-source/src/rknpu_job.c:340-382 | over every run, what a core was given for a job is exactly the first slices of its part, in order, each once |
| `SchedulerSafety.AllTasksOnce` | k11c_connectivity/npu-source/src/rknpu_job.c:475-480 | for a finished job these are all slices of its part |
| `SchedulerTasks.TaskGiven` | k11c_connectivity/npu-source/src/rknpu_job.c:327-343 | over every run, each task of a finished request whose task table divides it among its cores was given to the hardware |
| `SchedulerTasks.TaskGivenOnce` | k11c_connectivity/npu-source/src/rknpu_job.c:327-343 | and to one core in one slice only, and no other task was given |
| `SchedulerTasks.ConsecutiveTile` | k11c_connectivity/npu-source/src/rknpu_job.c:327-343 | rows one behind the other divide a request in that sense |
| `SchedulerDomain.StepDomain` | k11c_connectivity/npu-source/src/rknpu_iommu.c:183-235 | every step keeps the domain count in step with its holders, except that a refused request takes one off; while the count is right every holder finds its domain active |
| `SchedulerDomain.CountExactly` | k11c_connectivity/npu-source/src/rknpu_job.c:547-576 | over every run the count is the number of holders if and only if no request was refused its domain, and then every holder wants the active domain |
| `SchedulerDomain.DomainStable` | k11c_connectivity/npu-source/src/rknpu_job.c:492-495 | without a refused request, while a job is unfinished the active domain is the one it asked for and no step changes it |
| `SchedulerDomain.ChangedUnderJob` | k11c_connectivity/npu-source/src/rknpu_job.c:547-576 | a run in which a request is refused and aborted, and the next one is granted another domain while a job still holds the old one |
| `Iommu.Device.SwitchDomain` | k11c_connectivity/npu-source/src/rknpu_iommu.c:87-181 | a switch succeeds onto the asked domain, which becomes the default of the group, or changes nothing, or leaves the device detached |
| `Iommu.Device.Pass` | k11c_connectivity/npu-source/src/rknpu_iommu.c:191-225 | one pass through the lock grants, asks for a retry or refuses as the protocol step says; without faults the active domain is always granted, another exactly if nobody holds one and the device is attached |
| `Iommu.Device.Put` | k11c_connectivity/npu-source/src/rknpu_iommu.c:230-235 | only the count changes |
| `Iommu.StepKeeps` | k11c_connectivity/npu-source/src/rknpu_iommu.c:183-235 | every step of matched gets and puts keeps count equal to holders and every holder on the active domain, which no step changes while held |
| `Iommu.RunKeeps` | k11c_connectivity/npu-source/src/rknpu_iommu.c:183-235 | over every run the active domain is what every holder asked for, and the device is attached to it if and only if no switch has lost it |
| `Iommu.StableWhileHeld` | k11c_connectivity/npu-source/src/rknpu_iommu.c:183-235 | while anyone holds a domain, no step changes the active one or detaches the device |
| `Iommu.FallbackKeepsDomain` | k11c_connectivity/npu-source/src/rknpu_iommu.c:174-175 | where detaching falls back to the default domain of the group, the device is attached to the active domain in every reachable state |
| `Iommu.LostForever` | k11c_connectivity/npu-source/src/rknpu_iommu.c:115-121 | a switch can lose the device only without that fallback, and then it is attached to none for ever |
| `Iommu.GrantedDetached` | k11c_connectivity/npu-source/src/rknpu_iommu.c:141-160 | without the fallback, a run in which a failed first attach is followed by a grant of domain 0 on a device attached to none |
| `Iommu.GrantsAgree` | k11c_connectivity/npu-source/src/rknpu_iommu.c:194-213 | a domain is granted exactly when the scheduler model lets a holder in |
| `Power.Device.Get` | k11c_connectivity/npu-source/src/rknpu_drv.c:372-385 | granted exactly if the device is on already or can be switched on; count and supply follow, unchanged otherwise |
| `Power.Device.Drop` | k11c_connectivity/npu-source/src/rknpu_drv.c:360-366 | the locked part shared by put and the delayed work, asking for a retry if switching off fails |
| `Power.Device.PutDelay` | k11c_connectivity/npu-source/src/rknpu_drv.c:410-417 | the last reference queues the work, any other is dropped at once |
| `Power.StepKeeps` | k11c_connectivity/npu-source/src/rknpu_drv.c:354-420 | every interleaved step keeps: count equals holders plus queued, running and retried puts; powered exactly while positive |
| `Power.RequestNeverLost` | k11c_connectivity/npu-source/src/rknpu_drv.c:405-420 | whoever asks for the delayed work finds it neither queued nor running |
| `Power.RunKeeps` | k11c_connectivity/npu-source/src/rknpu_drv.c:354-420 | the same over every run, with any number of failed switch-offs |
| `Power.PoweredWhileHeld` | k11c_connectivity/npu-source/src/rknpu_drv.c:354-420 | the device stays on while held; nobody holding it, it is off or its switch-off is still coming |
| `Power.GetGranted` | k11c_connectivity/npu-source/src/rknpu_drv.c:372-385 | in every reachable state a request is refused only if the device was off and switching on fails |
| `Power.SettlesOff` | k11c_connectivity/npu-source/src/rknpu_drv.c:354-420 | once nobody holds the device and switching off works, it is off after a bounded number of steps, of which there is always one until then |
| `Voltage.AdjustRow` | k11c_connectivity/npu-source/src/include/k11c_vendor_opp.h:45-65 | one loop pass: the adjusted row and the voltage that it asks for |
| `Voltage.AdjustedKept` | k11c_connectivity/npu-source/src/include/k11c_vendor_opp.h:47-65 | an adjusted row has min, voltage and ceiling in order exactly unless the MBIST minimum lifted it over its own ceiling |
| `Voltage.MbistOverCeiling` | k11c_connectivity/npu-source/src/include/k11c_vendor_opp.h:56-65 | a row that the MBIST minimum lifts over its own ceiling, at the limit the driver accepts |
| `Voltage.WalkedMeans` | k11c_connectivity/npu-source/src/include/k11c_vendor_opp.h:56-67 | what the running variables know: the safe frequency separates rows that meet the limit from rows that do not |
| `Voltage.WalkedExactly` | k11c_connectivity/npu-source/src/include/k11c_vendor_opp.h:56-67 | the safe frequency exactly: that of the last row up to and including the first that needs the whole limit, or none if all rows or no row are within it |
| `Voltage.RequiredIs` | k11c_connectivity/npu-source/src/include/k11c_vendor_opp.h:45-58 | the voltage a row needs, in figures |
| `Voltage.Adjust` | k11c_connectivity/npu-source/src/include/k11c_vendor_opp.h:37-70 | in place, every row becomes its adjusted row and the result is the safe frequency of the walk |
| `Voltage.Compact` | k11c_connectivity/npu-source/src/k11c_vendor_opp.c:251-262 | in place, exactly the rows up to the safe frequency are kept, in order |
| `Voltage.KeptIsFront` | k11c_connectivity/npu-source/src/k11c_vendor_opp.c:251-262 | on a rising table they are its front part |
| `Voltage.ColdTable` | k11c_connectivity/npu-source/src/include/k11c_vendor_opp.h:72-93 | in place, every row gets its cold voltage and the result is the cold limit |
| `Voltage.KeptRowsSafe` | k11c_connectivity/npu-source/src/k11c_vendor_opp.c:250-262 | every kept row is in order and asks for exactly what its adjustment required, if the lowest row can be met |
| `Voltage.KeptExactly` | k11c_connectivity/npu-source/src/k11c_vendor_opp.c:250-262 | exactly the rows up to and including the first that needs the whole limit are kept, each at what it needs; if no row is within the limit, all are, each at the limit |
| `Voltage.FirstUnfit` | k11c_connectivity/npu-source/src/k11c_vendor_opp.c:250-262 | if even the lowest row cannot be met, every row is kept and the lowest runs below what it requires |
| `Voltage.UnfitLowest` | k11c_connectivity/npu-source/src/k11c_vendor_opp.c:250-262 | a usable table whose lowest row does not fit the limit the driver accepts |
| `Voltage.PreparedSafe` | k11c_connectivity/npu-source/src/k11c_vendor_opp.c:250-263 | the prepared table rises in frequency, never falls in voltage, stays within its ceilings, and its cold voltage is the voltage plus the delta as far as the supply allows, all of the delta up to a non-zero cold limit |
| `Voltage.ColdLimitExactly` | k11c_connectivity/npu-source/src/include/k11c_vendor_opp.h:72-93 | the cold limit exactly, in terms of the prepared table |
| `Voltage.Prepare` | k11c_connectivity/npu-source/src/k11c_vendor_opp.c:250-263 | adjust, compaction and cold table in place produce that table and limit |
| `Voltage.SetTableVoltage` | k11c_connectivity/npu-source/src/k11c_vendor_opp.c:203-216 | the framework is given exactly the rows of one temperature with their ceilings, if it takes them all |
| `Voltage.PreparedServes` | k11c_connectivity/npu-source/src/k11c_vendor_opp.c:203-216 | for either temperature the rows rise; at normal temperature every voltage is under its ceiling, in the cold if and only if the row leaves room for the delta or its ceiling is the supply's |
| `Voltage.ColdOverCeiling` | k11c_connectivity/npu-source/src/k11c_vendor_opp.c:203-216 | a prepared table whose cold voltage is above the ceiling of its row, with the limit and the delta the driver accepts |
| `Voltage.Supply.SetRate` | k11c_connectivity/npu-source/src/k11c_vendor_opp.c:276-321 | whatever the clock and the voltage were before: success means the voltage covers the running clock and lies under the ceiling of its row; a voltage that was enough stays so on every return path unless the clock framework accepted the rate and ran past it; without faults exactly the requests with a row under its own ceiling are served |
| `Voltage.Supply.SwitchTable` | k11c_connectivity/npu-source/src/k11c_vendor_opp.c:323-350 | after a change of temperature, success means the voltage covers the live clock by the new table |
| `UBoot.EmitBytes` | source/scripts/prepare-emmc-install.py:73-76 | the emitted byte writes are the ones for the differing bytes |
| `UBoot.EmitWords` | source/scripts/prepare-emmc-install.py:59-65 | the emitted word writes are the ones for the differing words |
| `UBoot.BytesWork` | source/scripts/prepare-emmc-install.py:73-76 | on RAM holding the old bytes they leave the new ones and change nothing else |
| `UBoot.WordsWork` | source/scripts/prepare-emmc-install.py:59-65 | the same for word writes |
| `UBoot.EmitPatch` | source/scripts/prepare-emmc-install.py:73-80 | the patch section in the order of the source |
| `UBoot.PatchCorrect` | source/scripts/prepare-emmc-install.py:68-81 | run on RAM holding the image, the patch leaves new boot sector, new primary and the rest of the image, and the new backup in the other buffer |
| `GptImage.Decodes` | source/scripts/gpt_image.py:83 | accepts exactly the names whose surrogates all come in pairs |
| `GptImage.ReadParts` | source/scripts/gpt_image.py:76-84 | the loop collects numbers, extents and names of exactly the used entries, and fails at one out of bounds or not decodable |
| `GptImage.InspectParts` | source/scripts/gpt_image.py:76-92 | accepts exactly the arrays of eight labelled partitions in bounds that do not overlap |
| `GptImage.Inspect` | source/scripts/gpt_image.py:55-92 | the tests of the script decide the inspection: two headers of one disk, equal arrays, a simple protective boot sector, the K11C partitions |
| `GptImage.InspectedHealthy` | source/scripts/gpt_image.py:55-95 | an inspected image is healthy in the sense of gpt.rs, with its eight entries in use |
| `GptImage.EngineAgrees` | source/scripts/gpt_image.py:55-95 | the script and the engine accept the same tables but for the conditions that only one of them has, which are listed |
| `UBoot.Prepare` | source/scripts/prepare-emmc-install.py:21-56 | succeeds exactly for an inspected image that fits buffers and target; the result is the resize of its table |
| `UBoot.LastPartition` | source/scripts/prepare-emmc-install.py:26 | the check of the last partition follows from the size check |
| `UBoot.FlashedPieces` | source/scripts/prepare-emmc-install.py:83-84 | the two writes put image and tail on the disk, not over each other |
| `UBoot.ProgramCorrect` | source/scripts/prepare-emmc-install.py:68-90 | the program leaves on any eMMC of the target size a disk that the same inspection accepts, image contents kept |
| `Sparse.ParseChunk` | installer/engine/src/factory.rs:239-249 | accepts exactly the chunks that PieceAt reads and emits the checks of the piece, which SparseFormat ties to the format |
| `Sparse.ParseChunks` | installer/engine/src/factory.rs:239-251 | succeeds exactly when the chunks fill the image exactly and the list does not get too long |
| `Sparse.Parse` | installer/engine/src/factory.rs:234-252 | succeeds exactly on a sparse image that fits, and appends its checks |
| `Sparse.ChecksSound` | installer/engine/src/factory.rs:234-252 | a disk that passes the checks holds every byte that the expansion defines |
| `Sparse.ChecksComplete` | installer/engine/src/factory.rs:234-252 | and a disk that holds every byte that the expansion defines passes the checks |
| `Sparse.ChecksInOrder` | installer/engine/src/factory.rs:234-252 | the checks of one image are whole sectors, one behind the other, inside its extent |
| `Sparse.ImageFits` | installer/engine/src/factory.rs:236-251 | an accepted image is whole sectors, as long as its header says, and fits |
| `Sparse.SparseSound` | installer/engine/src/factory.rs:234-252 | both together for one sparse entry |
| `SparseFormat.WrittenRead` | installer/engine/src/factory.rs:234-252 | every sparse file that can be written from a list of raw, fill, open and checksum chunks, with its codes and fields spelled out, is read as exactly that list |
| `SparseFormat.WrittenMeant` | installer/engine/src/factory.rs:234-252 | and stands, byte by byte, for what the chunks stand for |
| `SparseFormat.WrittenImage` | installer/engine/src/factory.rs:234-252 | both for a whole image inside a file, its length included |
| `SparseFormat.AcceptedWritten` | installer/engine/src/factory.rs:234-252 | every file that the parser accepts is one that can be written from such a list |
| `Factory.Parameter` | installer/engine/src/factory.rs:96-105 | accepts exactly the lists of up to 128 named partitions one behind the other, only the last without a size |
| `Factory.ValidateCapacity` | installer/engine/src/factory.rs:188-190 | the one bound per row that is compared decides whether every partition has room: a capacity that is not zero, ending before the backup table |
| `Factory.AreasApart` | installer/engine/src/factory.rs:188-190 | the areas of two accepted partitions never overlap |
| `Factory.AreaFits` | installer/engine/src/factory.rs:188-190 | each lies between the boot sectors and the backup table |
| `Factory.Verification` | installer/engine/src/factory.rs:224-233 | succeeds exactly when every entry with a partition fits it, and gives the checks of all of them in order |
| `Factory.ChecksPlaced` | installer/engine/src/factory.rs:224-252 | all checks lie between the boot sectors and the backup table, and no two of them overlap |
| `Factory.Compare` | installer/engine/src/factory.rs:256-262 | accepts exactly a disk that passes the check, chunk by chunk |
| `Factory.CheckPartitions` | installer/engine/src/factory.rs:268-284 | accepts exactly the planned partitions, the last one at full capacity or rounded down to 64 sectors |
| `Factory.VerifyLayout` | installer/engine/src/factory.rs:267-289 | accepts exactly when the partitions are the planned ones and every entry fits the one that was created |
| `Factory.Readback` | installer/engine/src/factory.rs:253-266 | succeeds exactly when every check passes and the layout verifies |
| `Factory.ReadbackSound` | installer/engine/src/factory.rs:188-289 | for an image that fits the disk, after a successful read-back every byte an entry defines is at its place in its partition by the table on the disk, and its full extent lies inside the partition really created |
| `FactoryReadback.ReadbackWritten` | installer/engine/src/factory.rs:188-289 | the same in terms of what the firmware's writer meant: after a successful read-back each entry's content, a sparse image expanded by definition of the format, is in its partition |
| `FactoryReadback.ReadbackExactly` | installer/engine/src/factory.rs:253-289 | a read-back succeeds if and only if the table has the planned partitions and each of them has room for its entry and holds its content |
| `FactoryReadback.HoldsSomething` | installer/engine/src/factory.rs:222-252 | every entry that passed verification has such a content |
| `Factory.EndExactly` | installer/engine/src/factory.rs:278-284 | the accepted ends of a partition, in figures |

## Left out

- USB, Windows, HTTP and file-system calls, progress messages, timings and the contents of journals: the device is `Emmc`,
  and each call that can fail does so by an arbitrary choice.
- The contents of a plan beyond its operation, identity, ranges, fingerprint and attempt; the text of plans and metadata; the
  hexadecimal form of digests and their character checks.
- Operations.InspectImage: without the FAT and EFI inspection of the boot partition that follows the table checks.
- Operations.BuildInstall: without the digest of the image and the choice of the component.
- Operations.BuildRestore: loading the saved snapshot and its own checks are taken as given.
- Install.Compose: without the digest comparisons of the official image and the prepared data.
- Plans.Store.Load: without the checks of the format number and of the form of the fingerprint.
- Raw-image backups and the legacy backup directories: the boot backup reaches the model as a snapshot.
- The choice and making of the automatic recovery backup while planning, and the release and component catalogue. That the
  other source digests and the full-read capability of the loader hold is taken as given.
- Planning.MakePlan: without the kinds of recovery backup, which only decide whether the plan is a legacy one.
- Factory.Parameter: starts from the rows; the splitting of the `mtdparts` text is not modelled.
- The vendor tool and its text output. `Factory.Verification` starts from entries that lie inside the file;
  `Factory.ChecksPlaced` needs their names to differ, as the parser demands.
- UBoot.Prepare: without the comparison with the release digest and the three CRC-32 values printed for the operator.
- UBoot.EmitPatch: without the checksum commands printed between the patches.
- UBoot.ProgramCorrect: the two reads, comparisons and `gpt verify` that follow the writes are not commands of the model.
- HashWorker.FinishExact: blocks are values, so that a buffer handed back and filled again is a new value.
- Pipeline.FinishExact: likewise; a panic of the worker thread is not modelled.
- Scheduler fault paths: timeout, soft reset and the removal loop of the waiting thread. Of `rknpu_job_abort` the model has
  the calls by a submitter that reads a failed commit and by one that is refused its domain. A blocking request without PC
  mode, whose job is freed right after it was queued, is outside; also the `task_num` load figures and fences.
- SchedulerDomain.StepDomain: speaks of the domain that is active by the driver's account; whether the device is attached to
  it is in `Iommu`. The retry loop is a request that is not enabled yet, its time limit a refusal.
- Iommu.StepKeeps: for matched gets and puts; `SchedulerDomain` has what an unmatched put does. The two early refusals for a
  disabled IOMMU and a missing bus, and failed allocations of a domain, are one refusal without effect.
- Power.StepKeeps: for a non-zero delay and matched calls; the zero delay and the debugfs reference are not modelled.
- Power.Device.Drop: a failed switch-off leaves the supply on.
- Voltage.Compact: the calls that disable an OPP in the framework, and their failures.
- Voltage.Prepare: the calls of the OPP framework and the initial temperature state.
- Voltage.SetTableVoltage: a row that the framework refuses leaves its table partly changed, which the model does not follow.
- Voltage.Supply.SetRate: runtime suspend, the frequency limit requested for the cold and the monitor's vote for the idle
  clock are outside.
- `k11c_vendor_bin`, `k11c_vendor_sel` and `k11c_vendor_cold_state`, one-line choices.
- The other commands of the window, which set `writing` without the stage lock: `Control` is about `storage_execute`.
- rknpu_gem.c, probe and remove, OTP access, the Go seed builder, CI scripts, catalogue validation, translations.
