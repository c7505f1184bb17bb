# FAT32 reader helpers and the dummy scheduling class, in Dafny

This project models two independent pieces of a student operating-systems repository and proves properties of them.

**The read-only FAT32 reader (`assignment3/vfat.c`).** The model covers the parts that do not touch the device:
- the boot-sector validator `check_boot_validity`. It returns a verdict naming the failed check instead of ending the process with `errx`.
- the geometry helpers `sectors_to_bytes` and `cluster_to_bytes`, and the four byte offsets and sizes `vfat_init` derives from the boot sector.
- the 8.3 name trimmer `trim_filename`. It is an in-place loop over a 12-byte output `array`.
- the FAT chain walker `follow_fat_chain`. The FAT is a sequence of 32-bit entries. The callback becomes the list of cluster numbers it is called with.
- the directory-record scan of `read_directory`. One cluster is a byte sequence. The printed lines become a returned list of (kind, trimmed name, size, first cluster).
- the name-match filler `vfat_search_entry`. It is a method on a class holding the search data.

C's fixed-width arithmetic is written out:
- `unsigned int` wraps modulo 2^32.
- `size_t` wraps modulo 2^64.
- The 28-bit FAT mask is `% 2^28`.
- Attribute tests read single bits arithmetically.

**The "dummy" scheduling class (`assignement2/dummy.c` and its earlier draft `dummy.c`).** The run queue is a class `RunQueue.DummyRq` whose fields the operations update in place:
- five FIFO queues of task ids (`seq<seq<TaskId>>`);
- a map from task id to the task's `prio`, `static_prio`, `time_slice` and `aging`;
- `nr_running`;
- the current task;
- the set of tasks that `resched_task` has been called on.

Each operation is a method whose postcondition equals a specification function of the old state. The properties are lemmas about those functions. The main invariant is `RunQueue.Valid`:
- there are five queues;
- every task's priority maps to a queue index in range;
- no queue holds a task twice;
- every queued task sits in the queue of its priority.

The constants `DUMMY_PRIO_UPPER_BOUND` and `MAX_DUMMY_PRIO`, the time slice and the age threshold are parameters (`RunQueue.Config`). `NBR_DUMMY_PRIO` is 5.

The two versions share `RunQueue`: `_enqueue`, `_dequeue`, `enqueue_task_dummy` and `pick_next_task_dummy`. `DummySched` is the final version, and `DummyDraft` is the draft.

The aging loop of the final `task_tick_dummy` walks each queue with `list_for_each_entry_safe`. A promoted entity moves to the next lower-index queue, so the list being walked only loses the entity at hand. Walking the live list is therefore the same as walking a snapshot of it, and that is how `DummySched.AgeList` is written.

The model follows the C code where it departs from FAT32 conventions:
- `trim_filename` removes every space and never inserts a `.` between name and extension.
- `read_directory` lists volume-id and "invalid" records, tagged as such, instead of skipping them.
- `follow_fat_chain` advances with `offset++` instead of following the link (see Findings).

## Model

| member | source | states |
|---|---|---|
| FatBoot.CheckBootValidity | assignment3/vfat.c:173-230 | The validator, including its loop over the 12 reserved bytes, returns `BootVerdict`. That is the first failed check in source order (bytes per sector, sectors per cluster, cluster size, FAT32 fields, reserved bytes, cluster count in 32-bit arithmetic), or acceptance. |
| FatBoot.BootAcceptedIff | assignment3/vfat.c:175-229 | A boot sector is accepted if and only if: bytes per sector is 512, 1024, 2048 or 4096; sectors per cluster is a power of two up to 128; their product is below 32768; fat_count is 2; the legacy root-entry, small-total and small-FAT fields are 0; version is 0; the signature is 0xAA55; all reserved bytes are 0; and the 32-bit data-sector count divided by sectors per cluster is at least 65525. |
| FatBoot.AcceptedClusterSize | assignment3/vfat.c:175-201 | An accepted boot sector has a cluster size of at least 512 and below 32768 bytes, and a multiple of 512. |
| FatBoot.WrappedCountAcceptsTooSmallVolume | assignment3/vfat.c:224-229 | A volume of 0 sectors whose reserved area and FATs take 34 sectors is accepted, because the 32-bit subtraction wraps. |
| FatBoot.IntendedAcceptedVolumeFits | assignment3/vfat.c:224-229 | A boot sector the exact-arithmetic check accepts holds its reserved area, its FATs and at least 65525 clusters. Its 32-bit metadata sum does not wrap, and the check as written accepts it too. |
| FatBoot.VerdictsAgreeWithoutWrap | assignment3/vfat.c:224-229 | When the reserved area and FATs fit in the volume, the check as written and the exact check give the same verdict. |
| FatGeometry.SectorsToBytes | assignment3/vfat.c:88-90 | A 32-bit sector count times the sector size stays below 2^64, so `size_t` never wraps here. |
| FatGeometry.ClusterToBytes | assignment3/vfat.c:95-97 | The byte offset of a cluster is a `size_t` value: the result of the wrapped computation lies below 2^64. |
| FatGeometry.GeometryLayout | assignment3/vfat.c:259-262 | For every volume `check_boot_validity` accepts, clusters_begin = ((reserved + sectors_per_fat * fat_count) mod 2^32) * bytes_per_sector, and clusters_size = sectors_per_cluster * bytes_per_sector, between 512 and 32767. When that sum does not wrap, clusters_begin = fat_begin + fat_count * fat_size, so the data region starts right after the FATs. |
| FatGeometry.IntendedGeometryLayout | assignment3/vfat.c:259-262 | For a volume the exact-arithmetic check accepts, the data region starts right after the FATs, and 65525 clusters from there fit inside the volume. |
| FatGeometry.WrappedDataRegionOnFat | assignment3/vfat.c:259-262 | A volume of 2^32 - 1 sectors with 32 reserved sectors and two FATs of 2^31 sectors is accepted as written but not by the exact check. Its clusters_begin equals fat_begin, so cluster 2 lies inside the first FAT. |
| FatGeometry.ClusterToBytesLayout | assignment3/vfat.c:95-97 | On every accepted volume, cluster 2 starts at clusters_begin. Cluster n + 1 starts clusters_size bytes after cluster n. Cluster n starts at sector ((reserved + sectors_per_fat * fat_count) mod 2^32) + (n - 2) * sectors_per_cluster. |
| FatGeometry.AffineClusters | assignment3/vfat.c:95-97 | For a data region starting below 2^48 with clusters under 32768 bytes, `cluster_to_bytes` is affine in the cluster number, from cluster 2 on. |
| FatGeometry.ClusterToBytesNoWrap | assignment3/vfat.c:95-97 | For cluster numbers from 2 to 2^32 on such a volume, the `size_t` wrap never happens. |
| FatGeometry.Volume.Init | assignment3/vfat.c:255-262 | Stores the boot sector and returns the validator's verdict. On acceptance the four geometry fields become `GeometryOf(boot)`. On rejection they are untouched (the C code exits there). |
| FatGeometry.Volume.constructor | assignment3/vfat.c:46 | The global starts zeroed. |
| FatChain.Masked | assignment3/vfat.c:77 | The masked entry is below 2^28 and equals the entry when the upper four bits are already clear. |
| FatChain.FollowFatChain | assignment3/vfat.c:73-83 | The callback runs at least once, on start, start + 1, ... consecutively. It stops right after the first visited cluster whose masked entry is at least 0x0FFFFFF8. Every earlier visited cluster is inside the table with a masked entry below that. |
| FatChain.FollowChainIntended | assignment3/vfat.c:73-83 | A walk that follows each masked entry. A returned chain starts at `start`, stays inside the table, follows every link and ends at the first end marker. A reported corrupt chain means no such chain exists. |
| FatChain.ChainDistinct | assignment3/vfat.c:73-83 | A chain never visits the same cluster twice. |
| FatChain.ChainBounded | assignment3/vfat.c:73-83 | A chain has at most as many clusters as the table has entries. |
| FatChain.ChainsExtend | assignment3/vfat.c:73-83 | A walk that agrees with every chain so far, and whose last entry is not an end marker, agrees with every chain one link further. |
| FatChain.NoChainPastTable | assignment3/vfat.c:73-83 | Suppose a walk agrees with every chain and has not ended. If its next link leaves the table, or it already has as many clusters as the table, then no chain exists. |
| FatChain.OffsetIncrementSkipsLink | assignment3/vfat.c:80 | On a table where cluster 2 links to 5, the walk as written visits exactly 2, 3. That is not the chain, and the chain is 2, 5. |
| FatDirectory.WithoutSpacesCounts | assignment3/vfat.c:118-122 | Trimming removes every space. It keeps every other byte value exactly as often as it occurs, so no '.' appears, and it never lengthens the name. |
| FatDirectory.WithoutSpacesIdempotent | assignment3/vfat.c:118-122 | Trimming a trimmed name changes nothing. |
| FatDirectory.WithoutSpacesAppend | assignment3/vfat.c:118-122 | Trimming distributes over concatenation, so the kept bytes stay in their order. |
| FatDirectory.TrimFilename | assignment3/vfat.c:113-126 | The output buffer starts with the 11 name bytes without their spaces, in order. Their count is at most 11, a NUL follows them, and the rest of the buffer is untouched. |
| FatDirectory.CString | assignment3/vfat.c:159 | What `%s` prints: a prefix of the buffer with no NUL in it, ending at the first NUL or at the buffer's end. |
| FatDirectory.CStringStops | assignment3/vfat.c:124 | Bytes after the terminator written by `trim_filename` never reach the printed name. |
| FatDirectory.KindOf | assignment3/vfat.c:145-153 | A record is a directory if its directory bit is set. Otherwise it is a volume id if that bit is set, otherwise invalid if the 0x80 bit is set, otherwise a file. |
| FatDirectory.FirstClusterHalves | assignment3/vfat.c:158 | `cluster_hi << 16 \| cluster_lo` keeps the low half in the low 16 bits and the high half above them. |
| FatDirectory.ExamineRecord | assignment3/vfat.c:140-160 | One record gives `RecordListing`. A deleted (0xE5) or long-name record gives no line. Any other record gives one line with its kind, trimmed name, size and `hi << 16 \| lo` first cluster. |
| FatDirectory.PrintedName | assignment3/vfat.c:155-159 | The name printed from the 12-byte buffer is exactly the 11 name bytes with their spaces removed, read up to the first NUL. |
| FatDirectory.RecordListingName | assignment3/vfat.c:155-159 | Every printed name is at most 11 bytes, with no space and no NUL. |
| FatDirectory.EntriesNames | assignment3/vfat.c:137-166 | Every line of a scan carries such a name. |
| FatDirectory.ScanEnd | assignment3/vfat.c:166 | The number of records the scan examines: the first record after record 0 that starts with 0x00. |
| FatDirectory.EndMarkerIsScanEnd | assignment3/vfat.c:165-166 | Within the scan, the end test reads inside the cluster and is true exactly at the scan's end. |
| FatDirectory.ReadDirectory | assignment3/vfat.c:131-167 | The do-while returns the lines of records 0, 1, ..., n - 1 in order. Here n is the first later record starting with 0x00, and one must exist inside the cluster. |
| FatDirectory.ReadDirectoryIntended | assignment3/vfat.c:131-167 | The scan with the end test before each record, bounded by the cluster, returns `IntendedListing`. |
| FatDirectory.EntriesThenIntended | assignment3/vfat.c:137-166 | Up to the as-written end, the lines so far followed by the intended scan from there give the as-written listing. |
| FatDirectory.ScansAgree | assignment3/vfat.c:137-166 | When record 0 is in use and an end marker follows, the do-while and the intended scan print the same lines. |
| FatDirectory.EmptyClusterListsPhantomFile | assignment3/vfat.c:137-166 | On a cluster of zeros the do-while prints one file with an empty name, size 0 and cluster 0. The intended scan prints nothing. |
| FatDirectory.FullClusterOverruns | assignment3/vfat.c:165-166 | A 512-byte cluster, the smallest an accepted volume has, with all 16 records in use has no end marker inside it, so the end test as written reads past the cluster. The intended scan lists all 16 records. |
| FatDirectory.InUseRecordLine | assignment3/vfat.c:140-160 | A record in use named "A" with attribute 0 prints one file line named "A". |
| FatSearch.SearchData.constructor | assignment3/vfat.c:304-308 | The search data holds the sought name, not yet found. |
| FatSearch.SearchData.SearchEntry | assignment3/vfat.c:312-324 | Returns 1 exactly when the two names are equal as C strings; otherwise it returns 0. On 1 it sets `found` and copies the entry's attributes. On 0 nothing changes. |
| FatSearch.NamesMatchIff | assignment3/vfat.c:317 | For NUL-terminated names, `strcmp` finds a match exactly when the bytes before the terminators are equal, whatever follows. |
| RunQueue.DummyRq.constructor | assignement2/dummy.c:36-45 | All five queues start empty. |
| RunQueue.ValidAtMostOnce | assignement2/dummy.c:60-66 | In a valid run queue a task is in at most one queue. |
| RunQueue.WithoutMembers | assignement2/dummy.c:68-72 | Unlinking keeps exactly the other tasks, keeps a queue free of duplicates, and removes one entry when the task was there. |
| RunQueue.WithoutAt | assignement2/dummy.c:68-72 | In a queue without duplicates, unlinking the task at position j gives the entries before it followed by the entries after it, in their order. |
| RunQueue.WithoutAppended | assignement2/dummy.c:60-72 | Unlinking a task just added at the tail gives the queue without it. |
| RunQueue.EnqueueEffect | assignement2/dummy.c:51-86 | Enqueue appends the task at the tail of queue `get_list_prio(prio)`, here `NBR_DUMMY_PRIO - (UPPER_BOUND - prio) - 1`, and leaves the other queues alone. It resets time_slice to 0 exactly when it has reached the time slice, changes no other field and no other task, and adds 1 to nr_running. The draft (dummy.c:58-92) is the same, with `get_list_prio` subtracting from `MAX_DUMMY_PRIO`, the `listBase` parameter. |
| RunQueue.EnqueueValid | assignement2/dummy.c:78-86 | Enqueueing a task that is in no queue keeps the run queue valid and nr_running equal to the number of queued tasks. |
| RunQueue.UnlinkValid | assignement2/dummy.c:68-72 | Unlinking a task leaves it in no queue and changes no task field. It keeps the other queues' tasks, restores validity, and lowers the number of queued tasks by one exactly when the task was queued. |
| RunQueue.UnlinkTotal | assignement2/dummy.c:68-72 | The count part of the above: the number of queued tasks drops by one exactly when the task was queued. |
| RunQueue.DummyRq.AddTailTask | assignement2/dummy.c:60-66 | `_enqueue_task_dummy` on the object gives `AddTail` of the old state. |
| RunQueue.DummyRq.UnlinkTask | assignement2/dummy.c:68-72 | `_dequeue_task_dummy` on the object gives `Unlink` of the old state. |
| RunQueue.DummyRq.EnqueueTask | assignement2/dummy.c:78-86 | `enqueue_task_dummy` on the object gives `Enqueue` of the old state. |
| RunQueue.DummyRq.PickNextTask | assignement2/dummy.c:114-126 | Returns none exactly when all five queues are empty. Otherwise it returns the head of the lowest-index non-empty queue. It modifies nothing. The draft (dummy.c:120-132) has the same loop. |
| DummySched.DequeueEffect | assignement2/dummy.c:88-93 | Dequeue leaves the task in no queue, and every queue becomes `Without(queue, p)`, which by `WithoutAt` keeps the other tasks in their order. It changes no task field, subtracts 1 from nr_running and keeps the run queue valid. |
| DummySched.DequeueUndoesEnqueue | assignement2/dummy.c:78-93 | Dequeueing a task just enqueued restores the queues and nr_running. |
| DummySched.RequeueValid | assignement2/dummy.c:95-104 | New fields in range, then dequeue and enqueue, keep the run queue valid and nr_running unchanged. |
| DummySched.Yield | assignement2/dummy.c:95-104 | Yield preserves the run-queue invariant. |
| DummySched.YieldEffect | assignement2/dummy.c:95-104 | After yield the current task is at the tail of the queue of its possibly reset priority and has left every other queue; nr_running, the reschedule requests and the set of tasks are unchanged. Aging 0 and prio = static_prio exactly when aging had reached the threshold; otherwise both are unchanged. The enqueue restarts a used-up time slice. Other tasks are untouched. |
| DummySched.CheckPreemptEffect | assignement2/dummy.c:106-112 | Check-preempt changes nothing but the reschedule set. It requests a reschedule of the current task, and of no other, exactly when get_list_prio(p) < get_list_prio(curr). |
| DummySched.TimeSliceTick | assignement2/dummy.c:147-155 | The time-slice step preserves the run-queue invariant. |
| DummySched.TimeSliceTickEffect | assignement2/dummy.c:147-155 | A tick adds one to time_slice. When that reaches the slice, the task gets prio = static_prio, aging 0 and a fresh slice, sits at the tail of its static priority's queue and has left every other queue. It is the one task added to the reschedule requests, other tasks are untouched, and nr_running and the set of tasks are unchanged. Otherwise nothing else changes. |
| DummySched.Promote | assignement2/dummy.c:164-171 | Promoting an entity (aging 0, prio - 1, requeue, reschedule, check-preempt) preserves the invariant, the set of tasks and the current task. |
| DummySched.PromoteRequests | assignement2/dummy.c:166-171 | A promotion leaves nr_running unchanged, because the dequeue and the enqueue cancel out. It adds the promoted task to the reschedule requests. It adds the current task exactly when that is another task and the promoted task's new priority maps to a lower-index queue than the current task's (check-preempt). |
| DummySched.AgingTickValid | assignement2/dummy.c:163 | Counting one more aging tick keeps the run queue valid. |
| DummySched.AgeOne | assignement2/dummy.c:162-172 | One pass of the aging loop body preserves the invariant, the set of tasks and the current task. |
| DummySched.AgeOneRequests | assignement2/dummy.c:162-172 | One pass of the loop body leaves nr_running unchanged. Without a promotion it adds no reschedule request. With one it adds exactly what the promotion adds. |
| DummySched.AgeListRequests | assignement2/dummy.c:162-173 | Walking a snapshot of one queue leaves nr_running unchanged. It adds every entity it promotes to the reschedule requests, and nothing else except possibly the current task. |
| DummySched.AgeLevelsRequests | assignement2/dummy.c:157-174 | After queues 1 .. n - 1, nr_running is unchanged. The reschedule requests have grown by every task of those queues that was promoted, and by nothing else except possibly the current task. |
| DummySched.AgeOneTasks | assignement2/dummy.c:162-172 | One pass of the loop body changes only that entity's fields. Aging is incremented, or reset to 0 with prio - 1 (and a used-up slice restarted) when it reaches the threshold and prio > UPPER_BOUND - 4. |
| DummySched.PromoteTasks | assignement2/dummy.c:164-171 | A promotion changes only the promoted task: aging 0, prio - 1, time slice restarted if used up. |
| DummySched.RequeueTasks | assignement2/dummy.c:166-169 | Requeueing a task with new fields changes only that task and only its time slice beyond those fields. |
| DummySched.AgeOneQueues | assignement2/dummy.c:162-172 | Aging an entity of queue i touches only queues i and i - 1. A promoted entity leaves queue i for the tail of queue i - 1; otherwise no queue changes. |
| DummySched.PromoteQueues | assignement2/dummy.c:164-171 | A promotion moves the entity from queue i to the tail of queue i - 1, with i > 0. |
| DummySched.RequeueQueues | assignement2/dummy.c:166-169 | Requeueing under a priority of another queue j removes the task from its queue, appends it to j, and leaves the rest alone. |
| DummySched.AgeList | assignement2/dummy.c:162-173 | The walk over one queue preserves the invariant, the task set and the current task. |
| DummySched.AgeLevels | assignement2/dummy.c:157-174 | The walk over queues 1 .. n - 1 preserves them too. |
| DummySched.Tick | assignement2/dummy.c:139-175 | The whole `task_tick_dummy` preserves the run-queue invariant. |
| DummySched.AgeListEffect | assignement2/dummy.c:162-173 | Walking a snapshot of queue i ages each of its entities exactly once, leaves every other task alone, and touches no queue but i and i - 1. |
| DummySched.AgeLevelsEffect | assignement2/dummy.c:157-174 | After queues 1 .. n - 1, exactly the tasks that sat in them have been aged, once each, and queues n .. 4 are unchanged. |
| DummySched.SnapshotUnaged | assignement2/dummy.c:157-162 | When the loop reaches queue m, that queue is as it was at the start: its entities are unaged and still placed there. |
| DummySched.AgingPassEffect | assignement2/dummy.c:157-174 | The aging pass ages every task of queues 1 .. 4 exactly once and leaves every other task's fields unchanged. It leaves nr_running unchanged. The reschedule requests grow by the promoted tasks and possibly the current task. |
| DummySched.TopQueueNeverAges | assignement2/dummy.c:157 | Tasks in queue 0 are never aged. |
| DummySched.AgingBoundsPriority | assignement2/dummy.c:164-167 | In one aging pass a task's prio drops by at most one and never below UPPER_BOUND - 4. Its static_prio is unchanged. |
| DummySched.AgedBounds | assignement2/dummy.c:164-167 | The same for one aging step. |
| DummySched.DequeueTask | assignement2/dummy.c:88-93 | `dequeue_task_dummy` on the object gives `Dequeue` of the old state. |
| DummySched.YieldTask | assignement2/dummy.c:95-104 | `yield_task_dummy` on the object gives `Yield` of the old state. |
| DummySched.CheckPreemptCurr | assignement2/dummy.c:106-112 | `check_preempt_curr_dummy` on the object gives `CheckPreempt` of the old state. |
| DummySched.PromoteEntity | assignement2/dummy.c:164-171 | The promotion statements give `Promote` of the old state. |
| DummySched.AgeEntity | assignement2/dummy.c:162-172 | One iteration of the inner loop gives `AgeOne` of the old state. |
| DummySched.TimeSliceStep | assignement2/dummy.c:147-155 | The time-slice statements give `TimeSliceTick` of the old state. |
| DummySched.TaskTick | assignement2/dummy.c:139-175 | `task_tick_dummy` with its nested loops gives `Tick` of the old state: the time-slice step, then queues 1 .. 4 each walked once. |
| DummyDraft.DequeueEffect | dummy.c:94-101 | The draft dequeue leaves the task in no queue, makes every queue `Without(queue, p)` (the other tasks in their order) and keeps the run queue valid. It resets aging to 0 exactly when aging has reached the threshold, changes nothing else of any task, and subtracts 1 from nr_running. |
| DummyDraft.DequeueQueues | dummy.c:94-101 | The queue part of the above: validity, the unlinked queues and the exact running count. |
| DummyDraft.Yield | dummy.c:103-108 | The draft yield preserves the run-queue invariant. |
| DummyDraft.YieldEffect | dummy.c:103-108 | The current task goes to the tail of the queue of its unchanged priority, and every other queue stays as it was. Aging and time slice are restarted exactly when used up. Other tasks and nr_running are unchanged. |
| DummyDraft.CheckPreempt | dummy.c:110-118 | The draft check-preempt preserves the run-queue invariant. |
| DummyDraft.CheckPreemptEffect | dummy.c:110-118 | When get_list_prio(p) < get_list_prio(curr), the current task moves to the tail of its queue with prio unchanged, every other queue and every other task stay as they were, the dequeue restarts a used-up aging counter and the enqueue a used-up time slice, and the current task is the one task added to the reschedule requests, with nr_running unchanged. Otherwise nothing changes. |
| DummyDraft.TimeSliceTick | dummy.c:143-150 | The draft tick preserves the run-queue invariant. |
| DummyDraft.TickedValid | dummy.c:145 | Counting a tick keeps the run queue valid. |
| DummyDraft.TimeSliceTickEffect | dummy.c:143-150 | A draft tick never changes any task's priority. It adds one to time_slice; when that reaches the slice, the task gets a fresh slice, the dequeue restarts a used-up aging counter, and the task moves to the tail of its queue. It is the one task added to the reschedule requests; other tasks, the other queues and nr_running are unchanged. Otherwise nothing else changes. |
| DummyDraft.DequeueTask | dummy.c:94-101 | The draft dequeue on the object gives `Dequeue` of the old state. |
| DummyDraft.YieldTask | dummy.c:103-108 | The draft yield on the object gives `Yield` of the old state. |
| DummyDraft.CheckPreemptCurr | dummy.c:110-118 | The draft check-preempt on the object gives `CheckPreempt` of the old state. |
| DummyDraft.TaskTick | dummy.c:143-150 | The draft tick on the object gives `TimeSliceTick` of the old state. |

## Left out

- Device I/O and allocation (`open`, `read`, `lseek`, `calloc`, `free`, `read_cluster`) are not modelled. The boot sector, the FAT and the cluster bytes are inputs.
- `printf`, `puts`, `printk` and `hex_print` are not modelled. `read_directory`'s output is the returned list of lines.
- FatDirectory.ReadDirectory: the line printed for a record omits the `cluster_to_bytes` offset, because it only re-uses `FatGeometry.ClusterToBytes`.
- `iconv_open`, `getuid`, `getgid`, `time`, FUSE option parsing and `main` are foreign library calls.
- The FUSE callbacks `vfat_fuse_getattr`, `vfat_fuse_readdir` and `vfat_fuse_read` are placeholders with hard-coded names.
- The empty bodies of `vfat_readdir` and `vfat_resolve` are not modelled.
- `vfat.h` and `sched.h` are not part of this model. The boot-sector field widths follow the FAT32 on-disk layout. The scheduler constants are parameters.
- FatDirectory.KindOf: the attribute masks are assumed values of the absent header. Directory 0x10, volume id 0x08 and long name 0x0F are the FAT32 on-disk values. FAT32 defines no "invalid" flag (it reserves bits 0x40 and 0x80); `VFAT_ATTR_INVAL` is assumed to be the single bit 0x80. If the header's mask also covers 0x40, a record with only 0x40 set is printed as invalid by the C code and as a file here. `MAX_CLUSTER_SIZE` (32768) and `MIN_NB_OF_SECTORS` (65525) are defined in `vfat.c` itself.
- FatChain.FollowFatChain: requires an end marker at or after `start`. Without one the C loop reads past the table, which has no defined result to model.
- FatDirectory.ReadDirectory: requires a record starting with 0x00 after record 0 inside the cluster, for the same reason (see Findings).
- The null-pointer guards of `follow_fat_chain` and `trim_filename` are not modelled, because the model has no null values.
- FatSearch.SearchData.SearchEntry: the unused `offs` argument is kept. `struct stat` is an opaque value copied whole.
- FatGeometry.Volume.Init: a rejection ends the process in C; here it returns the verdict and leaves the geometry untouched.
- DummySched.TimeSliceTick: `time_slice` and `aging` are unbounded naturals, so the 32-bit wrap after 2^32 ticks is not modelled.
- RunQueue.Enqueue: `nr_running` is an unbounded integer with no overflow.
- RunQueue.Counted: in the kernel, `rq->nr_running` counts the run queue's tasks of every scheduling class. Here only this class's tasks are modelled, so `Counted` (nr_running equals the number of tasks in the five queues) describes only this class's contribution. The lemmas use it only as a hypothesis that is preserved.
- DummySched.TaskTick: requires the run-queue invariant (`RunQueue.Valid`). The kernel maintains it; the C code assumes it without checking.
- DummySched.YieldTask, DummySched.AgeEntity, DummyDraft.YieldTask, DummyDraft.CheckPreemptCurr and DummyDraft.TaskTick make the same assumption.
- Scheduler kernel glue is not modelled: `container_of`, the `sched_class` table, the empty `put_prev`, `set_curr` and `switched_*` hooks, `get_rr_interval`, and `prio_changed_dummy`, which defers to the kernel's own preemption check.
- Runqueue locking and SMP behaviour are not modelled.
- `resched_task` only records the task in a set.
- The draft `task_tick_dummy` lacks its closing brace, and its aging loop is empty. Only its time-slice part is modelled.

## Findings

| source | as written | input that shows it | evidently intended | confidence | as-written member | corrected member |
|---|---|---|---|---|---|---|
| assignment3/vfat.c:224-229 | `total_sectors - (reserved + sectors_per_fat * fat_count)` is computed in 32-bit unsigned arithmetic, so a volume smaller than its reserved area and FATs wraps to a huge data-sector count; the same 32-bit sum feeds `clusters_begin` (next row) | total_sectors 0, reserved 32, sectors_per_fat 1, fat_count 2, 512-byte sectors, 1 sector per cluster: accepted | reject any volume whose data region is smaller than 65525 clusters, including one with no data region at all | not executed | FatBoot.WrappedCountAcceptsTooSmallVolume | FatBoot.IntendedAcceptedVolumeFits |
| assignment3/vfat.c:261 | `clusters_begin` is computed from the 32-bit sum `reserved + sectors_per_fat * fat_count`, which wraps when the FATs are huge, and the validator accepts such a volume | total_sectors 2^32 - 1, reserved 32, sectors_per_fat 2^31, fat_count 2, 512-byte sectors, 1 sector per cluster: accepted, and clusters_begin equals fat_begin, so the data region lies on the first FAT | reject the volume, so that the data region always starts after the FATs | not executed | FatGeometry.WrappedDataRegionOnFat | FatGeometry.IntendedGeometryLayout |
| assignment3/vfat.c:80 | the walk advances with `offset++`, so it visits consecutive cluster numbers and ignores the link stored in the entry | FAT [0, 0, 5, 0x0FFFFFFF, 0, 0x0FFFFFFF] from cluster 2: visits 2, 3; the chain is 2, 5 | `offset = entry`, stopping at an end marker and never leaving the table | not executed | FatChain.OffsetIncrementSkipsLink | FatChain.FollowChainIntended |
| assignment3/vfat.c:137-166 | the do-while examines record 0 before any end test | an empty directory (a cluster of zeros) prints one file with an empty name, size 0 and first cluster 0 | test for the 0x00 end marker before each record | not executed | FatDirectory.EmptyClusterListsPhantomFile | FatDirectory.ScansAgree |
| assignment3/vfat.c:165-166 | the end test reads `cluster[offset]` after advancing, one byte past the buffer when every record is in use | a 512-byte cluster whose 16 records are all in use: no 0x00 marker inside, so the read falls outside the cluster | also stop at the end of the cluster | not executed | FatDirectory.FullClusterOverruns | FatDirectory.ReadDirectoryIntended |
