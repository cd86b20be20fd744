# pirulo in Dafny

pirulo follows Kafka consumer groups. It reads the offset commits of every
group from the internal `__consumer_offsets` topic and keeps them, with the
high-water mark of each topic partition, in offset stores. Plugins compute
consumer lag from those stores; a task scheduler, a thread pool and a
debounced observer drive them. This project models the sequential cores of
that system and proves what each of them promises:

- `endianness.dfy` (module `Endian`): the byte swaps of 8, 16, 32 and 64-bit
  words, `change_endian` dispatching on the width, and the four host/big/little
  conversions of a little-endian host. Words are bit-vectors; their bytes in
  memory are a `seq<bv8>`.
- `memory.dfy` (module `Memory`): `InputMemoryStream`, a class over a byte
  buffer with a read position and a remaining count, and its reads: raw bytes,
  words in host, big-endian or little-endian order, and strings with a
  big-endian 16-bit length prefix. A `ParseException` is a `None` result.
- `consumer_offset_reader.dfy` (module `OffsetReader`): `handle_message` as a
  pure decoder `DecodeMessage(key, value)` with three outcomes (`Ignored`,
  `ParseError`, `Record`), the stream-driven method proved equal to it, the
  single store write, and the `run` loop that skips a message whose parse fails.
- `offset_maps.dfy`, `offset_store.dfy`, `consumer_offset_store.dfy` (modules
  `OffsetMaps`, `OffsetStores`, `ConsumerOffsetStores`): the nested maps
  group → (topic, partition) → offset with last-write-wins updates, the topic
  high-water map, and the listing of a group's entries.
- `observer.dfy` (module `Observers`): `Observer` with its per-key callback
  lists, the cool-down check of `notify`, and the fire times of a run of
  notifications.
- `task_scheduler.dfy` (module `TaskSchedulers`): `TaskScheduler` with its task
  table and its queue of execution instances sorted by due time, `add_task`,
  `remove_task`, `set_priority`, `set_minimum_reschedule_time` and one
  iteration of `process_tasks`; the class invariant says every task has exactly
  one instance, the queue holds no instance of an unknown task and every
  priority is at least 0.1.
- `lag_tracker.dfy` (module `LagTrackers`): `LagTrackerHandler`'s
  per-partition map (high-water mark and group offsets), the seeding of
  `handle_initialize`, `handle_consumer_commit`, `handle_topic_message`, and the
  two handlers that do nothing (`handle_new_consumer`, `handle_new_topic`).
  The `handle_lag_update` calls of one event are returned as a multiset.
- `thread_pool.dfy` (module `ThreadPools`): `ThreadPool`'s FIFO queue with an
  optional capacity, `add_task` admission, `stop`, and a worker's take step.
- `utils.dfy` (module `GroupIds`): `generate_group_id` with its sixteen random
  indices given as input.
- `base.dfy` (module `Base`): byte strings, `Option`, fixed-width integer
  types and the two's-complement conversions between them.

Time (`now`), the random draws, the callbacks and the consumer list of the
store are parameters. Priorities are exact reals and durations are integer
milliseconds.

Where the source disagrees with itself the model follows the code:
`TaskMetadata` in `include/utils/task_scheduler.h` has no
`last_priority_set_time` and the header declares no
`priority_adjustment_offset_`, but `src/utils/task_scheduler.cpp` uses both;
the model has the field and takes the adjustment offset as a constructor
argument. `ThreadPool::add_task` returns `bool` and the pool has a
two-argument constructor, as in `src/utils/thread_pool.cpp`. A commit
record whose value is empty (a tombstone) is not skipped specially: the code
fails to read the value version and raises a parse error, and so does the
model.

## Model

| member | source | states |
|---|---|---|
| Base.ToInt32 | src/consumer_offset_store.cpp:33 | `static_cast<int>` of an unsigned partition agrees with it modulo 2^32 and is non-negative exactly below 2^31 |
| Base.ToInt64 | src/offset_store.cpp:35 | a `uint64_t` offset stored in an `int64_t` slot agrees with it modulo 2^64 and is non-negative exactly below 2^63 |
| Base.Int32RoundTrip | src/consumer_offset_store.cpp:33 | converting an unsigned partition to `int` and back, or the other way, loses nothing |
| Base.Int64RoundTrip | src/offset_store.cpp:59-66 | an offset stored as `int64_t` and read back as `uint64_t` is the offset that was stored, and the other way round |
| Endian.Swap8IsIdentity | include/detail/endianness.h:50-52 | the 8-bit change of byte order returns its argument |
| Endian.Swap16Reverses | include/detail/endianness.h:59-65 | the 16-bit mask-and-shift swap exchanges the two bytes in memory |
| Endian.Swap16Involution | include/detail/endianness.h:59-65 | swapping a 16-bit value twice gives it back |
| Endian.Swap32Reverses | include/detail/endianness.h:72-79 | the 32-bit swap reverses the four bytes in memory |
| Endian.Swap32Involution | include/detail/endianness.h:72-79 | swapping a 32-bit value twice gives it back |
| Endian.Swap64Reverses | include/detail/endianness.h:86-93 | swapping the two 32-bit halves and exchanging them reverses all eight bytes in memory |
| Endian.Swap64Bytes | include/detail/endianness.h:86-93 | byte k of the 64-bit swap is byte 7 - k of the original, for every k |
| Endian.Swap64Involution | include/detail/endianness.h:86-93 | swapping a 64-bit value twice gives it back |
| Endian.ChangeEndian | include/detail/endianness.h:100-141 | `change_endian` keeps the width of the word it converts |
| Endian.ChangeEndianReverses | include/detail/endianness.h:100-141 | at every width, changing the byte order reverses the word's bytes in memory |
| Endian.ChangeEndianInvolution | include/detail/endianness.h:100-141 | changing the byte order twice is the identity at every width |
| Endian.HostBytesInjective | include/detail/endianness.h:100-141 | two words of the same width with the same bytes in memory are equal |
| Endian.HostBeRoundTrip | include/detail/endianness.h:143-184 | on a little-endian host `be_to_host` undoes `host_to_be` and the reverse, and `host_to_le`/`le_to_host` are the identity |
| Memory.Load | include/detail/memory.h:18-21 | `read_value` gives a word of the width asked for, as wide as the bytes copied |
| Memory.LoadBytes | include/detail/memory.h:18-21 | the loaded word's bytes in memory are exactly the bytes copied |
| Memory.BeWord | include/detail/memory.h:45-48 | `be_to_host(read<T>())` gives a word of the width asked for |
| Memory.BeWordBytes | include/detail/memory.h:45-48 | the word read big-endian is the one whose bytes in memory are the read bytes reversed |
| Memory.BeRoundTrip | include/detail/memory.h:45-48 | writing a word big-endian and reading it back gives the word, and reading 2, 4 or 8 bytes big-endian and writing them back gives the bytes |
| Memory.InputMemoryStream.constructor | include/detail/memory.h:25-31 | a new stream is positioned at the start with the whole buffer unread |
| Memory.InputMemoryStream.CanRead | include/detail/memory.h:76-78 | `can_read(n)` holds exactly when at least n bytes remain |
| Memory.InputMemoryStream.IsNonEmpty | include/detail/memory.h:100-102 | `operator bool` holds exactly when bytes remain |
| Memory.InputMemoryStream.Skip | include/detail/memory.h:68-74 | `skip(n)` fails without moving when n exceeds what remains, and otherwise advances by exactly n; consumed plus remaining stays the buffer size |
| Memory.InputMemoryStream.ReadBytes | include/detail/memory.h:80-86 | reading n raw bytes fails without moving when fewer remain, and otherwise yields exactly the next n bytes and advances by n |
| Memory.InputMemoryStream.Read | include/detail/memory.h:50-57 | `read<T>` fails without moving when fewer than sizeof(T) bytes remain, and otherwise yields the word loaded from the next sizeof(T) bytes and advances by sizeof(T) |
| Memory.InputMemoryStream.ReadBe | include/detail/memory.h:45-48 | `read_be<T>` yields the next sizeof(T) bytes read as a big-endian word, with the same failure rule as `read<T>` |
| Memory.InputMemoryStream.ReadLe | include/detail/memory.h:40-43 | `read_le<T>` yields the next sizeof(T) bytes read as a little-endian word, with the same failure rule |
| Memory.InputMemoryStream.ReadLength | include/detail/memory.h:60 | the length prefix of a string is the next two bytes read big-endian; fewer than two bytes fail without moving |
| Memory.InputMemoryStream.ReadString | include/detail/memory.h:59-66 | a string read succeeds exactly when `ParseString` of the unread bytes does and leaves its rest unread; a failure after the length keeps the 2 length bytes consumed |
| OffsetReader.ReadTopicPartition | src/consumer_offset_reader.cpp:49-50 | reading the topic and the partition from the stream gives what `DecodeTopicPartition` gives on the unread bytes |
| OffsetReader.ReadKeyFields | src/consumer_offset_reader.cpp:48-50 | reading group, topic and partition from the stream gives what `DecodeKeyFields` gives on the unread bytes |
| OffsetReader.ReadKey | src/consumer_offset_reader.cpp:42-50 | reading the key gives what `DecodeKey` gives: a newer version, a parse failure, or the three fields |
| OffsetReader.ReadValue | src/consumer_offset_reader.cpp:52-58 | reading the value gives what `DecodeValue` gives: the offset, or a failure for a newer version or a short value |
| OffsetReader.ReadMessage | src/consumer_offset_reader.cpp:41-58 | reading a message through the two streams gives the outcome `DecodeMessage` specifies |
| OffsetReader.HandleMessage | src/consumer_offset_reader.cpp:41-60 | `handle_message` has the outcome `DecodeMessage` specifies; a record's commit is written into the store, and any other outcome leaves the store as it was |
| OffsetReader.IgnoresNewerKeyVersions | src/consumer_offset_reader.cpp:43-47 | a key whose version exceeds 1 is ignored, whatever the rest of the key and the value hold |
| OffsetReader.RejectsNewerValueVersions | src/consumer_offset_reader.cpp:54-57 | after a well-formed key, a value whose version exceeds 1 is a parse error, so nothing is stored |
| OffsetReader.ParseStringAt | include/detail/memory.h:59-66 | a length prefix holding the body's length, the body and any rest parse back to the body and that rest |
| OffsetReader.ParseStringCut | include/detail/memory.h:61-63 | a length-prefixed string cut before its end does not parse |
| OffsetReader.TopicPartitionRoundTrip | src/consumer_offset_reader.cpp:49-50 | an encoded topic and 4-byte partition, followed by anything, decode to that topic and that partition |
| OffsetReader.KeyFieldsRoundTrip | src/consumer_offset_reader.cpp:48-50 | encoded group, topic and partition, followed by anything, decode to exactly those fields |
| OffsetReader.KeyRoundTrip | src/consumer_offset_reader.cpp:43-50 | a well-formed key of version 0 or 1 with trailing bytes decodes to its group, topic and partition |
| OffsetReader.ValueRoundTrip | src/consumer_offset_reader.cpp:54-58 | a well-formed value of version 0 or 1 with trailing bytes decodes to its offset |
| OffsetReader.DecodeRoundTrip | src/consumer_offset_reader.cpp:42-59 | a well-formed key and value, each with trailing bytes, decode to the record of exactly their fields |
| OffsetReader.EncodeDecode | src/consumer_offset_reader.cpp:42-59 | encoding versions at most 1, a group, a topic, a partition and an offset big-endian and decoding gives those fields back |
| OffsetReader.CutTopicPartition | src/consumer_offset_reader.cpp:49-50 | an encoded topic and partition cut short do not decode |
| OffsetReader.CutKeyFields | src/consumer_offset_reader.cpp:48-50 | key fields cut anywhere before their end do not decode |
| OffsetReader.TruncatedKeyFails | src/consumer_offset_reader.cpp:42-50 | a key of version 0 or 1 cut before its end is a parse error |
| OffsetReader.TruncatedValueFails | src/consumer_offset_reader.cpp:52-58 | a value cut before its end, the empty value included, is a parse error after a well-formed key |
| OffsetReader.Run | src/consumer_offset_reader.cpp:23-35 | the dispatch loop writes the commits of the messages that parse, in order, and counts the ones whose parse failed |
| OffsetReader.CommitsAppend | src/consumer_offset_reader.cpp:25-34 | the commits of two runs of messages are the commits of the first followed by those of the second |
| OffsetReader.FailedMessageIsSkipped | src/consumer_offset_reader.cpp:26-33 | a message that fails to parse leaves the store as if it had not been in the run |
| OffsetMaps.Put | src/offset_store.cpp:32-36 | `[group][{topic, partition}] = offset` makes that entry hold the offset, creates the group when absent and leaves every other entry as it was |
| OffsetMaps.LastWriteWins | src/consumer_offset_store.cpp:30-34 | after a run of writes an entry holds the value of the last write to it, or its old value when none wrote it |
| OffsetMaps.PutAllAppend | src/consumer_offset_store.cpp:30-34 | applying two runs of writes one after the other is applying their concatenation |
| OffsetMaps.PutAllKeepsEntries | src/consumer_offset_store.cpp:30-34 | writes never remove a group or an entry |
| OffsetMaps.EnumeratesCount | src/offset_store.cpp:51-56 | a listing of a group has exactly as many entries as the group has stored topic partitions |
| OffsetStores.NewConsumerOffset | src/offset_store.cpp:53-54 | an `OffsetStore::ConsumerOffset` carries the group, topic, partition and offset it was built from |
| OffsetStores.OffsetStore.constructor | include/offset_store.h:35-41 | a new store holds no consumer offsets and no topic offsets |
| OffsetStores.OffsetStore.StoreConsumerOffset | src/offset_store.cpp:32-36 | the group's entry for the partition becomes the offset, every other entry and the topic map stay as they were |
| OffsetStores.OffsetStore.StoreTopicOffset | src/offset_store.cpp:38-42 | the partition's high-water mark becomes the offset, whatever it was, and reads back as it |
| OffsetStores.OffsetStore.GetConsumerOffsets | src/offset_store.cpp:44-57 | an unknown group lists nothing; a known one lists one entry per stored partition with its stored offset and the group's id |
| OffsetStores.OffsetStore.GetTopicOffset | src/offset_store.cpp:59-66 | a partition with no stored mark gives none, one with a mark gives the last stored value |
| ConsumerOffsetStores.NewConsumerOffset | src/consumer_offset_store.cpp:14-26 | the accessors of a `ConsumerOffset` give the group, topic, partition and offset it was built from |
| ConsumerOffsetStores.ConsumerOffsetStore.constructor | src/consumer_offset_store.cpp:30-34 | a new store holds no offsets |
| ConsumerOffsetStores.ConsumerOffsetStore.Store | src/consumer_offset_store.cpp:30-34 | the entry of the group on (topic, `static_cast<int>` of the partition) becomes the offset, every other entry stays as it was |
| ConsumerOffsetStores.ConsumerOffsetStore.GetOffsets | src/consumer_offset_store.cpp:36-49 | an unknown group lists nothing; a known one lists one entry per stored partition with its stored offset and the requested group id |
| Observers.Observer.constructor | include/utils/observer.h:34-38 | the default observer watches nothing and has no cool-down |
| Observers.Observer.WithCoolDown | include/utils/observer.h:40-44 | an observer built with a cool-down watches nothing and keeps that cool-down |
| Observers.Observer.Observe | include/utils/observer.h:46-50 | the callback is appended to the key's list, a new key starting with last fire time 0; other keys are unchanged |
| Observers.Observer.Notify | include/utils/observer.h:52-73 | an unknown key or a notification within the cool-down fires nothing and changes nothing; otherwise the last fire time becomes now and every callback of the key is invoked once, in registration order |
| Observers.NotifyAll | include/utils/observer.h:52-73 | a run of notifications of one key fires at the times `FireTimes` gives and leaves its callbacks as they were |
| Observers.FireTimesRespectCoolDown | include/utils/observer.h:60-64 | every fire time is a notification time, the first is at least the last fire time plus the cool-down, and consecutive ones are a cool-down apart |
| Observers.FireTimesSpread | include/utils/observer.h:60-64 | any two fire times of a key are at least the cool-down apart |
| Observers.NoCoolDownFiresEveryTime | include/utils/observer.h:34-38 | with the default cool-down of zero and times that never go back, every notification fires |
| TaskSchedulers.ScheduleDelta | src/utils/task_scheduler.cpp:100-103 | the delay of a task is the floor of its maximum offset times its priority |
| TaskSchedulers.ScheduleDeltaMonotone | src/utils/task_scheduler.cpp:100-103 | a lower priority value never gives a longer delay |
| TaskSchedulers.ScheduleDeltaBounded | src/utils/task_scheduler.cpp:100-103 | with a priority of at most 1 the delay never exceeds the maximum offset |
| TaskSchedulers.ScheduleDeltaAtOne | src/utils/task_scheduler.cpp:39-40 | at the initial priority 1.0 the delay is the whole maximum offset |
| TaskSchedulers.Decayed | src/utils/task_scheduler.cpp:160 | the decayed priority is `min(1.0, 2 * priority)`: at most 1, at most twice the priority and equal to one of them, and never below a priority in [0, 1] |
| TaskSchedulers.DecayReachesOne | src/utils/task_scheduler.cpp:159-165 | from the minimum priority four decays reach 1.0, and from 0.5 one does |
| TaskSchedulers.MoreUrgentCanPostpone | src/utils/task_scheduler.cpp:75-83 | a lower priority value can move a task's instance later: from 1.0 to 0.5 at 90 ms, an instance due at 100 becomes due at 140 |
| TaskSchedulers.UpperBoundIndex | src/utils/task_scheduler.cpp:113-116 | `upper_bound` by due time: every instance before the position is due no later than t and the one at it is due later |
| TaskSchedulers.UpperBoundSplits | src/utils/task_scheduler.cpp:113-116 | in a sorted queue every instance from the `upper_bound` position on is due later than t |
| TaskSchedulers.UpperBound | src/utils/task_scheduler.cpp:116 | the search returns the `upper_bound` position |
| TaskSchedulers.InsertIsSplice | src/utils/task_scheduler.cpp:116-117 | inserting an instance puts it at the `upper_bound` position and keeps the rest in order around it |
| TaskSchedulers.InsertPlacement | src/utils/task_scheduler.cpp:116-117 | the inserted instance follows every instance due no later and precedes every one due later, so ties keep their insertion order |
| TaskSchedulers.InsertSorted | src/utils/task_scheduler.cpp:105-118 | inserting into a sorted queue keeps it sorted by due time |
| TaskSchedulers.InsertMultiset | src/utils/task_scheduler.cpp:117 | insertion adds exactly the new instance and loses none |
| TaskSchedulers.InsertIds | src/utils/task_scheduler.cpp:117 | after insertion the queue's task ids are the old ones plus the new instance's |
| TaskSchedulers.InsertDistinct | src/utils/task_scheduler.cpp:117 | inserting an instance of a task with no instance keeps one instance per task |
| TaskSchedulers.IndexOf | src/utils/task_scheduler.cpp:121-124 | the position `find_if` finds is that of the first instance of the task, or the end |
| TaskSchedulers.IndexOfFound | src/utils/task_scheduler.cpp:121-124 | `find_if` finds an instance exactly when the task has one in the queue |
| TaskSchedulers.FindInstance | src/utils/task_scheduler.cpp:124 | the linear search returns the position of the first instance of the task |
| TaskSchedulers.IndexOfUnique | src/utils/task_scheduler.cpp:121-124 | with one instance per task, the instance of a task found anywhere is the one `find_if` finds |
| TaskSchedulers.RemoveAtIsSplice | src/utils/task_scheduler.cpp:124 | erasing the instance at a position keeps the instances before and after it in order |
| TaskSchedulers.RemoveAtSorted | src/utils/task_scheduler.cpp:120-125 | erasing an instance keeps a sorted queue sorted and removes exactly that instance |
| TaskSchedulers.RemoveAtIds | src/utils/task_scheduler.cpp:120-125 | erasing a task's only instance removes exactly its id and keeps one instance per task |
| TaskSchedulers.InsertKeepsConsistent | src/utils/task_scheduler.cpp:41-44 | inserting an instance of a task the table gains keeps the scheduler invariant |
| TaskSchedulers.AddKeepsConsistent | src/utils/task_scheduler.cpp:34-46 | adding a task under the next id with one new instance keeps the invariant |
| TaskSchedulers.RemoveKeepsConsistent | src/utils/task_scheduler.cpp:48-56 | removing a task and its instance keeps the invariant |
| TaskSchedulers.UpdateKeepsConsistent | src/utils/task_scheduler.cpp:72-73 | changing a task's entry with a priority of at least 0.1, its instance left in place, keeps the invariant |
| TaskSchedulers.RescheduleKeepsConsistent | src/utils/task_scheduler.cpp:81-82 | changing a task's entry and replacing its instance by a new one keeps the invariant |
| TaskSchedulers.PopKeepsConsistent | src/utils/task_scheduler.cpp:148-167 | popping the earliest instance and inserting its task's next one keeps the invariant |
| TaskSchedulers.RescheduleUpdates | src/utils/task_scheduler.cpp:69-83 | the re-scheduling case of `set_priority` keeps the invariant and has the effect `PriorityUpdated` describes |
| TaskSchedulers.PrioritySet | src/utils/task_scheduler.cpp:72-73 | only the task's priority and priority set time change; every other task and field stays as it was |
| TaskSchedulers.Clamp | src/utils/task_scheduler.cpp:58-60 | `max(priority, MINIMUM_PRIORITY)`: a priority below 0.1 becomes 0.1 and any other is kept |
| TaskSchedulers.TaskScheduler.constructor | include/utils/task_scheduler.h:52-56 | a new scheduler has no tasks, an empty queue, next id 0 and a minimum re-schedule time of 10 s |
| TaskSchedulers.TaskScheduler.Schedule | src/utils/task_scheduler.cpp:105-118 | `schedule_task` inserts an instance due now plus the task's delay at the `upper_bound` position |
| TaskSchedulers.TaskScheduler.RemoveScheduledInstance | src/utils/task_scheduler.cpp:120-125 | the first instance of the task is erased |
| TaskSchedulers.TaskScheduler.AddTask | src/utils/task_scheduler.cpp:34-46 | the new task gets the next id, priority 1.0, its set time now and one instance due now plus its maximum offset; ids are consecutive; the invariant is kept |
| TaskSchedulers.TaskScheduler.RemoveTask | src/utils/task_scheduler.cpp:48-56 | an unknown id changes nothing; a known one loses its entry and its instance and nothing else changes |
| TaskSchedulers.TaskScheduler.SetPriority | src/utils/task_scheduler.cpp:58-84 | an unknown id changes nothing; otherwise the clamped priority and now are stored and the instance is re-scheduled from now exactly when the priority value fell or the instance is due later than now plus the minimum re-schedule time |
| TaskSchedulers.TaskScheduler.UpdateInPlace | src/utils/task_scheduler.cpp:72-73 | the case where the rule does not apply: entry updated, queue unchanged, invariant kept |
| TaskSchedulers.TaskScheduler.UpdateAndReschedule | src/utils/task_scheduler.cpp:72-83 | the case where the rule applies: entry updated, instance replaced by one due now plus the new delay, invariant kept |
| TaskSchedulers.TaskScheduler.Reschedule | src/utils/task_scheduler.cpp:81-82 | the task's instance is erased and a new one inserted, due now plus the delay of the given entry |
| TaskSchedulers.TaskScheduler.SetMinimumRescheduleTime | src/utils/task_scheduler.cpp:86-88 | the minimum re-schedule time becomes the value; nothing else changes |
| TaskSchedulers.TaskScheduler.AdjustedPriority | src/utils/task_scheduler.cpp:159-166 | a priority last set more than the adjustment offset ago is decayed, otherwise kept, and stays at least 0.1 |
| TaskSchedulers.TaskScheduler.ProcessNext | src/utils/task_scheduler.cpp:135-167 | with no due instance nothing changes; otherwise the earliest instance is popped, its task's priority adjusted, a new instance inserted due now plus the new delay, and the task returned to run |
| TaskSchedulers.TaskScheduler.RunDue | src/utils/task_scheduler.cpp:148-170 | the step for a due front instance: pop, adjust, re-insert and return the task, keeping the invariant |
| LagTrackers.Lag | src/python/lag_tracker_handler.cpp:58 | `max(0, hw - offset)` is positive exactly when the group trails the mark, and then closes the gap |
| LagTrackers.LagMonotone | src/python/lag_tracker_handler.cpp:58-67 | a group further along never has a larger lag, and a partition that grows never gives a smaller one |
| LagTrackers.SeededByNothing | src/python/lag_tracker_handler.cpp:18-43 | before any stored offset is seeded the tracker is as it was |
| LagTrackers.SeedIntoStep | src/python/lag_tracker_handler.cpp:27-35 | seeding one stored offset into a partition emplaces it and takes the mark from the store while it is -1 |
| LagTrackers.SeedStep | src/python/lag_tracker_handler.cpp:23-35 | seeding one more stored (group, partition) pair keeps the seeding characterisation |
| LagTrackers.SeedingKeepsTracked | src/python/lag_tracker_handler.cpp:28 | seeding never overwrites the offset of a group already tracked on a partition, nor forgets a partition |
| LagTrackers.SeedingHighWatermark | src/python/lag_tracker_handler.cpp:29-35 | a known mark is never replaced by seeding; an unknown one is taken from the store once a group of its partition is seeded |
| LagTrackers.LagsCoverStep | src/python/lag_tracker_handler.cpp:64-68 | one more group's lag update extends the updates emitted so far by exactly one |
| LagTrackers.LagsCoverAll | src/python/lag_tracker_handler.cpp:64-68 | updates covering every group are what `handle_topic_message` emits |
| LagTrackers.LagsOf | src/python/lag_tracker_handler.cpp:64-68 | one update per tracked group, against the new mark, and nothing else |
| LagTrackers.LagTracker.constructor | include/python/lag_tracker_handler.h:26-33 | a new tracker knows no partition |
| LagTrackers.LagTracker.HandleNewConsumer | src/python/lag_tracker_handler.cpp:45-47 | a new group changes nothing |
| LagTrackers.LagTracker.HandleNewTopic | src/python/lag_tracker_handler.cpp:49-51 | a new topic changes nothing |
| LagTrackers.LagTracker.HandleConsumerCommit | src/python/lag_tracker_handler.cpp:53-60 | the group's offset on the partition becomes the committed one, the entry being created if needed; one update is emitted when the mark is known and none otherwise; a partition seen for the first time gets mark -1, only this group, and no update; other partitions are untouched |
| LagTrackers.LagTracker.HandleTopicMessage | src/python/lag_tracker_handler.cpp:62-70 | the partition's mark becomes the offset and every tracked group gets one update against it; other partitions are untouched |
| LagTrackers.LagTracker.SeedEntry | src/python/lag_tracker_handler.cpp:23-35 | one stored offset is emplaced and the mark looked up in the store while it is -1 |
| LagTrackers.LagTracker.SeedConsumer | src/python/lag_tracker_handler.cpp:21-36 | all stored offsets of one group are seeded |
| LagTrackers.LagTracker.HandleInitialize | src/python/lag_tracker_handler.cpp:18-43 | every stored offset of every listed group is seeded: tracked offsets kept, missing ones added, unknown marks taken from the store |
| ThreadPools.ThreadPool.constructor | src/utils/thread_pool.cpp:10-13 | the one-argument pool has no capacity, an empty queue and runs |
| ThreadPools.ThreadPool.WithCapacity | src/utils/thread_pool.cpp:15-20 | the two-argument pool keeps its capacity, with an empty queue, and runs |
| ThreadPools.ThreadPool.AddTask | src/utils/thread_pool.cpp:26-34 | a task is refused, the queue unchanged, exactly when there is a capacity and the queue has reached it; otherwise it is appended at the back, so a `wait_for_tasks` call made next on a running pool does not return at once; the queue never exceeds the capacity |
| ThreadPools.ThreadPool.Stop | src/utils/thread_pool.cpp:36-57 | the pool stops running and its queue is left as it was, so a `wait_for_tasks` call made afterwards returns at once |
| ThreadPools.ThreadPool.TakeTask | src/utils/thread_pool.cpp:59-82 | a stopped pool or an empty queue yields nothing; otherwise the front task is taken |
| ThreadPools.SubmitAll | src/utils/thread_pool.cpp:26-34 | the admitted tasks are the run up to the point where the queue is full, appended in order; a task is refused only when there is a capacity and the queue has reached it, so with no capacity every one is admitted |
| ThreadPools.Drain | src/utils/thread_pool.cpp:49-82 | the workers of a running pool with at least one worker run the queued tasks in submission order and empty the queue, so a `wait_for_tasks` call made afterwards returns at once |
| GroupIds.AlphabetDigits | src/utils/utils.cpp:17-23 | the alphabet has sixteen characters and character d is the hexadecimal digit d |
| GroupIds.Alphanums | src/utils/utils.cpp:17-23 | the two loops fill the array with exactly `0123456789abcdef` |
| GroupIds.DrawsOf | src/utils/utils.cpp:29-31 | reading the draws back from an id gives one per appended character |
| GroupIds.GroupIdFormat | src/utils/utils.cpp:14-31 | an id is 23 characters, starts with `pirulo-`, the rest are hexadecimal digits, and the draws can be read back from it |
| GroupIds.GenerateGroupId | src/utils/utils.cpp:16-33 | `generate_group_id` with given draws returns the id those draws make |

## Left out

- Threads, mutexes, condition variables, the blocking waits and joins: every critical section is one method call, and `now` is a parameter (one value for the two clock reads of `add_task` and of a `process_tasks` iteration).
- `ThreadPools.ThreadPool.Stop`: joining and clearing the worker threads is not modelled; `threadCount` is only stored.
- `wait_for_tasks` is not an operation of the model: its blocking wait is left out. The predicate `WaitReturns` says when a call made in a given state returns at once; `Stop` and `Drain` establish it, and a successful `add_task` on a running pool falsifies it.
- A caller already blocked in `wait_for_tasks` is woken only by `no_tasks_condition_`, which a worker notifies when it empties the queue; `stop` notifies only `tasks_condition_`. A wait that began before `stop` with tasks still queued therefore never returns. The model has no blocked callers and does not capture this.
- IEEE double rounding of priorities: priorities are exact reals and the delay is the floor of an exact product.
- `maximum_offset` is a non-negative number of milliseconds.
- `queue_iterator` is not modelled: instances are found by task id, as `remove_scheduled_instance` does.
- `TaskSchedulers.TaskScheduler.SetPriority`: returns `false` where the code throws "Task not found"; the state is unchanged in both.
- The random draws of `generate_group_id` are an input sequence; `random_device` and `mt19937` are not modelled.
- Callback arguments of `Observer::notify` are not modelled: callbacks are opaque values and `Notify` returns the ones it invokes, in order.
- `Observers.NotifyAll` drives `Notify` over a run of times; it is not a function of the source.
- `LagTrackers.LagTracker.HandleInitialize`: the consumer list is a parameter, since `OffsetStore::get_consumers` is not part of this model; the `subscribe_*` calls at its end are left out.
- `LagTrackers.Lag`: the subtraction `hw - offset` is exact; a wrap-around of the `int64_t` difference is not modelled.
- OffsetStores.OffsetStore.GetConsumerOffsets: a group's entries come out in `std::map` order of `cppkafka::TopicPartition`, whose `operator<` is not visible here; the listing is stated up to order (each stored partition exactly once, with its offset).
- ConsumerOffsetStores.ConsumerOffsetStore.GetOffsets: the same `std::map` order of `cppkafka::TopicPartition` is not stated; the listing is stated up to order.
- LagTrackers.LagTracker.HandleTopicMessage: the `handle_lag_update` calls follow the iteration order of an `unordered_map` and are stated as a multiset.
- `InputMemoryStream::size(size_t)` is not modelled: it can break the buffer bound and the decoder does not use it.
- The decoder's round-trip lemmas are stated over abstract byte fields whose lengths and length prefixes agree; `OffsetReader.EncodeDecode` ties them to big-endian encodings of concrete numbers.
- Kafka client I/O (`ConsumerOffsetReader::run` dispatcher wiring, `stop`, `topic_offset_reader.cpp`): `Run` takes the messages as a sequence.
- `consumer_offset.cpp` is not part of this model: its equality delegates to `cppkafka::TopicPartition`, which is not visible here.
- `consumer_pool`, `async_observer`, the Python embedding, plugins, logging and process wiring are not part of this model.
- Some source operations are split into helper methods (`ReadKey`, `ReadValue`, `ReadMessage`, `UpdateInPlace`, `UpdateAndReschedule`, `RunDue`, `SeedEntry`, `SeedConsumer`, `LagsOf`) that follow the source's statements in order.
