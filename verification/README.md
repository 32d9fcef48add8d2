# A model of the ZHT zero-hop hash table

ZHT is a distributed key-value store. A key's owner is `hash(key) % n` over a list of members, so a request
takes a single hop. This project models the parts of it that carry state and proves what each is for:

- **The store** (`Text`, `LogFormat`, `Storage`): a table mirrored by an append-only text log with tombstones,
  a loader that replays the log and a compaction that rewrites it. The log agrees with the table after exactly the
  operations whose data the line format can carry, over every run of operations, compactions and restarts.
- **The cache** (`Cache`): a bounded LRU cache kept as a table and a recency queue. It is the cache that stamps every
  entry with the time of its last use; larger caches contain smaller ones; a used key stays exactly while it has
  fewer rivals than there is room.
- **Chunked transfer** (`Utf8`, `Decimal`, `Framing`, `Chunking`, `Receiver`): fixed-width decimal headers and a
  receiver that reassembles interleaved, reordered and repeated chunks of any number of messages.
- **The distributed table** (`Hash`, `Host`, `Worker`, `Client`, `Proxy`, `Faults`, `Handover`, `Rebalance`,
  `Migration`, `Membership`): the routing hash, the request processor with its metrics, the client, the connection pool
  with its single retry and its one-way sends, the migration of keys when members change, and replica selection. A
  cluster answers like one table, also over a failing network until a call meets an error; retries are invisible for
  exactly the requests and connections where they can be; rebalancing puts every key at its new owner and loses none
  on the way, provided that no send uses a connection on which an unread response waits, and exactly which sends may
  lose something is proved too.

Objects that the source updates in place are classes here (`NoVoHT`, `LruCache`, `ChunkReassembler`, `ChunkReceiver`,
`HTWorker`, `TcpProxy`, `MigrationManager`, `MembershipManager`), with the source's loops. Each method is tied by
its postcondition to a function on values, and the theorems are about runs of those functions. Hash maps are visited
in an arbitrary order, so every result holds for any order. Locks make each operation one atomic step. The network is
a sequence of attempts, each of which may or may not connect, may or may not deliver the request, and may end in any
way a socket can report; the server's table changes when a request is delivered, whether or not an answer comes back.

Where the code does not do what its documentation or a natural reading suggests, the model follows the code and the
difference is a theorem:

- An entry with an empty value, or with white space at the end of its value or at the start of its key, does not
  survive a restart, although `put` accepts it (`Storage.EmptyValueIsLost`; `Storage.StepDurable` is the exact
  condition).
- A value that holds tabs comes back from a restart with every run of tabs turned into one colon
  (`Storage.TabsDoNotSurvive`), and an entry overwritten with an empty value comes back with the value before
  (`Storage.EmptyPutIsForgotten`).
- A call that times out after its request was delivered leaves its response unread in the pooled connection, and the
  next call on that connection is given that response instead of its own (`Proxy.TimeoutShiftsResponses`). So does every
  one-way send (`Proxy.PostShiftsResponses`), and replication uses one-way sends on the connection pool that migration
  uses too (`crates/zht-server/src/lib.rs:322`, `343`, `365`, `1000-1012`). An answer therefore need not mean a delivery
  (`Proxy.SuccessMeansDelivered`).
- `check_and_migrate` removes a group of keys when every one of them was answered, whatever the answers say: a refusal
  is only logged. With the above, it can remove a key that no target holds. An entry can be given up safely, whatever the
  network does, exactly when the target held it before, or no response was waiting on the connection and the key is not
  empty (`Handover.InsertIsTrusted` for one key, `Handover.GroupIsTrusted` for a key in a group). A migration that
  fails by a timeout and is tried again is such a case: `Rebalance.LateAnswerLosesKey` is a run that starts with no
  connection at all and ends with a key at no node. `Rebalance.TidyIsCareful` is a remedy: from clean connections, and
  unless the empty key has to move, closing a connection after every failure on it, which the migration does not do,
  is all it takes.
- `check_and_migrate` routes over the alive members, which never include the node itself, so with any other member
  alive every key it holds is to be moved, also the keys it owns (`Migration.EverythingIsStray`,
  `Membership.MembershipManager.ActiveMembers`).
- The empty key, which only `compare_swap` can create, is refused by every target but removed by
  `check_and_migrate` like the others; over clean connections the returned count leaves it out. A cluster can be
  rebalanced without loss exactly when the empty key does not have to move (`Rebalance.FinishesExactly`).
- The client's `compare_swap` is documented to return the current value; on success it returns the empty string
  (`Client.ProtocolIsFaithful`).
- An APPEND that is retried is applied twice, and a retried REMOVE may report a missing key
  (`Worker.RetrySafeExactly`).

## Model

| member | source | states |
|---|---|---|
| LogFormat.RecordIsRead | crates/zht-storage/src/lib.rs:363-409 | the loader reads the line written for a recordable entry as just that entry |
| LogFormat.ReadIsRecordable | crates/zht-storage/src/lib.rs:363-409 | whatever any line of text makes the loader insert, including lines of many fields joined with a colon, can be written back and read again |
| LogFormat.LoadIsRecordable | crates/zht-storage/src/lib.rs:351-413 | for any file content, every loaded entry has a non-empty key without tabs, newlines, leading white space or tilde, and a non-empty value without tabs, newlines or trailing white space |
| LogFormat.TabsBecomeColons | crates/zht-storage/src/lib.rs:369-408 | a record whose value holds tabs is read as its key with every run of tabs turned into one colon, and no part of the value gets lost |
| LogFormat.LoadedIsSame | crates/zht-storage/src/lib.rs:392-408 | a value comes through the log unchanged if and only if it holds no tab |
| LogFormat.KeyAloneIsNothing | crates/zht-storage/src/lib.rs:385-389 | a line with nothing after its key is passed over |
| LogFormat.LastLineNeedsNoBreak | crates/zht-storage/src/lib.rs:354-366 | a last line without a line break is loaded as one with it |
| LogFormat.RecordSurvives | crates/zht-storage/src/lib.rs:418-444 | appending an entry's record to any whole-line log makes it load as the old table with that entry set, if and only if the entry is recordable |
| LogFormat.TombstoneSurvives | crates/zht-storage/src/lib.rs:450-476 | appending the tombstone of a loaded key makes the log load without exactly that key, if and only if the key has no trailing white space, tab or newline |
| LogFormat.FlushSurvives | crates/zht-storage/src/lib.rs:297-338 | a compacted file, written in any order, loads as the table it was written from if and only if every entry is recordable |
| LogFormat.LoadFlushLoad | crates/zht-storage/src/lib.rs:94-103 | for any file content and any order, load, compact and load again gives the table of the first load |
| Storage.StepDurable | crates/zht-storage/src/lib.rs:117-259 | from a state whose log replays to its table, an operation leads to such a state if and only if what it logs can be read back |
| Storage.OpenDurable | crates/zht-storage/src/lib.rs:73-108 | opening a file of any content whatsoever gives a log that replays to the table |
| Storage.RunDurable | crates/zht-storage/src/lib.rs:117-338 | over every run of puts, removes, appends, swaps, compactions and restarts, the log replays to the table throughout if and only if each operation was safe where it happened |
| Storage.CutReplays | crates/zht-storage/src/lib.rs:418-476 | in a run of safe operations, between compactions the file only grows, and cut where it stood after any operation it replays to the table as it was then |
| Storage.StorableIsSafe | crates/zht-storage/src/lib.rs:184-213 | storable data stays storable, also through the colon join of append onto whatever is there |
| Storage.StorableRunsAreDurable | crates/zht-storage/src/lib.rs:117-338 | after opening any file, every run of operations on storable data keeps log and table in agreement |
| Storage.EmptyValueIsLost | crates/zht-storage/src/lib.rs:364-389 | an entry with an empty value is in the table but gone after a reload |
| Storage.TabsDoNotSurvive | crates/zht-storage/src/lib.rs:117-134 | putting an entry and opening the file again gives its value with every run of tabs turned into one colon, the same one if and only if it holds no tab |
| Storage.EmptyPutIsForgotten | crates/zht-storage/src/lib.rs:385-389 | putting an empty value and opening the file again brings back what the log held before |
| Storage.WhatIsLogged | crates/zht-storage/src/lib.rs:117-259 | each operation adds to the file the entry as it is afterwards, also a swap that does not take place; a removal its tombstone if the key was there; a refused one nothing |
| Storage.LogKeptOnce | crates/zht-storage/src/lib.rs:160-176 | a removal leaves a log that replays to what is left, if its key can be erased; without a file nothing is written |
| Storage.NoVoHT.InMemory | crates/zht-storage/src/lib.rs:58-64 | a table without a file starts empty |
| Storage.NoVoHT.WithPersistence | crates/zht-storage/src/lib.rs:73-108 | opening is one reopen step: the file is loaded and replaced by a listing of what was loaded |
| Storage.NoVoHT.ReadFile | crates/zht-storage/src/lib.rs:351-413 | the loop over lines overlays the replay of the file on whatever was in the table |
| Storage.NoVoHT.ReadEntry | crates/zht-storage/src/lib.rs:363-408 | one turn of the loop, with its early exits, has the effect the line format gives the line |
| Storage.NoVoHT.FlushFile | crates/zht-storage/src/lib.rs:297-338 | the file becomes a listing of the table in some order, each entry once; without a file nothing happens |
| Storage.NoVoHT.WriteEntry | crates/zht-storage/src/lib.rs:418-444 | exactly one record is added at the end of the file |
| Storage.NoVoHT.Put | crates/zht-storage/src/lib.rs:117-134 | one put step of table and file together; the empty key is refused without a trace |
| Storage.NoVoHT.Get | crates/zht-storage/src/lib.rs:141-146 | the stored value, or the missing key as an error |
| Storage.NoVoHT.Remove | crates/zht-storage/src/lib.rs:160-176 | one remove step; a missing key is an error and leaves no tombstone |
| Storage.NoVoHT.Append | crates/zht-storage/src/lib.rs:185-213 | one append step: the joined value is stored and logged in full |
| Storage.NoVoHT.CompareSwap | crates/zht-storage/src/lib.rs:228-259 | one compare-and-swap step; the answer is the value held afterwards, and a record is logged even on a mismatch |
| Storage.NoVoHT.Flush | crates/zht-storage/src/lib.rs:297-338 | one compaction step: the table is kept |
| Cache.NextRepresents | crates/zht-cache/src/lib.rs:70-203 | every operation on the queue does what the timestamped cache does, evicting the entry used longest ago |
| Cache.RunRepresents | crates/zht-cache/src/lib.rs:70-203 | over every run the queue is the timestamped table sorted by last use |
| Cache.Reachable | crates/zht-cache/src/lib.rs:70-203 | in every reachable state the queue has no repeats, lists exactly the table's keys, fits the capacity and is sorted by last use |
| Cache.NextIsWellFormed | crates/zht-cache/src/lib.rs:70-203 | every operation keeps any well-formed cache well-formed |
| Cache.StackInclusion | crates/zht-cache/src/lib.rs:70-137 | after the same operations, the smaller cache's entries are among the larger one's with equal values, and each fetch or remove of a key it holds is answered by both with its value |
| Cache.Residency | crates/zht-cache/src/lib.rs:70-125 | a key just used is still held, with its latest value, if it was not dropped and never had as many rivals as there is room |
| Cache.ResidentIsHit | crates/zht-cache/src/lib.rs:116-137 | such a key is answered by a fetch and by a remove, with its latest value |
| Cache.HitsAreLatest | crates/zht-cache/src/lib.rs:70-137 | in every run, what is held for a key is the value last inserted for it and not dropped since |
| Cache.AnswersAreLatest | crates/zht-cache/src/lib.rs:116-137 | in every run a fetch or remove answers nothing or the value last inserted and not dropped since, and nothing for a key never inserted |
| Cache.ResidencyExact | crates/zht-cache/src/lib.rs:70-125 | while only other keys are used, a key just used is held if and only if fewer than the capacity of them were used since |
| Cache.LruCache.constructor | crates/zht-cache/src/lib.rs:51-60 | a cache of positive capacity starts empty |
| Cache.LruCache.RemoveOrder | crates/zht-cache/src/lib.rs:195-203 | the first occurrence of the key, and nothing else, leaves the queue |
| Cache.LruCache.Insert | crates/zht-cache/src/lib.rs:70-86 | one insert step; the eviction loop ends because the queue lists every key of the table |
| Cache.LruCache.InsertWithEviction | crates/zht-cache/src/lib.rs:93-112 | the state afterwards is that of insert; the value returned is that of the least recently used entry, exactly when the key was new and the cache full |
| Cache.LruCache.Fetch | crates/zht-cache/src/lib.rs:116-125 | the stored value if the key is held and none otherwise, and a held key becomes the most recently used one |
| Cache.LruCache.Touch | crates/zht-cache/src/lib.rs:142-192 | one promotion step; an absent key changes nothing |
| Cache.LruCache.Remove | crates/zht-cache/src/lib.rs:133-137 | the removed value if the key was held and none otherwise, and the key leaves table and queue |
| Cache.LruCache.Clear | crates/zht-cache/src/lib.rs:166-170 | everything is gone and the cache is well-formed |
| Hash.GenHash | crates/zht-common/src/hash_util.rs:27-42 | the wrapping shift-and-add loop computes the base-65599 polynomial of the bytes before the first NUL, modulo 2^64 |
| Hash.HashOfConcat | crates/zht-common/src/hash_util.rs:27-42 | the hash of a concatenation of NUL-free parts follows from their hashes: H(a + b) = H(a) * 65599^length(b) + H(b) modulo 2^64 |
| Hash.NulEndsKey | crates/zht-common/src/hash_util.rs:29-33 | nothing after a NUL byte changes the hash |
| Hash.CollisionIsLocal | crates/zht-common/src/hash_util.rs:27-42 | two keys with a common prefix and suffix and middles of one length collide if and only if the middles do |
| Hash.ShortCollision | crates/zht-common/src/hash_util.rs:27-42 | NUL-free strings of one length up to four bytes collide only when they are equal |
| Hash.WindowSeparates | crates/zht-common/src/hash_util.rs:27-42 | keys of one length, however long, that differ only within four consecutive bytes collide only when they are equal |
| Host.AddressRoundTrip | crates/zht-common/src/host_entity.rs:33-46 | every entity is read back from its address, even when its host name holds colons |
| Host.AddressIsInjective | crates/zht-common/src/host_entity.rs:33-35 | two entities have one address if and only if they are equal |
| Host.AddressOfParsed | crates/zht-common/src/host_entity.rs:33-46 | a parsed address prints as it was if and only if its port was written without plus sign or leading zeros |
| Host.AddressIsRead | crates/zht-common/src/host_entity.rs:38-46 | text is read as an address if and only if what follows its last colon parses as a 16-bit number; without a colon it is not |
| Framing.FrameRoundTrip | crates/zht-transport/src/framing.rs:20-49 | for any encoding that its decoding inverts, a frame followed by anything is decoded to its message and what followed, if and only if the encoding is shorter than 2^32 bytes |
| Framing.MalformedExactly | crates/zht-transport/src/framing.rs:38-48 | a whole frame is refused as malformed if and only if its payload decodes to no message |
| Framing.CutFrameIsRefused | crates/zht-transport/src/framing.rs:32-45 | a frame cut off anywhere is refused, as too short within its length and as incomplete after it |
| Framing.FirstDifferenceDecides | crates/zht-transport/src/framing.rs:24 | the first byte in which two lengths differ decides which is larger |
| Framing.StreamRoundTrip | crates/zht-transport/src/framing.rs:20-49 | any stream of such frames is cut back into its messages in order |
| Framing.LargePrefixIsRefused | crates/zht-transport/src/framing.rs:32-45 | a buffer below half a gigabyte whose first byte is 0x20 or more is refused as incomplete |
| Utf8.DecodeOfEncode | crates/zht-transport/src/chunking.rs:202-203 | strict decoding of the bytes of any text gives the text back |
| Utf8.EncodeOfDecode | crates/zht-transport/src/chunking.rs:202-203 | only the encoding of a text decodes to it: overlong forms, surrogates and stray bytes are refused |
| Decimal.ParseOfDigits | crates/zht-transport/src/chunking.rs:204-207 | parsing the decimal form of a number gives the number exactly when it fits the target width, and fails otherwise |
| Decimal.ParsesExactly | crates/zht-transport/src/chunking.rs:204-207 | text parses to a number if and only if it is that number in digits, after a plus or not, and the number fits |
| Decimal.GarbageDoesNotParse | crates/zht-transport/src/chunking.rs:204-207 | text with a character that is no digit, other than a plus at its start, does not parse |
| Decimal.DigitsFit | crates/zht-transport/src/chunking.rs:153-167 | a number takes at most k columns if and only if it is below ten to the k |
| Chunking.SlicesFlatten | crates/zht-transport/src/chunking.rs:146-149 | the payloads of a message concatenate to the message |
| Chunking.SlicesCount | crates/zht-transport/src/chunking.rs:139-143 | the rounded-up quotient is the number of payloads, one for an empty message |
| Chunking.SliceAt | crates/zht-transport/src/chunking.rs:147-149 | the n-th payload is the data between the loop's two offsets, which are in range |
| Chunking.MakeChunk | crates/zht-transport/src/chunking.rs:151-176 | filling the buffer field by field gives the header and payload in the layout of a datagram |
| Chunking.ChunkMessage | crates/zht-transport/src/chunking.rs:137-180 | the loop makes one chunk for each payload, in order, numbered from zero and carrying the number of payloads |
| Chunking.HeaderSize | crates/zht-transport/src/chunking.rs:153-167 | with at most 9,999,999 chunks and 9,999 payload bytes the header is exactly 38 bytes for every 64-bit id |
| Chunking.ChunkLayout | crates/zht-transport/src/chunking.rs:151-170 | on the wire the id stands right-aligned in columns 0 to 19, position, total and size left-aligned from columns 20, 27 and 34, in decimal and padded with spaces, and the payload from column 38 |
| Chunking.ChunkRoundTrip | crates/zht-transport/src/chunking.rs:137-243 | a chunk is parsed back to its id, position, total and payload if and only if the total is below 10^7 and the payload below 10^4 bytes |
| Chunking.ParsedIsBounded | crates/zht-transport/src/chunking.rs:192-243 | no datagram whatsoever parses to more than seven digits of position or total or four of size |
| Chunking.RefusedExactly | crates/zht-transport/src/chunking.rs:192-243 | a datagram is refused if and only if it is shorter than a header, a field does not read or the payload is cut off; otherwise each field comes from its columns |
| Chunking.GarbageIsRefused | crates/zht-transport/src/chunking.rs:201-231 | a visible ASCII character other than a digit or a plus makes a field unreadable |
| Chunking.CutChunkIsRefused | crates/zht-transport/src/chunking.rs:192-239 | a chunk cut off anywhere is refused |
| Chunking.ChunkIsNotAFrame | crates/zht-transport/src/udp.rs:167-194 | no chunk is ever accepted as a framed message, so the server always hands it to the chunk receiver |
| Receiver.ReceiveStep | crates/zht-transport/src/chunking.rs:275-298 | holding what it should, the receiver completes a message exactly when its last missing chunk arrives, and then holds what it should again |
| Receiver.ViewIsExpected | crates/zht-transport/src/chunking.rs:275-298 | after any interleaved, reordered, repeated arrivals the receiver holds, for each message, exactly the chunks seen since it was last complete |
| Receiver.Delivery | crates/zht-transport/src/chunking.rs:95-118 | the next chunk delivers its message whole if and only if it was the last one missing, no other message is touched, and the panic on a missing chunk cannot happen |
| Receiver.DeliversOriginal | crates/zht-transport/src/chunking.rs:137-298 | end to end, for messages cut within the header's limits the bytes delivered are the original ones |
| Receiver.RefusedChangesNothing | crates/zht-transport/src/chunking.rs:275-298 | for any datagram and any state: a refused one leaves everything in flight as it is, any other touches its own message alone |
| Receiver.FirstTotalStands | crates/zht-transport/src/chunking.rs:282-298 | whatever later chunks announce, a message keeps the total of its first chunk until it is complete |
| Receiver.ChunkReassembler.constructor | crates/zht-transport/src/chunking.rs:78-85 | a new reassembler holds nothing |
| Receiver.ChunkReassembler.Insert | crates/zht-transport/src/chunking.rs:95-98 | the chunk is stored, replacing a repeated one, and completion means as many chunks as announced |
| Receiver.ChunkReassembler.Reassemble | crates/zht-transport/src/chunking.rs:109-118 | the chunks in order of position, or the panic when their number is not the announced one or one is missing |
| Receiver.ChunkReceiver.Feed | crates/zht-transport/src/chunking.rs:282-297 | a parsed chunk changes its own message alone, through reassemblers that are never shared |
| Receiver.ChunkReceiver.ReceiveChunk | crates/zht-transport/src/chunking.rs:275-298 | receiving a datagram is one step of the receiver on values; a malformed one changes nothing |
| Worker.TwiceSameStore | crates/zht-transport/src/worker.rs:63-194 | a second delivery of a request leaves the store as the first did, if and only if it is not an APPEND |
| Worker.AnswerOnTheWire | crates/zht-transport/src/worker.rs:63-194 | every answer field by field, by the opcode and status codes on the wire: opcode and key are echoed, and the value of a LOOKUP stands in two places |
| Worker.EffectOnTheWire | crates/zht-transport/src/worker.rs:63-194 | what each opcode on the wire does to the table, and that no other one does anything |
| Worker.ServedIsHandled | crates/zht-transport/src/lib.rs:665-872 | what the store is asked to do for a request changes its table as the unmetered dispatcher does |
| Worker.ServedIsDurable | crates/zht-transport/src/lib.rs:665-872 | a node whose log replays to its table still has such a log after a request if and only if what is logged for it can be read back |
| Worker.TwiceSameResponse | crates/zht-transport/src/worker.rs:63-194 | the second delivery is answered as the first was, if and only if it is not the REMOVE of a key that was there |
| Worker.RetrySafeExactly | crates/zht-transport/src/worker.rs:63-194 | delivering twice cannot be told from delivering once, in every state, if and only if the request is neither APPEND nor REMOVE of a key |
| Worker.PollIsDetermined | crates/zht-transport/src/lib.rs:834-851 | what is seen and the clock fix the outcome of a callback and the number of its polls |
| Worker.Poll | crates/zht-transport/src/lib.rs:821-851 | against any concurrent writers: success only if the last poll saw the value, expiry only if the last poll missed at or after the deadline, and at most lease/100 rounded up, plus one, polls |
| Worker.LeaseIs | crates/zht-transport/src/lib.rs:823-825 | a lease sent as a 64-bit number is that many milliseconds, and one that is no number is 100 |
| Worker.ExpiryIsLate | crates/zht-transport/src/lib.rs:816-851 | a callback with a lease of n milliseconds expires n milliseconds after its start or later, at a poll that missed the value |
| Worker.QuietCallback | crates/zht-transport/src/lib.rs:816-860 | when the key is not written meanwhile, the callback answers by the value it found |
| Worker.OperationsAddUp | crates/zht-transport/src/lib.rs:665-872 | over every trace, total operations is the sum of the per-opcode counts, the unrecognized requests and those without a key |
| Worker.ErrorsAddUp | crates/zht-transport/src/lib.rs:665-872 | over every trace, total errors is the sum of the per-opcode errors and the failures of unknown opcodes |
| Worker.TallyNext | crates/zht-transport/src/lib.rs:673-868 | what counting over the whole trace gives is what bumping the counters at each request gives |
| Worker.CountersByOpcode | crates/zht-transport/src/lib.rs:673-868 | which counters a request moves, by the opcode and status codes on the wire |
| Worker.HTWorker.Process | crates/zht-transport/src/lib.rs:665-872 | the metered dispatcher answers and changes the store and its log as the unmetered one, and every counter is the number of events of its kind, failures being the responses that do not start with 000 |
| Worker.HTWorker.RefuseKeyless | crates/zht-transport/src/lib.rs:679-696 | a request without a key is refused and counted as an error of its opcode without being counted as a run of it |
| Worker.HTWorker.Lookup | crates/zht-transport/src/lib.rs:699-721 | the answer is the dispatcher's, the counters move as the event says |
| Worker.HTWorker.Insert | crates/zht-transport/src/lib.rs:723-741 | the store is changed and the answer given as the dispatcher does, the counters move as the event says |
| Worker.HTWorker.Remove | crates/zht-transport/src/lib.rs:743-759 | the same for REMOVE, whose missing key is an error |
| Worker.HTWorker.Append | crates/zht-transport/src/lib.rs:761-779 | the same for APPEND |
| Worker.HTWorker.CompareAndSwap | crates/zht-transport/src/lib.rs:781-814 | the same for COMPARE_SWAP, where success means that the new value is stored, swapped in now or before |
| Worker.HTWorker.Await | crates/zht-transport/src/lib.rs:816-860 | the answer is how polling ends, and an expired lease is an error |
| Worker.HTWorker.RefuseOpcode | crates/zht-transport/src/lib.rs:862-868 | an unknown opcode is refused and counted as unrecognized and as an error |
| Client.ProtocolIsFaithful | crates/zht-client/src/lib.rs:92-314 | request, worker, response and parsing together do what the operation means, for every value, also empty ones and ones that look like a status |
| Client.ReadExactly | crates/zht-client/src/lib.rs:92-314 | for any response whatsoever, also one meant for another request: a call reads it as a success if and only if its status field begins with 000, and a swap unless it begins with -92 or -02; what value or error it reads |
| Client.LeaseIsCarried | crates/zht-client/src/lib.rs:244-262 | a callback is granted the lease it was called with |
| Client.HandleIsLocal | crates/zht-transport/src/worker.rs:63-194 | a request reads and writes its own key alone |
| Client.ClusterStep | crates/zht-config/src/lib.rs:280-293 | one routed call answers as a single node with the whole table would, and keeps every key at its owner only |
| Client.RoutedByPosition | crates/zht-config/src/lib.rs:280-293 | a key whose hash is i more than a multiple of the number of nodes is routed to the i-th node of the list |
| Client.ClusterIsOneTable | crates/zht-client/src/lib.rs:92-270 | every run of calls on a cluster of any size is answered as one table would answer it, and ends with every key at its owner only |
| Client.LookupAfterInsert | crates/zht-client/src/lib.rs:92-147 | a lookup after an insert returns that value, whatever it is and whatever the nodes held |
| Proxy.AtMostTwoDeliveries | crates/zht-transport/src/lib.rs:284-371 | a call delivers its request at most twice and the server's table shows exactly those deliveries |
| Proxy.CallExactly | crates/zht-transport/src/lib.rs:284-371 | for all weather: a refused connection ends a call at once, before a break and after it; any end but a break ends it with its own error or the first waiting response, everything else staying unread; a second break is reported |
| Proxy.SecondAttemptExactly | crates/zht-transport/src/lib.rs:284-371 | there is a second attempt if and only if the first spoke on a connection and that one broke |
| Proxy.CallIsAnswered | crates/zht-transport/src/lib.rs:284-371 | an answer is the first response that was waiting or the server's to the last delivery of this request; on a clean connection it is the latter, and the connection stays clean |
| Proxy.UnreadAfter | crates/zht-transport/src/lib.rs:284-371 | whatever waits on the connection after a call waited there before or answers a delivery of this request |
| Proxy.RetriesAreInvisible | crates/zht-transport/src/lib.rs:284-371 | for every connection: an answered call leaves table and response of one delivery, whatever the table and the network, if and only if the request is neither APPEND nor REMOVE of a key and no response is waiting, or the one waiting is the only answer the request can get |
| Proxy.AppliedOnceExactly | crates/zht-transport/src/lib.rs:284-371 | for every connection: an answered call leaves the table of one delivery, whatever the table and the network, if and only if it is not the APPEND of a key and either no response is waiting or the request changes nothing |
| Proxy.SuccessMeansDelivered | crates/zht-transport/src/lib.rs:284-456 | an answered call was delivered, whatever the network does, if and only if no unread response was waiting |
| Proxy.TimeoutShiftsResponses | crates/zht-transport/src/lib.rs:445-456 | after a delivered call that timed out, the next call on the connection is given the first call's response |
| Proxy.PostShiftsResponses | crates/zht-transport/src/lib.rs:382-439 | after a one-way send the next call on the connection is given the response to it, or one that is older still |
| Proxy.PostExactly | crates/zht-transport/src/lib.rs:382-439 | for all weather: how a one-way send ends, what it leaves unread and how often it was delivered |
| Proxy.TcpProxy.TryOnce | crates/zht-transport/src/lib.rs:290-369 | one turn of the retry loop is one attempt, on this address alone; a refused connection is not a broken one |
| Proxy.TcpProxy.SendReceive | crates/zht-transport/src/lib.rs:284-371 | the loop with its reconnect is the call the theorems are about, and touches no other connection or server |
| Proxy.TcpProxy.SendOnly | crates/zht-transport/src/lib.rs:382-439 | the loop of one-way sends with its reconnect is the one-way send the theorem is about, and touches no other connection or server |
| Proxy.TcpProxy.CloseConnection | crates/zht-transport/src/lib.rs:529-534 | whatever was unread on the connection is gone, and no other connection is touched |
| Faults.CallIsCarriedOut | crates/zht-client/src/lib.rs:92-270 | whatever waits on the connection, a call changes the cluster's one table as its meaning does, at most twice; on a clean connection an answer is that of the last time |
| Faults.AnswersAreTrue | crates/zht-client/src/lib.rs:92-270 | over every run of calls of any kind, with connections carried from call to call: the cluster stands for one table throughout, which each call changes never, once or twice; and until a call to a node meets an error, its answers are those of the call's last time |
| Faults.AnsweredRunIsMeaning | crates/zht-client/src/lib.rs:92-270 | a run without append, remove and errors over clean connections is answered as one table would answer it, however often requests were sent again |
| Faults.RepeatsAreHarmless | crates/zht-client/src/lib.rs:92-270 | carried out several times, any call but append changes the table as once, and any but append and remove answers as once |
| Faults.RemoveIsTrue | crates/zht-client/src/lib.rs:152-171 | in any run, until a call to its node meets an error, an answered remove has removed the key from the cluster's table, whatever the answer says |
| Faults.AnswersAreKnown | crates/zht-client/src/lib.rs:92-270 | in any run, also after errors, an answer is read from a response that waited for the node at the start or that the node gave to this call or an earlier one |
| Handover.InsertOutcome | crates/zht-transport/src/lib.rs:723-741 | whatever waits on the connection, an INSERT stores the entry or does nothing; on a clean one an answer means that it is stored, unless the key is empty, which is refused |
| Handover.InsertIsTrusted | crates/zht-server/src/lib.rs:571-598 | an answer to an INSERT, whatever it says, means that the target holds the entry, whatever the network does, if and only if the target held it before, or no response was waiting and the key is not empty |
| Handover.OnlyGivenArrive | crates/zht-server/src/lib.rs:549-602 | sending a group changes the target at most by entries of the group, whatever happens |
| Handover.CleanGroupArrives | crates/zht-server/src/lib.rs:549-602 | over a clean connection a group that was answered has arrived but for the empty key, and the connection stays clean |
| Handover.CleanGroupCount | crates/zht-server/src/lib.rs:563-601 | over a clean connection the count is the number of non-empty keys |
| Handover.ErrorEndsGroup | crates/zht-server/src/lib.rs:564-599 | after the first error of a group nothing more is sent |
| Handover.CalmSendsAll | crates/zht-server/src/lib.rs:564-601 | over a network without faults no group meets an error |
| Handover.GroupIsTrusted | crates/zht-server/src/lib.rs:517-602 | an entry of a group that was answered is at the target, in every order and weather, if and only if the target held it before, or no response was waiting at the start and its key is not empty |
| Rebalance.StartIsInitial | crates/zht-server/src/lib.rs:673-680 | any table over any member list is held by some cluster with every key at its owner only |
| Rebalance.RunIsTame | crates/zht-server/src/lib.rs:517-602 | in every run, safe or not: every copy is at the key's old or new owner with the right value, plans hold exactly the keys to move, and a key is removed only when its whole group was answered |
| Rebalance.SendIsSafeExactly | crates/zht-server/src/lib.rs:571-598 | the next send keeps the invariant, whatever the network does, if and only if its connection is clean and its key not empty, or its new owner holds the key already |
| Rebalance.OnlyErrorsSoil | crates/zht-transport/src/lib.rs:284-371 | only a send that fails leaves responses on a clean connection |
| Rebalance.TidyIsCareful | crates/zht-transport/src/lib.rs:529-534 | starting from clean connections and closing a connection after every failure on it, every send of every run is safe, unless the empty key has to move |
| Rebalance.LateAnswerLosesKey | crates/zht-server/src/lib.rs:517-602 | a run between any two nodes that starts without a connection and ends with a key at no node: a timeout, a retry, a late answer |
| Rebalance.GroupIsPath | crates/zht-server/src/lib.rs:549-602 | sending the keys of a group as the migration does, in any order and weather, is a sequence of steps of this system |
| Rebalance.InvariantHolds | crates/zht-server/src/lib.rs:517-602 | over every interleaving of plans, sends in any weather, removals and closed connections in which each send was safe: no copy is stray or wrong, what was answered is at its new owner, what was not is still at the old one |
| Rebalance.SendOverwritesNothing | crates/zht-server/src/lib.rs:571-593 | in any run, safe or not, a send never replaces a different value at its target |
| Rebalance.NeverLost | crates/zht-server/src/lib.rs:517-602 | at every moment of a run whose sends were safe each key is at its old or new owner with its value; in any run no other node holds it and no copy has another value |
| Rebalance.FinishedIsPlaced | crates/zht-server/src/lib.rs:517-656 | in a run whose sends were safe, once every node has planned, nothing is left to do if and only if every key is at its new owner alone with the value it had |
| Rebalance.StepProgresses | crates/zht-server/src/lib.rs:517-540 | every plan, answered send and removal leaves exactly one thing less to do; a failed send, which gives up its group, adds at most the number of keys |
| Rebalance.RunsAreShort | crates/zht-server/src/lib.rs:517-540 | the length of any run is bounded by what was left to do and by how often sends failed and connections were closed |
| Rebalance.CanFinish | crates/zht-server/src/lib.rs:517-656 | from every state of a run whose sends were safe there is a way to finish with safe sends, after which every key is at its new owner alone, unless the empty key has to move |
| Rebalance.EmptyKeyStays | crates/zht-server/src/lib.rs:571-593 | in no run does the empty key arrive anywhere |
| Rebalance.FinishesExactly | crates/zht-server/src/lib.rs:517-656 | there is a run of safe sends that puts every key at its new owner alone if and only if the empty key does not have to move |
| Migration.GroupedKeeps | crates/zht-server/src/lib.rs:506-515 | adding a key to the group of its target's address keeps every group with one target, which needs addresses to be injective |
| Migration.InOneGroup | crates/zht-server/src/lib.rs:636-653 | no key is in two actions |
| Migration.CalculatePlan | crates/zht-server/src/lib.rs:623-656 | the plan holds each key that changes owner, to a node other than this one, exactly once and in the action of its new owner; nothing else; it is empty when either list is |
| Migration.PlanIsMovingKeys | crates/zht-server/src/lib.rs:623-656 | the keys of the actions are what rebalancing expects the node to move, each to its owner under the new list |
| Migration.EverythingIsStray | crates/zht-server/src/lib.rs:483-497 | routed over a list without itself that is not empty, a node keeps none of its keys |
| Migration.StraysExactly | crates/zht-server/src/lib.rs:483-497 | a key is to be moved if and only if its owner is another node, to which it goes; once they have moved there are none left |
| Migration.MigrationManager.SendKey | crates/zht-server/src/lib.rs:571-598 | one key is one call over the retrying connection, on this address alone; any answer goes on, only a success is counted |
| Migration.MigrationManager.RemoveKeys | crates/zht-server/src/lib.rs:531-534 | the keys leave the table, and the log replays to what is left if they can be erased |
| Migration.MigrationManager.MigrateKeys | crates/zht-server/src/lib.rs:549-602 | the connection, the target and the count become what sending some of the given keys in some order makes of them, all of them on success; other servers are untouched |
| Migration.MigrationManager.MigrateGroup | crates/zht-server/src/lib.rs:517-540 | a group is removed here only when all of it was answered, and stays whole only when sending it met an error; the target changes only by receiving its entries, and then holds each that was to be trusted; removed keys do not come back from the log |
| Migration.MigrationManager.FindStrays | crates/zht-server/src/lib.rs:483-497 | exactly the keys that belong to another alive member, with that member |
| Migration.MigrationManager.GroupByTarget | crates/zht-server/src/lib.rs:506-515 | each key with a target is in the group of that target, once, and in no other |
| Migration.MigrationManager.MigrateGroups | crates/zht-server/src/lib.rs:517-540 | every group that stays met an error; groups not tried find everything as it was, servers change only by receiving what is meant for them, and of what is removed here every entry that was to be trusted is at its target |
| Migration.MigrationManager.CheckAndMigrate | crates/zht-server/src/lib.rs:478-544 | whatever the network does and whatever waits on the connections: a stray stays only if sending its group met an error; a key removed here is at its target with its value, if the target held it before or the connection was clean and the key is not empty; no server changes but by receiving keys meant for it; removed keys do not come back from the log; over a calm network every stray leaves, over clean connections too every non-empty one arrives and is counted; switched off or busy, nothing at all changes |
| Membership.CountAround | crates/zht-server/src/lib.rs:382-392 | walking the ring of alive members passes each of them once a turn |
| Membership.ReplicasAreEven | crates/zht-server/src/lib.rs:378-392 | n replicas name each of the t alive members n/t times, rounded down, or once more |
| Membership.PrimaryIsExcluded | crates/zht-server/src/lib.rs:378-392 | the node a key is routed to is not among its replicas if and only if there are fewer replicas than alive members |
| Membership.ReplicasFollow | crates/zht-server/src/lib.rs:378-392 | the first replica is the alive member after the one the key is routed to, and each other one the member after it |
| Membership.ReplicasAreDistinct | crates/zht-server/src/lib.rs:378-392 | no member is named twice if and only if there are no more replicas than alive members |
| Membership.AliveAreDistinct | crates/zht-server/src/lib.rs:233-240 | a table without repeats has alive members without repeats |
| Membership.AliveKeepOrder | crates/zht-server/src/lib.rs:233-240 | the alive members are exactly the alive entries, in the order of the table |
| Membership.OthersKeepOrder | crates/zht-server/src/lib.rs:107-118 | the members of a new table are exactly the configured nodes but this one, in the order of the list |
| Membership.MembershipManager.constructor | crates/zht-server/src/lib.rs:105-129 | the node itself is left out, and the table is free of repeats if and only if the configured list names no other node twice |
| Membership.MembershipManager.Find | crates/zht-server/src/lib.rs:146-153 | the first entry of the node, or none if there is none |
| Membership.MembershipManager.Mark | crates/zht-server/src/lib.rs:146-172 | only the first entry of the named node changes, whether or not the table has repeats, and a node not in the table is not added |
| Membership.MembershipManager.MarkAlive | crates/zht-server/src/lib.rs:146-153 | the first entry of the node becomes alive with a new heartbeat, no other entry changes, and a known node is among the alive ones |
| Membership.MembershipManager.MarkSuspect | crates/zht-server/src/lib.rs:156-163 | the first entry of the node becomes suspect with a new heartbeat and no other entry changes; without repeats the node is not alive afterwards |
| Membership.MembershipManager.MarkDead | crates/zht-server/src/lib.rs:166-172 | the first entry of the node becomes dead and keeps its heartbeat, and no other entry changes; without repeats the node is not alive afterwards |
| Membership.MembershipManager.AddMember | crates/zht-server/src/lib.rs:184-201 | one alive member more, unless it is the node itself or known; the table has repeats afterwards if and only if it had before |
| Membership.MembershipManager.RemoveMember | crates/zht-server/src/lib.rs:204-211 | exactly the entries of the node go, in the order that was; no repeats arise |
| Membership.MembershipManager.CheckHealth | crates/zht-server/src/lib.rs:217-230 | alive members not heard from for longer than the timeout become suspect, and nothing else changes |
| Membership.MembershipManager.ActiveMembers | crates/zht-server/src/lib.rs:233-240 | exactly the alive members in the order of the table, never the node itself, without repeats if the table has none |
| Membership.MembershipManager.ResolveNode | crates/zht-server/src/lib.rs:246-254 | the alive member a key is routed to, which is never the node itself; none if and only if no member is alive |

## Left out

- Sockets, tasks, signal handling, logging, the command line and configuration files: input and output. The network is a parameter of each call.
- The protobuf encoding of messages: printing and parsing a message are parameters of the framing theorems. Over the connection pool, messages arrive as they were sent.
- Message fields as bytes: they are text here, so the lossy decoding of invalid UTF-8 is not modelled; nor are the fields `newvalnull` and `replicanum`, which no modelled code reads.
- File errors, torn records and invalid UTF-8 in the log: the file is a sequence of characters and records are written whole. Write errors are only logged by the source.
- Overflow of machine-width lengths and counters, and of `data.len() + chunk_payload_size - 1`; `usize` is taken to be 64 bits wide.
- A chunk size of zero with data: the source divides by zero.
- Malformed chunk streams (a total of zero, a position beyond the total, totals that disagree): the receiver on values handles them as the code does, but the delivery theorems are about chunks that `chunk_message` makes.
- UDP chunked requests end to end: the client sends the bare encoding (`crates/zht-transport/src/udp.rs:86`), the server expects a length prefix after reassembly (`crates/zht-transport/src/udp.rs:181`), so only the bytes are shown to arrive.
- The index kept beside each cache value, which nothing reads after it is written.
- Random ids and the clock: parameters.
- Concurrency inside an operation: locks make each one atomic. The callback reads a table that others go on changing.
- Which error texts mean a broken connection: the network chooses how an attempt ends.
- Requests delivered only after their call has returned, and frames cut short by a timeout.
- Connection statistics, batches and health checks of the connection pool, and the pool in `tcp.rs`.
- Migration.MigrationManager.CheckAndMigrate: assumes no other writer of the local store meanwhile.
- Migration.CalculatePlan: returns the actions by address rather than as a list in arbitrary order.
- Executing a migration plan: no code in the repository does it, so `Rebalance` takes the send-then-remove loop of `check_and_migrate`: a group is removed only when all of it was answered, and starts over after an error.
- Other traffic on the connections while a cluster rebalances: `Rebalance` allows any responses to be waiting at the start, but adds none other than those its sends leave behind.
- Sending to replicas, server wiring and metrics, transport metrics, factories, traits, shutdown, configuration and neighbour-file parsing: they would only add easy members.
