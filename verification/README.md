# MiniIM: a verified model

MiniIM is a chat system written in C: clients talk to connection servers, and these to four back-end
modules (user, friend, status, message). The model covers the parts of it in which state is shared between
operations, and proves what those operations keep over whole runs.

* **Hash table** (`Bits`, `HashElements`, `HashSort`, `HashTable`, `HashRuns`). uthash as it is written: bucket
  chains and the application order run through the same elements. The pointer operations, bucket doubling and
  the bottom-up merge sort are proved against sequences; whole runs of insertions, removals and sorts are
  carried out on one table, and a lookup afterwards agrees with a plain map. The sort's result is the only
  stable sort there is.
* **Circular lists and the timing wheel** (`CircularList`, `TimerSpec`, `ConnTimer`). The wheel is given three
  times: as lists linked through nodes, as a sequence of slots, and as a map from connections to ages in
  seconds. Each refines the next, and the exact moment of a timeout is proved over all runs.
* **Stream reassembly** (`Framing`, `PacketMemory`, `ClientReader`, `ServerReader`). A pure parser, which is the only way
  to cut a stream into packets, and the two readers that implement it chunk by chunk. What the continuation
  offset does to a packet's bytes, and what processing an unfinished packet does to the server's reader, are
  stated exactly.
* **Status and message modules** (`StatusPool`, `MessageQueues`, `ChatProtocol`). Each module as a program, and
  both together as two processes joined by channels that deliver in order: every packet for a user comes out as
  one message with its sender and text, written, stored or still queued, in any interleaving.
* **Connection server** (`PacketPool`, `PacketQueues`, `ConnRegistry`, `ConnHandlers`, `ConnSafety`, `ConnLosses`,
  `ConnTidy`, `ConnLogins`, `ConnVerdicts`, `ConnDelivery`, `ConnRuns`, `ConnAnnouncements`, `ConnExamples`,
  `ConnServer`). Packet blocks, two indexes, the connection allocator, the timer and the login gate in one state
  machine. `ConnSafety` has the invariant that every event keeps, whatever clients and modules send; `ConnLosses`
  says where every block goes and exactly when one is lost. What only some runs keep is stated by aims: `ConnTidy`
  (everything leads to open connections), `ConnLogins` (the index by user agrees with the connections' fields),
  `ConnVerdicts` (verdicts are about the login last asked for) and `ConnDelivery` (packets wait for whom they are
  addressed to) say of every packet and closing whether it breaks the aim, and `ConnRuns` lifts that to whole runs
  in both directions. `ConnAnnouncements` says whom the server announces offline, and what waits for the status
  module. `ConnExamples` has runs that break aims. `PacketQueues` keeps the blocks in rings of list nodes, and
  `ConnServer` is the program over them.
* **Packed lists** (`Codec`, `ContactCodec`, `ClientLists`). Servers write records into a packet, the client
  walks them: round trips, the room a record needs, and when an answer fits.

`Protocol` holds the constants of the wire format, `Sequences` what several modules say about sequences.

## How the model relates to the program

Objects whose fields the program updates are classes, its loops are loops, and every method is tied to a
function on sequences or maps whose properties are then proved. Where a property one would expect does not
hold, the code is kept and the condition under which it does hold is proved in both directions:

* A continued packet is stored at an offset that counts packet headers instead of bytes
  (`src/client/client_user.c:47`, `src/conn/conn_network.c:149`). Both readers take the offset as a parameter:
  `HEADER_STRIDE` is what is written, `BYTE_STRIDE` the declared repair. Packet boundaries, lengths and counts
  are proved for both, contents only for the repair. For `HEADER_STRIDE` that stands under the condition of
  `PacketMemory.ConfinedExactly`, because the model lets bytes behind a block fall away, where the program
  overwrites what stands there. With the written offset they are right for sure exactly
  for packets that arrive in one piece (`PacketMemory.HeaderOffsetsFaithful`), and on the server's zeroed blocks
  exactly if every byte behind the first piece is zero (`PacketMemory.ZeroBlockFaithful`).
  `PacketMemory.ConfinedExactly` says exactly when the pieces stay inside the block.
* `process_packet` takes an unfinished last packet off the list (`src/conn/conn_network.c:296-311`). A
  connection outlives a sequence of drains exactly if the stream is cut between packets, or after one byte of
  a length, at every drain but the last (`ServerReader.SurvivesExactly`).
* A keep-alive is worked off after the wheel has advanced. It saves its sender exactly if the pass covers a
  single second (`TimerSpec.RefreshSavesIfSingleTick`). The comment in `src/include/conn_timer.h:51-52` speaks of the
  current list and of one second only; the code uses the slot before it.
* `del_con` forgets one entry of a socket; no entry is left exactly if there was at most one
  (`MessageQueues.DelConForgets`). `close_connection` removes the entry that a lookup of its user finds; no entry
  of the connection is left exactly if it had none, or one that the lookup found (`ConnRegistry.CloseForgets`).
* The connection server takes a second login on a connection, and two logins as one user. Blocks, structures and
  sockets stay in order all the same (`ConnSafety`), but four other things do not, each of which `ConnRuns.RunExact`
  describes exactly: every state that a run passes through meets the aim if and only if no step breaks it.
  * The entry of the first login stays in the index by user when a connection logs in again. Whatever modules
    send for the first user goes on being queued for that connection, which now has the second user's number,
    also if nothing was waiting when it logged in again (`ConnExamples.SecondLoginMisdirects`). A packet
    misdirects exactly if it is a login while packets for another user wait, or if the connection that the
    lookup finds has another number in its field (`ConnDelivery.CmdPacketAddressed`, `SrvPacketAddressed`).
  * A verdict on the first login is noted as one on the second. The gate lets through what a client sends once
    some grant is noted (`ConnSafety.OnlyLoggedInIsForwarded`), so that it may let through a client whose latest
    login nobody has answered (`ConnExamples.UngrantedIsForwarded`). A verdict fits exactly if the connection it
    finds has the verdict's number in its field (`ConnVerdicts.SrvPacketFits`); if all do, the gate lets through
    only clients whose latest login is granted (`ConnRuns.OnlyGrantedIsForwarded`).
  * An index entry may lead to a closed connection (`ConnExamples.ClosedStaysIndexed`), whose structure then gets
    packets and is handed out again with them (`ConnExamples.ReleasedStructureLoses`), or is put back into the
    timer by a keep-alive (`ConnRegistry.RefreshPlaced`). This comes about exactly by closings that leave an
    entry behind (`ConnTidy.CloseTidy`).
  * The index by user and the connections' fields agree as long as every login is its connection's first, as a
    user not zero who is not logged in elsewhere, and no longer (`ConnLogins.CmdPacketKeeps`). Such runs break no
    aim (`ConnRuns.LoggingInOnceSuffices`).
* A user is announced offline before the connection is closed: after an error exactly if a granted login is noted at
  it, after a timeout always, also as user 0 if nobody has logged in, and after a logout as the user that the packet
  names (`ConnAnnouncements.FailureIsAnnounced`, `TimeoutsAreAnnounced`, `LogoutIsAnnounced`).
* Packet blocks get lost in three ways, and in no other (`ConnLosses.StepLoses`): a write that would block or
  fails, a command nobody handles, and a structure that is handed out again with packets in its queues.
* `message_get` drops the row at which a packet is full but goes on counting it, so that the request for
  offline messages comes to an end exactly if the first packet takes all rows
  (`Codec.MessageDb.OfflineRequest`, `Codec.FitsAll`). A contact the user database does not know is packed with
  length 0, and the client gets through a packet of contacts exactly if there is none
  (`ClientLists.ContactsRoundTrip`).
* Going online with 1000 users online reaches a null entry (`StatusPool.StatusServer.SetStatus`). The message
  module's check lets numbers of 2^31 and more pass, and its answer to a status reply and the status module's answer
  to a list check nothing: such numbers lead outside the tables (`MessageQueues.MessageServer.MessagePacket`,
  `StatusPool.StatusServer.GetMultiStatus`).
* `status_list_init` rebuilds the free list over whatever the status file holds. The pool is consistent
  afterwards exactly if nobody was online in it (`StatusPool.StatusServer.StatusListInit`).

## Model

| member | source | states |
|---|---|---|
| Bits.MaskIsMod | src/include/uthash.h:187-190 | masking a hash value with the bucket count minus one is the remainder modulo a power of two |
| Bits.ShiftIsDiv | src/include/uthash.h:658-660 | shifting right by the logarithm is the quotient |
| Bits.CeilDiv | src/include/uthash.h:658-660 | the shift-and-mask formula for the ideal chain length is the quotient rounded up |
| HashElements.PushFront | src/include/uthash.h:592-603 | pushing onto a bucket turns its chain s into [e] + s, with correct backward links, and raises its count |
| HashElements.DelInBkt | src/include/uthash.h:606-616 | unlinking the k-th element leaves a correctly linked chain of all the others and lowers the count |
| HashSort.SortIsPermutation | src/include/uthash.h:700-777 | the sorted order has exactly the elements of the old one |
| HashSort.SortIsSorted | src/include/uthash.h:700-777 | for every comparator that is a total preorder on the elements, the result is sorted; each pass doubles the length of the sorted runs |
| HashSort.SortIsStable | src/include/uthash.h:739-748 | elements that compare equal keep their order |
| HashSort.StableSortUnique | src/include/uthash.h:700-777 | there is only one stable sort of a sequence |
| HashSort.SortCorrect | src/include/uthash.h:700-777 | a sequence is the sort's result if and only if it is a stable sorted permutation of the input |
| HashSort.Emit | src/include/uthash.h:755-763 | appending one element to the merged list links it both ways and sets the new tail |
| HashSort.SkipRun | src/include/uthash.h:716-724 | finds the start of the second run and the length of the first, which is the run length or what is left of the list |
| HashSort.MergeRuns | src/include/uthash.h:726-764 | merges two adjacent runs of a linked list in place, behind what has been merged before |
| HashSort.MergeAll | src/include/uthash.h:710-767 | one pass over the list merges all pairs of neighbouring runs and counts the merges |
| HashSort.SortPass | src/include/uthash.h:710-773 | one pass with its end of list: the new order is the pass of the old one, with head, tail and both links |
| HashSort.SortList | src/include/uthash.h:705-776 | the loop of passes ends, and turns the linked list into the merge sort of its elements |
| HashTable.ExpansionCovers | src/include/uthash.h:647-693 | doubling keeps the same elements, each in the bucket its hash selects among twice as many; the elements of bucket i go only to i and i + b |
| HashTable.Rehome | src/include/uthash.h:667-678 | moving one element keeps the new chain's count, the number of elements beyond the ideal length and the capacity multiple right; the division is by a positive number |
| HashTable.SplitChain | src/include/uthash.h:664-680 | walking one old chain moves each of its elements to its new bucket, although their links change on the way |
| HashTable.Redistribute | src/include/uthash.h:661-681 | all old buckets are split, and nonideal_items ends as the sum over the buckets of what exceeds the ideal length |
| HashTable.ExcessIsLeft | src/include/uthash.h:667-678 | what nonideal_items counts of a chain is what is left of it when the ideal number of elements is taken away |
| HashTable.IdealLength | src/include/uthash.h:658-660 | the ideal chain length is the quotient of items and new buckets rounded up, and positive when reached from an insertion |
| HashTable.Table.MakeTable | src/include/uthash.h:140-157 | an empty table of 32 buckets whose parts are consistent |
| HashTable.Table.Find | src/include/uthash.h:94-105 | returns an element with the key if the table has one, and null if and only if it has none |
| HashTable.Table.AppendOrder | src/include/uthash.h:172-174 | the new element becomes the last of the application order |
| HashTable.Table.ExpandBuckets | src/include/uthash.h:647-693 | the whole expansion: elements, counters, ideal length and the decision whether to expand again |
| HashTable.Table.AddToBkt | src/include/uthash.h:592-603 | links the element in and expands exactly if the bucket has reached its capacity and expansion is not inhibited |
| HashTable.Table.Add | src/include/uthash.h:162-185 | the table stays consistent, its order becomes the old one followed by the new element, and its bucket array is the old one or a new one |
| HashTable.Table.UnlinkOrder | src/include/uthash.h:213-230 | head, tail and neighbours are patched so that the order lacks just the deleted element |
| HashTable.Table.UnlinkBucket | src/include/uthash.h:231-232 | only the deleted element's own bucket changes, and it loses just that element |
| HashTable.Table.Delete | src/include/uthash.h:204-237 | the table stays consistent, or is freed with its last element, its order loses just the deleted element, and its bucket array stays |
| HashTable.Table.Sort | src/include/uthash.h:700-777 | the order becomes the stable sort of the old one; bucket chains, and so every lookup, are not touched |
| HashTable.Table.ValidIsSound | src/include/uthash.h:261-311 | the invariant that every operation keeps implies everything the consistency check looks at |
| HashTable.Table.Fsck | src/include/uthash.h:261-311 | the consistency check, as a program, accepts a table that can be walked if and only if links, per-bucket counts and totals are right |
| HashRuns.SortKeepsKeysUnique | src/include/uthash.h:700-777 | sorting leaves no key twice that was there once |
| HashRuns.LookupAgrees | src/include/uthash.h:94-105 | over every legal run of insertions, removals and sorts, an element is in the resulting order if and only if the map made by the same run holds it under its key |
| HashRuns.IterationOrder | src/include/uthash.h:162-237 | over every run without a sort, in which keys may repeat, the resulting order is the insertions in order minus those undone by a later removal |
| HashRuns.FindAfter | src/include/uthash.h:94-105 | a lookup in a table with that order returns what the map holds, and null where it holds nothing |
| HashRuns.Run | src/include/uthash.h:162-237 | carrying out any run of insertions, also of keys that are there already, removals and sorts on an empty table, with all expansions on the way, leaves a consistent table in the order of the run; without a sort, insertion order minus deletions |
| HashRuns.RunThenFind | src/include/uthash.h:94-237 | a lookup after a whole run on a table returns an element with the key, and null if and only if there is none; if no key was inserted twice, what the map holds |
| HashRuns.ContactsSorted | src/client/client.c:79-82 | sorting contacts with the client's comparator puts those online first and keeps the order within each status |
| CircularList.Add | src/include/list.h:33-36 | the new entry becomes the first of the ring |
| CircularList.AddTail | src/include/list.h:39-42 | the new entry becomes the last of the ring |
| CircularList.Del | src/include/list.h:53-58 | the ring loses exactly the entry, whose own links become null |
| CircularList.Replace | src/include/list.h:61-68 | the new entry takes the old one's place in the ring |
| CircularList.IsEmpty | src/include/list.h:80-83 | true if and only if the ring has no entry |
| CircularList.IsSingular | src/include/list.h:86-89 | true if and only if the ring has exactly one entry |
| CircularList.CutPosition | src/include/list.h:104-119 | the ring is cut in two behind the entry; an empty or unsuitable ring is left alone |
| CircularList.SpliceFront | src/include/list.h:140-146 | the other ring's entries come to stand, in order, in front of this one's |
| CircularList.SpliceInit | src/include/list.h:168-175 | the same, and the other ring is empty afterwards |
| CircularList.SpliceTailInit | src/include/list.h:185-192 | the other ring's entries come to stand, in order, behind this one's, and the other ring is empty afterwards |
| TimerSpec.MarkPlaces | src/include/conn_timer.h:64-69 | a refresh puts a connection into the slot that expires last, whether it was in the wheel or not, and moves no other |
| TimerSpec.MarkAllPlaces | src/conn/conn_timer.c:60-81 | after the keep-alives, the connections named are in the slot before current, and every other one is where it was |
| TimerSpec.GatheredMembers | src/include/conn_timer.h:28-43 | what is collected is exactly what the slots prev+1 to current hold, across the end of the array |
| TimerSpec.GatheredNoDup | src/include/conn_timer.h:28-43 | nobody is collected twice |
| TimerSpec.DrainedPlaces | src/conn/conn_timer.c:86-94 | a pass empties exactly the expired slots and leaves the rest alone |
| TimerSpec.SlotAges | src/include/conn_timer.h:20-54 | how a slot's distance from current, its age and its expiry are related, for every position of the wheel and every interval from 1 to 120 |
| TimerSpec.ArriveRefines | src/include/conn_timer.h:46-54 | adding to the wheel is giving a connection the age zero |
| TimerSpec.LeaveRefines | src/include/conn_timer.h:57-61 | deleting from the wheel is forgetting an age |
| TimerSpec.PassTimesOut | src/conn/conn_timer.c:83-94 | a pass times out exactly the connections whose age reaches 120 seconds, and those refreshed in a pass of two seconds or more, each once |
| TimerSpec.PassRefines | src/conn/conn_timer.c:50-95 | a whole pass does to the wheel what growing older does to the ages |
| TimerSpec.RunRefines | src/conn/conn_timer.c:50-95 | wheel and ages agree after every run of arrivals, departures and passes |
| TimerSpec.TimesOutExactly | src/conn/conn_timer.c:50-95 | in every run, a connection left alone since it was added is timed out by the first pass whose accumulated seconds reach 120, and by no earlier one |
| TimerSpec.RefreshSavesIfSingleTick | src/conn/conn_timer.c:60-94 | a connection refreshed in a pass survives it if and only if the pass covers one second, and then stands in the slot that expires last |
| TimerSpec.RefreshedLasts | src/conn/conn_timer.c:60-94 | after such a refresh, a connection left alone has the full 120 seconds again |
| TimerSpec.CurrentSlotEmpty | src/include/conn_timer.h:45-54 | between passes the slot at current is empty |
| ConnTimer.Timer.constructor | src/conn/conn_timer.c:19-29 | an empty wheel of 121 slots |
| ConnTimer.Timer.TimerTick | src/include/conn_timer.h:20-25 | current moves on by the interval around the wheel, and prev to where current was |
| ConnTimer.Timer.TimerAdd | src/include/conn_timer.h:46-54 | the connection becomes the last of the slot before current; every other slot keeps its contents |
| ConnTimer.Timer.TimerDel | src/include/conn_timer.h:57-61 | the connection leaves its slot without the slot being known |
| ConnTimer.Timer.TimerMarkAlive | src/include/conn_timer.h:64-69 | the pointer operation is the refresh of the wheel |
| ConnTimer.Timer.GetTimeoutList | src/include/conn_timer.h:28-43 | splicing collects the expired slots, in order, in the first of them and empties the others |
| ConnTimer.Timer.Drain | src/conn/conn_timer.c:83-94 | the loop ends, closes the slot's connections front to back, and leaves the slot empty and the others alone; the memory it may still change is what it was, less the connections closed |
| ConnTimer.Timer.ExpireTime | src/conn/conn_timer.c:50-95 | the whole pass on linked lists is the pass of the wheel and closes exactly what it times out, in order; every connection closed is unlinked |
| ConnTimer.Timer.Run | src/conn/conn_timer.c:50-95 | any legal run of arrivals, departures and passes on linked lists is the same run of the wheel, and the lists represent the ages of that run |
| ConnTimer.TimesOutOnLists | src/conn/conn_timer.c:50-95 | on linked lists, a connection left alone since it was added is closed by a pass if and only if the seconds accumulated with it reach 120 |
| Framing.ParseUnique | src/client/client_user.c:15-138 | writing a stream as complete packets followed by an unfinished one is possible in one way only, the parser's |
| Framing.ParseFails | src/client/client_user.c:15-138 | the parse fails if and only if the stream is packets followed by a length that no packet has, and then it finds these packets |
| Framing.ParseConcat | src/client/client_user.c:144-166 | parsing in two parts: what is left of the first goes in front of the second, unless a bad length has been met |
| Framing.ChunkIndependence | src/client/client_user.c:144-166 | however a stream is cut into chunks, the reads make of it what the parser makes of the whole, and some read fails if and only if the stream holds a bad length |
| Framing.FeedTwice | src/client/client_user.c:144-166 | two successive reads are one read of both chunks, unless the first fails |
| PacketMemory.ByteOffsetsFaithful | src/client/client_user.c:43-50 | with byte offsets a packet's block holds the stream's bytes however the packet was cut up |
| PacketMemory.HeaderOffsetsFaithful | src/client/client_user.c:43-50 | with the offsets as they are computed, the block is sure to hold the stream's bytes if and only if the packet arrived in one piece |
| PacketMemory.ZeroBlockFaithful | src/conn/conn_network.c:145-153 | on a block filled with zeros, which is what the server begins with, those offsets yield the stream's bytes if and only if every byte behind the first piece is zero |
| PacketMemory.ConfinedExactly | src/conn/conn_network.c:145-153 | storing the pieces of a packet leaves what lies behind its block alone if and only if the stride times the bytes before the last piece leaves room for that piece |
| ClientReader.PacketReader.LastPacketIncomplete | src/client/client_user.c:15-61 | each of the four error exits and both outcomes of a continuation, with every field of the reader |
| ClientReader.PacketReader.LastPacketIncomplete1Byte | src/client/client_user.c:68-94 | the second byte of a length: a length out of range is refused, otherwise a packet is begun |
| ClientReader.PacketReader.LastPacketComplete | src/client/client_user.c:100-138 | a new packet begins: complete, unfinished, with one byte of its length, or with a length out of range |
| ClientReader.PacketReader.ReadSome | src/client/client_user.c:149-158 | each branch consumes between 1 and all of the bytes, or fails, and keeps what the parser makes of the rest |
| ClientReader.PacketReader.ReadPacket | src/client/client_user.c:144-166 | reading count bytes advances the reader as the parser says, and returns -1 if and only if a bad length is reached or count is negative |
| ClientReader.ReadChunks | src/client/client_user.c:144-166 | any sequence of chunks, up to the first that fails |
| ServerReader.ConnReader.LastPacketIncomplete | src/conn/conn_network.c:115-164 | the server's own continuation of the last packet on the receive list, with its four error exits |
| ServerReader.ConnReader.LastPacketIncomplete1Byte | src/conn/conn_network.c:171-200 | the second byte of a length, which puts the begun packet on the receive list |
| ServerReader.ConnReader.LastPacketComplete | src/conn/conn_network.c:206-249 | a new packet goes to the receive list at once, complete or not |
| ServerReader.ConnReader.ReadPacket | src/conn/conn_network.c:252-280 | the server's reader makes of a chunk what the same parser makes of it; once stranded it refuses every byte |
| ServerReader.ConnReader.ReadAll | src/conn/conn_network.c:350-370 | all chunks of one drain, up to the first that fails |
| ServerReader.ConnReader.ProcessPacket | src/conn/conn_network.c:296-311 | every packet on the list is taken off in order, the unfinished one included |
| ServerReader.ConnReader.ReadHandler | src/conn/conn_network.c:336-379 | one drain handles the completed packets of the parse in order, and with them at most one unfinished packet, exactly if its length is known; after that the reader is stranded |
| ServerReader.ConnReader.ReadDrains | src/conn/conn_network.c:336-379 | successive drains fail if and only if the condition Survives does not hold |
| ServerReader.SurvivesExactly | src/conn/conn_network.c:296-379 | that condition, in terms of the stream: no bad length, and every drain but the last ends between packets or after one byte of a length |
| ServerReader.CutPacketRefused | src/conn/conn_network.c:296-379 | every well-formed packet that two drains deliver is refused if the first of them ends behind its length |
| StatusPool.PoolCount | src/server/status.c:174-195 | free entries and online users always add up to 1000, and the free list is empty if and only if 1000 users are online |
| StatusPool.TakeKeepsPartition | src/server/status.c:207-213 | taking the first free entry keeps the pool partitioned between free list and table, without sharing |
| StatusPool.ReturnKeepsPartition | src/server/status.c:215-223 | so does returning a user's entry |
| StatusPool.StatusServer.StatusListInit | src/server/status.c:147-182 | a new file gives a consistent pool with nobody online; an old one is consistent afterwards if and only if nobody was online in it |
| StatusPool.StatusServer.StatusListGet | src/server/status.c:185-195 | the first free entry, or none if there is none |
| StatusPool.StatusServer.SetStatus | src/server/status.c:198-226 | after a change that returns 0 the user is online at the address given, or offline, and nobody else has changed; a change is refused with -1 exactly for a number out of range or a user who is there already, or gone already, and changes nothing; with 1000 users online, coming online reaches the null entry and changes nothing |
| StatusPool.StatusServer.ChangeAll | src/server/status.c:198-226 | any sequence of changes, up to the first that reaches the null entry |
| StatusPool.StatusServer.GetStatus | src/server/status.c:229-249 | the map's answer; for a number out of range -1, with the reply's fields as they were |
| StatusPool.StatusServer.GetMultiStatus | src/server/status.c:252-263 | the status of every user of a list, the last one first, up to a number that is no index of the table, which the program looks up unchecked; nothing is written behind the list |
| StatusPool.StatusServer.StatusPacket | src/server/status.c:271-317 | each command's reply, result and effect, and no reply where the code returns -1, reaches the null entry or goes outside the table |
| StatusPool.UsersAreIndependent | src/server/status.c:198-249 | over every run, while the pool lasts, what is answered about a user depends on that user's own changes only |
| StatusPool.FirstAnnouncementWins | src/server/status.c:207-213 | the first server to announce a user keeps it until the user goes offline |
| StatusPool.FirstAnnouncementCounts | src/server/status.c:198-226 | from nobody online and while the pool lasts, a user is online if and only if there is an online change since the user's last offline change, and then at the address of the first such change |
| MessageQueues.AddConUpdates | src/server/message.c:24-48 | registering an address is a map update: it leads to the new socket and every other address where it did |
| MessageQueues.AddConOneEntry | src/server/message.c:24-48 | an address never has two entries |
| MessageQueues.ConToFdFinds | src/server/message.c:66-75 | the lookup fails if and only if no entry has the address |
| MessageQueues.DelConForgets | src/server/message.c:51-63 | after a disconnection no entry leads to the socket if and only if it was registered at most once |
| MessageQueues.DelConKeepsOthers | src/server/message.c:51-63 | a disconnection disturbs no address that leads to another socket |
| MessageQueues.DeadSocketFound | src/server/message.c:51-63 | a socket registered under two addresses is still found under the second one after it is gone |
| MessageQueues.MessageServer.constructor | src/server/message.c:10-12 | nothing queued, nobody registered |
| MessageQueues.MessageServer.RegisterCon | src/server/message.c:24-48 | the loop over the list is the map update |
| MessageQueues.MessageServer.ForgetCon | src/server/message.c:51-63 | the loop removes the first entry of the socket |
| MessageQueues.MessageServer.FindCon | src/server/message.c:66-75 | the loop finds the address or returns -1 |
| MessageQueues.MessageServer.StoreOfflineMsg | src/server/message.c:188-204 | the store gets exactly the queue, newest first, each message once and for that user, inserted or, if and only if its insertion is refused, appended to the row that is there; the queue is empty afterwards |
| MessageQueues.MessageServer.SendMsg | src/server/message.c:207-234 | exactly the queue is written to the user's server, newest first, each packet with its length, user and message, and the queue is empty afterwards; if that server is not registered nothing changes |
| MessageQueues.MessageServer.QueueMessage | src/server/message.c:298-330 | the receiver's queue begins with a message that has the packet's sender, time, number and text, and is otherwise as it was; the receiver's status is asked for; and exactly which 32-bit numbers are refused or lead outside the table |
| MessageQueues.MessageServer.AnswerStatus | src/server/message.c:331-339 | the user's queue is sent or stored, as the status says, unless the number leads outside the table |
| MessageQueues.MessageServer.MessagePacket | src/server/message.c:263-349 | each command's effect on queues, connections, writes, store and status questions, its result, and exactly for which 32-bit numbers it goes outside the table |
| ChatProtocol.StepKeeps | src/server/message.c:298-342 | every step of either module and of the world around them keeps the protocol's invariant |
| ChatProtocol.Conservation | src/server/message.c:188-234 | in every run, what was accepted for a user is, in order, what the settled answers sent or stored followed by what is still queued |
| ChatProtocol.AtMostOnce | src/server/message.c:188-234 | no message is disposed of twice, and none that is disposed of is still queued |
| ChatProtocol.PendingIsInFlight | src/server/message.c:15-20 | while a queue is not empty, the status question of its newest message or the answer to it is in flight, or that answer named an unregistered server |
| ChatProtocol.Delivered | src/server/message.c:331-339 | once the channels have drained, every message whose own question was still to be answered has been sent or stored, provided the servers named are registered |
| ChatProtocol.StaysAway | src/server/message.c:335-338 | messages for a user who never comes online are only ever stored, and none is left behind an answered question |
| ChatProtocol.SentWhereTheUserIs | src/server/message.c:206-234 | while a user stays at one registered server, whatever else happens, that user's messages are sent to that server's socket, and none is stored or left unroutable |
| ChatProtocol.HandedOver | src/server/message.c:188-234 | in every run, what has been written for a user and what has been stored are, in order, the messages of the answers settled |
| ChatProtocol.NothingIsLost | src/server/message.c:188-234 | in every run, the messages accepted for a user are those written, those stored and those still queued, each once |
| ChatProtocol.EveryPacketIsHandedOver | src/server/message.c:188-342 | over every run, so are the packets that arrived for the user: each becomes one message with its sender, time, kind, length and text |
| ChatProtocol.EveryMessageHasArrived | src/server/message.c:188-342 | no message is written or stored for a user that no packet for that user has brought |
| ChatProtocol.StepIsHandler | src/server/message.c:263-349 | the protocol's steps are the message module's handler, with the numbering left out: same queues, same packets written, same rows stored, same questions |
| Codec.SetU16 | src/include/list_packet.h:153-156 | a 16-bit field written is read back, and no other byte changes |
| Codec.SetU32 | src/include/list_packet.h:157-158 | a 32-bit field written is read back, and no other byte changes |
| Codec.FieldsAreLittleEndian | src/include/list_packet.h:153-158 | a field is read with its lowest byte first |
| Codec.StrCpy | src/server/message_db.c:105-108 | the text and its terminator are copied, and no other byte changes |
| Codec.FitsAll | src/server/message_db.c:86-92 | all rows go into a packet if and only if each finds the room asked for behind the rows before it |
| Codec.LongRequestTurnedAway | src/server/message_db.c:89-92 | the room asked for is not the room used: a long text that is not packed is turned away by an empty packet |
| Codec.PackRow | src/server/message_db.c:94-108 | the record of a row stands where it was written, and nothing in front of it changes |
| Codec.MessageDb.PackRows | src/server/message_db.c:80-127 | as many rows as fit are packed and counted, the room left is never negative, the first row that does not fit is lost, and where the rows counted outnumber those left the null row is reached |
| Codec.ChunksCover | src/server/message_db.c:80-127 | the rows of a request that does not fit into one packet: behind those of each packet comes one that found no room there and is dropped, and those behind the last such row are not sent either |
| Codec.MessageDb.MessageGet | src/server/message_db.c:50-128 | a new query, a failed one, and the continuation of the last one |
| Codec.MessageDb.OfflineRequest | src/server/message.c:270-297 | the request is answered by one packet that holds all rows, and the rows deleted, if and only if they all fit; otherwise it never comes to an end of its own, and the packets sent hold the rows between those dropped; a request as user 0 goes on with the rows of the last query |
| ContactCodec.AlwaysFits | src/server/friend.c:328-348 | 125 contacts are the most that fit whatever their nicknames, so 100 always do |
| ContactCodec.PackContact | src/server/friend.c:339-345 | the record of a contact stands where it was written, and nothing in front of it changes |
| ContactCodec.GetContactsInfo | src/server/friend.c:328-348 | the contacts are packed in order, all of them if and only if they fit, and the packet's length is the header plus the bytes written; otherwise the first that finds no room is written behind the buffer |
| ClientLists.RecordRoundTrip | src/include/list_packet.h:388-418 | the walker's fields of a packed record are the row's, and the next pointer is the record's end |
| ClientLists.WalkRecovers | src/client/client_user.c:726-734 | walking a packed buffer gives exactly the rows packed, in order |
| ClientLists.FiledBySender | src/client/client_user.c:699-723 | each sender's messages are appended in order, and no other sender's list changes |
| ClientLists.ClientUser.ReadMessageFromBuffer | src/client/client_user.c:699-723 | the message is filed under its sender, with its text or without a buffer |
| ClientLists.ClientUser.ReadOfflineMsg | src/client/client_user.c:726-734 | the loop files every record of the packet |
| ClientLists.ContactRoundTrip | src/include/list_packet.h:305-335 | the client can read a packed contact if and only if the database knows the user and the nickname fits, and then finds the contact's fields |
| ClientLists.WalkContactsRecovers | src/client/client_user.c:599-621 | walking a packed buffer gets through if and only if all contacts can be read, and then gives exactly the contacts packed, in order |
| ClientLists.RefreshKeepsDistinct | src/client/client_user.c:606-620 | the contact list never holds a user twice |
| ClientLists.RefreshedList | src/client/client_user.c:599-621 | the other contacts keep their order, and those of the packet follow, each once with its last contents |
| ClientLists.ClientUser.ReadContactInfo | src/client/client_user.c:605-620 | one contact is taken over, an older entry of the same user removed, if and only if its record lies within the buffer and its nickname with terminator has a length from 1 to 32 |
| ClientLists.ClientUser.ReadContactInfoMulti | src/client/client_user.c:599-621 | the loop takes over every contact of the packet, up to the first that cannot be read, and gets through if and only if there is none |
| ClientLists.OfflineRoundTrip | src/client/client_user.c:699-734 | from the server's rows to the client's lists: every sender's messages arrive whole and in the order of the database |
| ClientLists.ContactsRoundTrip | src/client/client_user.c:599-621 | from the server's contacts to the client's list: the client gets through them if and only if the database knows them all, and its list is then the other contacts followed by these |
| ClientLists.StatusRoundTrip | src/server/friend.c:328-348 | from the status reply and the nicknames: the client gets through if and only if every user has a nickname of at most 31 characters, and then finds each user's status and nickname |
| ClientLists.RefreshContacts | src/client/client_user.c:599-621 | packing on the server and reading on the client, one after the other, with the exact size that fits, and the client's list afterwards |
| PacketPool.PushOwned | src/include/list.h:39-42 | a block nobody holds can be put on a list without any block having two owners or being lost |
| PacketPool.PopOwned | src/include/list.h:53-58 | a block taken off a list is on no list at all, and every other block is where it was |
| PacketPool.ReleaseOwned | src/include/conn_allocator.h:73-77 | a block nobody holds can be given back, and no other is lost or found |
| PacketPool.EnqueueOwned | src/include/conn_allocator.h:50-60 | a block from the allocator, put on a list, is on that list only, every other block is where it was, and none is lost or found |
| PacketPool.NewBlockIsUnused | src/include/conn_allocator.h:50-60 | the allocator never hands out a block that is on a list of its users |
| PacketPool.ReleaseAllOwned | src/conn/conn_packet.c:9-27 | emptying a list moves exactly its blocks to the free list |
| PacketPool.EmptiedOwned | src/include/conn_connection.h:42-50 | initialising a list head again loses exactly the blocks that are on the list |
| PacketQueues.RingsApart | src/include/list.h:39-58 | because no block is on two lists, the rings of two lists have no node in common |
| PacketQueues.LinkTail | src/include/list.h:39-42 | list_add_tail of a block's node puts the block at the end of the list, and every other head still links exactly its list's nodes |
| PacketQueues.LinkFront | src/include/conn_allocator.h:73-77 | list_add of a block's node to the free list puts the block in front, and every other ring is intact |
| PacketQueues.UnlinkFirst | src/include/list.h:53-58 | list_del of the first node takes just that block off the list, and every other ring is intact |
| PacketQueues.InitHead | src/include/conn_connection.h:42-50 | initialising a head empties its list and leaves every other ring intact |
| PacketQueues.Queues.IsEmpty | src/include/list.h:80-83 | the test of the head's link is right if and only if the list is empty |
| PacketQueues.Queues.PopFirst | src/include/list.h:53-58 | the first entry of a ring, found through its node, is the first block of the list, and leaves it |
| PacketQueues.Queues.Malloc | src/include/conn_allocator.h:50-60 | the allocator unlinks the first free node, or makes a node for an address never used, and all rings are intact |
| ConnRegistry.CloseForgets | src/conn/conn_packet.c:43-49 | removing what a lookup of the user finds leaves no entry of the connection if and only if it had none, or one that the lookup found |
| ConnRegistry.FindsFirst | src/include/conn_server.h:58-64 | a lookup finds the first entry of the user |
| ConnRegistry.SecondLoginLeavesEntry | src/conn/conn_packet.c:143-146 | two connections logged in as one user: closing the first leaves an entry that leads to it |
| ConnRegistry.IndexesAgree | src/include/conn_server.h:39-64 | under the invariant of single logins, a lookup by user is inverse to the connection's own field, and the index by socket is one-to-one |
| ConnRegistry.AcceptPlaced | src/conn/conn_network.c:96-107 | accepting a connection takes its structure from the free list or from new memory into the timer, and every structure is still in exactly one of the two |
| ConnRegistry.DropPlaced | src/conn/conn_packet.c:31-57 | closing moves the structure from the timer to the free list; no socket and no slot leads to it |
| ConnRegistry.RefreshPlaced | src/include/conn_timer.h:64-69 | a refresh moves a structure to the slot that expires last, even one already released, which thereby leaves the free list |
| ConnRegistry.AcceptKeeps | src/conn/conn_network.c:96-107 | accepting a connection keeps that invariant |
| ConnRegistry.LoginKeepsExactly | src/conn/conn_packet.c:137-149 | a login keeps it if and only if it is the connection's first, as a user not zero who is not logged in elsewhere |
| ConnRegistry.DropKeeps | src/conn/conn_packet.c:31-57 | closing keeps it, and then no entry of either index and no timer slot leads to the connection |
| ConnRegistry.DropTidy | src/conn/conn_packet.c:31-57 | if entries and timer lead to open connections only, closing one keeps that if and only if it leaves no entry behind |
| ConnRegistry.DistinctInAnyOrder | src/include/uthash.h:661-681 | that no user has two entries does not depend on the order in which an expansion leaves them |
| ConnRegistry.UnlinkIsRemove | src/include/conn_timer.h:57-61 | taking a connection out of every slot is taking it out of the one it is in |
| ConnRegistry.ExpiredAreHeld | src/conn/conn_timer.c:83-94 | what a pass collects is in the timer, each structure once, and exactly those whose time is up |
| ConnRegistry.ExpireTimes | src/conn/conn_timer.c:50-95 | a pass over the registry closes exactly those, and leaves the rest in place with their new ages |
| ConnSafety.CloseSafe | src/conn/conn_packet.c:31-57 | closing keeps the invariant of all runs, frees the structure, and gives exactly the blocks of both queues back to the allocator |
| ConnSafety.CmdPacketSafe | src/conn/conn_packet.c:89-128 | whatever a client sends, also a second login, the invariant is kept; if the connection is closed, none of its received packets is left |
| ConnSafety.SrvPacketSafe | src/conn/conn_packet.c:189-258 | whatever a module sends, the invariant is kept |
| ConnSafety.ProcessSafe | src/conn/conn_network.c:296-311 | the loop over a receive list keeps it, also when a logout closes the connection on the way |
| ConnSafety.WriteSafe | src/conn/conn_network.c:396-426 | so does writing a send list, however the writes turn out |
| ConnSafety.KeepAllSafe | src/conn/conn_timer.c:60-81 | working off the keep-alive list keeps it and refreshes the connections named, in order, and nothing else in the registry |
| ConnSafety.KeepAllMoves | src/conn/conn_timer.c:60-81 | it gives exactly the blocks of that list back to the allocator |
| ConnSafety.PassSafe | src/conn/conn_timer.c:50-95 | a whole pass keeps it; afterwards the structures in the timer are exactly those the ages say |
| ConnSafety.StepSafe | src/conn/conn_network.c:493-539 | every event of the main loop, and every new order of the index by user, keeps the invariant and the timer's account of every connection's silence |
| ConnSafety.BlocksHaveOneOwner | src/include/conn_allocator.h:50-77 | in every reachable state, whatever clients send, no block is on two lists or twice on one, and the next block handed out is on no list of a user |
| ConnSafety.StructuresHaveOnePlace | src/include/conn_allocator.h:50-77 | in every reachable state, every connection structure ever handed out is either free, once, or in exactly one timer slot, once |
| ConnSafety.SocketsAreIndexed | src/include/conn_server.h:39-64 | in every reachable state, the index by socket is one-to-one and leads to structures that have the socket and are not free |
| ConnSafety.OnlyLoggedInIsForwarded | src/conn/conn_packet.c:89-128 | in every reachable state, a packet other than a login request has been forwarded only for a client at whose connection a grant was noted, and neither a refusal nor a new request since |
| ConnSafety.PassClosesTheSilent | src/conn/conn_timer.c:50-95 | in every reachable state, a pass leaves a structure in the timer if and only if a keep-alive leads to it and the pass covers one second, or none does and it is younger than 120 seconds by then |
| ConnSafety.AliveIsKept | src/conn/conn_timer.c:60-81 | the connections refreshed are exactly those that the index gives first for the user number of some keep-alive |
| ConnLosses.CmdPacketGoes | src/conn/conn_packet.c:89-186 | where a client's packet goes, for every command and login state, and that no other block is lost or found; a logout's block is reused for the announcement to the status module |
| ConnLosses.ForwardsAreLogged | src/conn/conn_packet.c:89-186 | what the history says of forwarding is what happens to the lists |
| ConnLosses.LogoutGoes | src/conn/conn_packet.c:151-159 | a logout reads the user's number from the released block rightly, and the announcement that takes the same block carries it |
| ConnLosses.SrvPacketGoes | src/conn/conn_packet.c:189-258 | where a module's packet goes, and that a verdict on a login is noted at the connection it is passed on to |
| ConnLosses.UnknownCommandIsLost | src/conn/conn_packet.c:124-126 | a client's packet is lost if and only if the client is logged in and the command unknown, a module's if and only if its command is |
| ConnLosses.ProcessLoses | src/conn/conn_network.c:296-311 | processing a receive list loses a block if and only if one of its packets is, when its turn comes, handled by nobody |
| ConnLosses.ProcessEmpties | src/conn/conn_network.c:296-311 | nothing is left on the receive list |
| ConnLosses.WriteLosesPacket | src/conn/conn_network.c:396-426 | writing loses exactly the packet at which it stops, wherever on the list that is |
| ConnLosses.WriteLoses | src/conn/conn_network.c:396-426 | writing loses a block if and only if a write does not succeed before the list is empty |
| ConnLosses.WriteLeaves | src/conn/conn_network.c:396-426 | writing takes off the list every packet up to and including the one at which it stops, or all |
| ConnLosses.StepLoses | src/conn/conn_network.c:493-539 | an event loses a block if and only if a new connection gets a structure with packets left in its queues, a received packet is handled by nobody, or a write does not succeed; and no lost block ever comes back |
| ConnLosses.BlocksAreListedUnlessLost | src/include/conn_allocator.h:50-77 | after any run, every block ever handed out is on a list if and only if no event of the run has lost one |
| ConnTidy.CloseTidy | src/conn/conn_packet.c:31-57 | if queues, index entries and timer slots lead to open connections only, closing one keeps that if and only if the index has no entry of it, or one that the lookup of its user finds |
| ConnTidy.CmdPacketTidy | src/conn/conn_packet.c:89-186 | whatever a client sends keeps that, unless it is a logout that leaves an entry behind |
| ConnTidy.SrvPacketTidy | src/conn/conn_packet.c:189-258 | whatever a module sends keeps it |
| ConnTidy.AcceptConnTidy | src/conn/conn_network.c:96-107 | accepting a connection keeps it, and finds the queues of the structure empty |
| ConnTidy.BeforeClosingTidy | src/conn/conn_timer.c:50-83 | working off the keep-alives keeps it, and everything that is then collected is open |
| ConnLogins.CmdPacketKeeps | src/conn/conn_packet.c:89-186 | a client's packet keeps the index by user in agreement with the connections' fields if and only if it is no login, or its connection's first, as a user not zero who is not logged in elsewhere |
| ConnLogins.SrvPacketKeeps | src/conn/conn_packet.c:189-258 | a module's packet keeps it: the verdict is noted at a connection that has asked to log in |
| ConnLogins.LeavesNone | src/conn/conn_packet.c:31-57 | while they agree, closing an open connection leaves no entry behind |
| ConnVerdicts.SrvPacketFits | src/conn/conn_packet.c:214-242 | a module's packet notes a verdict on the login last asked for if and only if the connection it finds has the packet's user in its field |
| ConnVerdicts.VerdictsAreLogged | src/conn/conn_packet.c:214-242 | a verdict enters the history, with its kind and user, if and only if the answer is put on the client's list |
| ConnVerdicts.CmdPacketFits | src/conn/conn_packet.c:89-186 | what clients send changes nothing about that |
| ConnDelivery.CmdPacketAddressed | src/conn/conn_packet.c:89-186 | whatever a client sends, only packets that a module handles are added to the module's send list, and only keep-alives to the timer's; and what waits for clients stays addressed to them if and only if the packet is no login while packets for another user wait |
| ConnDelivery.SrvPacketAddressed | src/conn/conn_packet.c:189-258 | what waits for clients stays addressed to them if and only if the packet is not put on the list of a client with another user in its field |
| ConnDelivery.LoginOnceDirects | src/conn/conn_packet.c:137-258 | while the index agrees with the fields, no module's packet misdirects, and no login that keeps it in agreement |
| ConnDelivery.StartTellsMessage | src/conn/conn_packet.c:74-86 | when the loop starts, the one packet that waits tells the message module the address that clients connect to |
| ConnRuns.PacketExact | src/conn/conn_packet.c:76-258 | for each aim, from a state that meets it, one received packet keeps it if and only if it does not break it |
| ConnRuns.ProcessExact | src/conn/conn_network.c:296-311 | a receive list keeps an aim from packet to packet if and only if no packet, in its turn, breaks it |
| ConnRuns.ClosingsExact | src/conn/conn_timer.c:86-94 | the closings of a pass keep an aim one by one if and only if none leaves an entry behind, where that matters |
| ConnRuns.StepExact | src/conn/conn_network.c:493-539 | every event keeps an aim throughout if and only if it does not break it |
| ConnRuns.RunExact | src/conn/conn_network.c:493-539 | in every run from the start, every state passed through meets an aim if and only if no step breaks it |
| ConnRuns.LoggingInOnceSuffices | src/conn/conn_packet.c:137-149 | a run that keeps index and fields in agreement breaks no aim |
| ConnRuns.PacketsReachTheirModule | src/conn/conn_packet.c:76-186 | in every reachable state a packet queued for a module carries one of its commands, and only keep-alives wait for the timer |
| ConnRuns.PacketsReachTheirUser | src/conn/conn_packet.c:214-258 | after every run in which no packet misdirects, a packet queued for a client carries the number of the user that client last asked to log in as |
| ConnRuns.NothingLeadsToClosed | src/conn/conn_packet.c:31-57 | after every run in which no closing leaves an entry behind, no index, timer slot or queue leads to a connection that is not open |
| ConnRuns.NewConnectionsLoseNothing | src/conn/conn_network.c:96-107 | after such a run, a new connection does not get a structure with packets left in its queues |
| ConnRuns.PassClosesConnections | src/conn/conn_timer.c:50-95 | after such a run, a pass closes an open connection if and only if it has been silent for 120 seconds, or is refreshed in a pass of more than one second |
| ConnRuns.UsersAreIndexed | src/include/conn_server.h:39-64 | after every run in which clients log in once, a lookup by user finds an open connection if and only if it is the one that has asked to log in as that user |
| ConnRuns.OwnKeepAlives | src/conn/conn_timer.c:60-81 | and a connection is then kept alive if and only if a keep-alive in the name of its own user waits |
| ConnRuns.OnlyGrantedIsForwarded | src/conn/conn_packet.c:89-128 | after every run whose verdicts fit, a packet other than a login request has been forwarded only for a client whose latest login was granted and not refused since |
| ConnAnnouncements.FailureIsAnnounced | src/conn/conn_network.c:314-333 | after an error on reading or writing or a fault, in every reachable state, the user last asked for is announced offline if and only if a grant is noted at the connection, which is then closed |
| ConnAnnouncements.TimeoutsAreAnnounced | src/conn/conn_timer.c:86-94 | after a pass, every connection that has timed out has been announced and closed, whether logged in or not, and exactly which these are |
| ConnAnnouncements.LogoutIsAnnounced | src/conn/conn_packet.c:151-159 | a logout announces the user that the packet names |
| ConnAnnouncements.NextTells | src/conn/conn_packet.c:59-73 | every event but the writing of that list leaves the status module's list as it was, with one packet at its end for each announcement |
| ConnAnnouncements.AnnouncementsWait | src/conn/conn_packet.c:59-73 | in every reachable state, what waits for the status module are the latest announcements in order, each a status change of 24 bytes with the user in header and parameter and status 0 |
| ConnAnnouncements.NoneLeavesUnannounced | src/conn/conn_network.c:314-333 | in every reachable state, no connection at which a grant was noted has been closed without an announcement just before |
| ConnExamples.SecondLoginMisdirects | src/conn/conn_packet.c:137-242 | a client logs in as user 7 and, with nothing waiting for it, as user 8; the grant for 7 is then queued for it, and it counts as logged in as 8 |
| ConnExamples.UngrantedIsForwarded | src/conn/conn_packet.c:89-128 | what it sends next is forwarded, although nobody has answered its latest login |
| ConnExamples.ClosedStaysIndexed | src/conn/conn_packet.c:31-57 | a run in which two clients log in as one user and the first is closed: the index by user still leads to it |
| ConnExamples.ReleasedStructureLoses | src/include/conn_connection.h:42-50 | when that user's login is then granted, the next connection is handed the closed one's structure with the answer in its queue, and the packet is lost |
| ConnServer.Server.constructor | src/conn/conn_server.c:14-108 | the server when its loop starts, with the address for clients on its way to the message module, for which the invariant holds |
| ConnServer.Server.GetConnByUin | src/include/conn_server.h:58-64 | the loop finds the first entry that the index holds for the user |
| ConnServer.Server.ConnDestroy | src/conn/conn_packet.c:9-27 | both loops over the rings move the lists' blocks, front to back, to the free list |
| ConnServer.Server.ProcessPacket | src/conn/conn_network.c:296-311 | the loop over the receive ring ends, also when the connection is closed on the way, and does what the state machine says |
| ConnServer.Server.WriteHandler | src/conn/conn_network.c:383-434 | the loop over the send ring, with every way a write can end |
| ConnServer.Server.TimerExpireTime | src/conn/conn_timer.c:50-95 | both loops of the pass, over the keep-alive ring and over the expired connections, are the pass of the state machine |
| ConnServer.Server.Run | src/conn/conn_network.c:493-539 | any sequence of events on rings, indexes and timer leads to the state that the state machine reaches, so that everything proved of reachable states holds of the program's fields |

## Left out

- The hash functions, the Bloom filter and HASH_SELECT of uthash: the hash is an arbitrary function of the key.
- Sockets, epoll, signals and timers of the operating system: arrivals, write results and seconds are inputs.
- The database, password checking and SQL text: query results and what the offline store refuses are parameters or logs.
- Allocation failure, 32-bit overflow of bucket counts and of tick totals, and packets of negative length.
- MessageQueues.MessageServer.MessagePacket: where a number leads outside the table, the model stops with OutsideTable. The request for offline messages is not among its packets; it is Codec.MessageDb.OfflineRequest.
- MessageQueues.MessageServer.SendMsg: a packet's length is computed but not its bytes, and the message's length field is not checked against the text, as it is not in the program.
- StatusPool.StatusServer.GetMultiStatus: where a number leads outside the table, the model stops with BeyondTable.
- StatusPool.StatusServer.StatusListInit: pointers in an old file are table indexes here; in the program they are addresses of the process that wrote them.
- ConnRuns.UsersAreIndexed: a run in which a connection logs in twice, or two as one user, does not keep the index in agreement with the fields; RunExact says so exactly, but not what lookups find afterwards.
- ConnRuns.RunExact: its conditions are about the state in which a packet is handled or a connection closed, not about the packets of the run alone.
- ConnServer.Server.GetConnByUin: the index by user is a sequence, a new entry in front, and the index by socket a map. What an expansion of the hash table does to the order of one user's entries is an event of its own, Rehashed, which allows any order and may come between any two events; an expansion between two packets of one receive list is covered by receiving them apart.
- ConnServer.Server.TimerExpireTime: the list of expired connections is a value here; how it is collected in one slot by splicing is in ConnTimer. The slots and the free list of structures in ConnServer are sequences; the packet lists are rings.
- ConnServer.Server.Run: takes the packets that a stream reader has completed; the readers are in ServerReader and ClientReader, where lists are sequences of blocks. A socket that leads to nobody is closed by the program, which changes nothing here.
- ConnServer.Server.WriteHandler: what is written is not recorded, only which packets leave the list; a short write counts as written, as it does in the program.
- ConnTimer.Timer.ExpireTime: keep-alives are given as connections that are in the wheel; finding them by their users, and a keep-alive that finds a released structure, are in ConnServer and ConnSafety.
- ServerReader.ConnReader.ReadHandler: the error exits leave the packets received on the list; closing the connection is in ConnServer.
- ClientReader.PacketReader.ReadPacket: for HEADER_STRIDE, bytes that the program would write behind a block fall away here; ConfinedExactly says when there are none. The same goes for ServerReader.
- Codec.MessageDb.OfflineRequest: the program's null pointer is the result NullRow.
- Codec.PackRow: the four bytes of the timestamp are not written, as in the program, and a text holds no zero byte.
- ContactCodec.GetContactsInfo: the model stops at the first contact that finds no room, where the program writes behind the buffer. A failed query for a nickname leaves the length field unset in the program; here a user is known or not.
- ClientLists.ClientUser.ReadContactInfo: a contact that cannot be read changes nothing; the program writes in front of the nickname if its length is 0, and behind it if it is more than 32.
- ClientLists.ClientUser.ReadContactInfoMulti: stops at such a contact; ContactsRoundTrip says when a server's packet has none.
- HashRuns.Run: an element inserted is not in the table already, and an element removed is, as every caller sees to.
- HashSort.SortCorrect: the comparator sees the key and the online status of an element only.
- The user interface of the client, its requests and replies, registration, logging, and the contact tables of the friend module.
