# libixp in Dafny

libixp is a client and server library for the 9P2000 file protocol (Plan 9
Programmer's Manual, section 5). This project models its five cores and proves what
they promise:

- **The client rpc multiplexer** (`rpc.c`). `Mux` is a step system whose steps are the
  regions that hold the connection lock; a run is an interleaving of any number of
  `muxrpc` callers, with spurious wakeups. `TagTable` and `SleepQueue` are its tag array
  and its linked sleep queue, updated in place.
- **The server connection** (`request.c`, `map.c`). `Server` gives each operation as a
  function on a connection value, where undefined behaviour (a failed assert, a freed
  fid, endless recursion) is `None`; `ServerConn` is the same code in place, proved to
  compute those functions over two chained hash tables (`HashMap`); `ServerInvariant`,
  `ServerRuns`, `ServerSync`, `ServerAccess`, `ServerFlush`, `ServerTeardown`, `ServerHangup`
  and `ServerFids` say what they keep and do, and `ServerReplies` lists every reply.
- **Server utilities** (`srv_util.c`). `FilePool` has the reference-counted path chains
  with shared tails, `Pending` the event broadcaster, `ReadDir` the directory reads.
- **Wire codec and framing** (`convert.c`, `message.c`, `transport.c`). `Wire` and
  `Messages` say what bytes a message is, `Layout` compares them with the manual's list;
  `Convert`, `ConvertArrays` and `Codec` pack and unpack them in a real buffer;
  `Transport` moves them over a stream.
- **Client fids and chunked transfers** (`client.c`). `ClientFids` is the client's fid
  allocator; `ClientRuns` runs it against the server of `Server`, with any number of
  calls under way at once, and `ClientOverlap` is such a run; `ChunkedIO` runs the read and write loops against the
  server's file buffers; `Iounit` ties the granted transfer size to the wire.

## Conditions

What the results assume, because the code itself needs it:

- Multiplexer: `async` is false (`initrpc` never sets it), allocation succeeds, and a
  send succeeds; what a failed send does is `MuxSendFailure`.
- Server: each handler answers each live request once. A hangup happens between
  requests. `HangupWorksIff` takes a client that uses fresh tags and not NOTAG, and has
  the exact condition: every waiting request that drops a fid still has it, no two drop
  the same one, and every chain of flushes ends. `SharedDropRun` and `NotagRun` are runs
  that fail.
- Client and server together (`ClientRuns`): the runs whose every server step has a
  result; handlers fail with errors of their own, never with "fid in use".
- Codec: strings have no NUL and at most 65535 bytes, names and qids come in sixteens
  at most, numbers fit their fields: `RoundIff` says that exactly these messages survive.
  The size of a stat is right as long as it is at most 65535 (`SizeofExact`). The outer size of a packed TWStat is an uninitialised local in the source and is
  an arbitrary value here (`junk`); unpacking ignores it.
- Streams: a script of short transfers and interrupts, any of them, but finitely many
  interrupts; buffers hold at least the four length bytes.
- Pending files: at most one waiting read per fid (`WriteEndsIff` says why).
- Client transfers: a message size above 24 (`ReadEndsIff` says why).

Where code and documentation disagree, the code is followed: `ixp_pending_clunk` returns
true when no fid is left, not when some are; `ixp_srv_writebuf` cuts the file at the end
of the write; "the position is advanced" by a packer that runs out of room means that it
is set one past the end.

## Model

| member | source | states |
|---|---|---|
| `TagTable.ScanFinds` | lib/libixp/rpc.c:234-244 | if fewer slots are counted than exist, the wrap-around scan from the hint ends on a free slot |
| `TagTable.GrowOk` | lib/libixp/rpc.c:215-230 | doubling keeps the table's invariant, keeps every slot and adds free ones |
| `TagTable.GetTagTotal` | lib/libixp/rpc.c:207-252 | whenever gettag does not sleep, the scan finds a free slot, so abort is unreachable; the table never passes 256 slots, so after the mount no tag is NOTAG |
| `TagTable.PutTagOk` | lib/libixp/rpc.c:254-266 | giving a held tag back keeps the invariant: the count is the number of full slots and the hint is in range |
| `TagTable.BlockedWhenFull` | lib/libixp/rpc.c:213-232 | a caller sleeps for a tag exactly when the one tag of the mount, or all 256, are out |
| `TagTable.LastBackFirstOut` | lib/libixp/rpc.c:234-266 | the tag given back last is the next one handed out |
| `TagTable.FirstNewTag` | lib/libixp/rpc.c:215-230 | a full table that may grow doubles and hands out its first new tag |
| `TagTable.Table.GetTag` | lib/libixp/rpc.c:207-252 | the array loop blocks exactly when the table is full and may not grow, and otherwise takes the slot of the scan |
| `TagTable.Table.Extend` | lib/libixp/rpc.c:216-229 | reallocating and clearing gives the grown table |
| `TagTable.Table.PutTag` | lib/libixp/rpc.c:254-266 | clears the slot, counts down and moves the hint, in place |
| `MuxInvariant.DispatchExact` | lib/libixp/rpc.c:106-131 | a message goes to the live unanswered caller with its tag and to nobody else; without one nothing changes |
| `MuxInvariant.StepInv` | lib/libixp/rpc.c:133-187 | every locked region of every caller keeps the invariant of tags, queue, muxer, sleepers, replies and tag waiters |
| `MuxInvariant.RunInv` | lib/libixp/rpc.c:149-187 | the invariant holds after every run |
| `MuxInvariant.EveryInterleaving` | lib/libixp/rpc.c:133-187 | in every interleaving at most one caller receives and it is the muxer; an elected muxer is queued without a reply; with no muxer no caller sleeps without its reply; an unsignalled sleeper always has another caller as muxer |
| `MuxInvariant.TagsInEveryRun` | lib/libixp/rpc.c:207-266 | outstanding tags are distinct, the count is the number of full slots, and after the mount tags are below 256 |
| `MuxInvariant.AnyoneMayStep` | lib/libixp/rpc.c:149-187 | the runs leave nobody out: any caller may start, any sleeper wake, signalled or not, any receiver read anything or fail |
| `MuxRuns.StepSettles` | lib/libixp/rpc.c:119-127 | a reply appears only by a receive that carried it under the caller's tag, never changes, and a returned caller never moves |
| `MuxRuns.RunSettles` | lib/libixp/rpc.c:149-187 | the same over every run: each caller's reply is set at most once |
| `MuxRuns.DeliveredOrDropped` | lib/libixp/rpc.c:106-131 | in every reachable state a message is delivered to exactly the outstanding caller with its tag, or dropped; a second reply for an answered tag is dropped |
| `MuxRuns.HonestDelivery` | lib/libixp/rpc.c:149-187 | against a peer each of whose messages answers, under its tag, a request that was sent and not answered before, every returned muxrpc has the answer to its own request |
| `MuxEof.NotStranded` | lib/libixp/rpc.c:159-180 | while a caller has not returned, some caller is in muxrecv or can move without a spurious wakeup, and moving changes the state |
| `MuxEof.EofRank` | lib/libixp/rpc.c:171-187 | after the stream ends every step either changes nothing or lowers the rank |
| `MuxEof.DrainBounded` | lib/libixp/rpc.c:133-187 | any draining run is at most as long as the rank and keeps every caller's outcome |
| `MuxEof.DrainComplete` | lib/libixp/rpc.c:133-187 | a draining run that cannot go on has made every caller return, the unanswered ones nil, with an empty queue, no tags out and no muxer |
| `MuxEof.DrainExists` | lib/libixp/rpc.c:133-187 | from every state the invariant allows some run drains |
| `MuxSendFailure.SendFailureSoundIff` | lib/libixp/rpc.c:74-81 | the error branch of sendrpc works and keeps the invariant if and only if the rpc had not been elected and no reply to it has arrived |
| `MuxSendFailure.SendFailureStrands` | lib/libixp/rpc.c:74-81 | if it had been elected: in every continuation nobody ever receives again, and no caller without a reply, nor any later one, returns |
| `MuxSendFailure.ElectedWhileSending` | lib/libixp/rpc.c:54-84 | a run from the mount on that reaches such a state |
| `SleepQueue.Queue.Enqueue` | lib/libixp/rpc.c:189-196 | the four pointer writes put the rpc at the front of the circular list |
| `SleepQueue.Queue.Unlink` | lib/libixp/rpc.c:198-205 | the two writes around a linked rpc give the list without it |
| `SleepQueue.Queue.Dequeue` | lib/libixp/rpc.c:198-205 | the list without the rpc, whose own links are nil |
| `SleepQueue.Client.Register` | lib/libixp/rpc.c:62-71 | takes the tag of the scan and joins the front of the queue, or blocks without a change |
| `SleepQueue.StartedAs` | lib/libixp/rpc.c:62-71 | the step system takes the tag and the place in the queue that the linked list gets |
| `SleepQueue.Client.Dispatch` | lib/libixp/rpc.c:106-131 | on the linked list and the array: exactly the rpc named by the step system's target gets the message and leaves the queue |
| `SleepQueue.Client.ElectMuxer` | lib/libixp/rpc.c:133-147 | the first queued rpc becomes muxer, none when the queue is empty |
| `HashMap.StopSound` | lib/libixp/map.c:28-45 | stopping at the first key not below the target decides membership |
| `HashMap.ChainInsert` | lib/libixp/map.c:17-45 | splicing in at the stop keeps the chain ascending, correctly hashed and complete |
| `HashMap.ChainRemove` | lib/libixp/map.c:113-131 | splicing out keeps it so |
| `HashMap.IxpMap.GetP` | lib/libixp/map.c:28-45 | the slot is the stop in the key's chain, or the shared not-found cell exactly when the key is absent and none is made |
| `HashMap.IxpMap.Insert` | lib/libixp/map.c:85-99 | the plain map updated, or false and no change for an existing key without overwrite |
| `HashMap.IxpMap.Get` | lib/libixp/map.c:101-111 | the plain map's value |
| `HashMap.IxpMap.Remove` | lib/libixp/map.c:113-131 | the plain map without the key, and its value; the store goes through the slot, which may be the shared not-found cell, and that cell stays nil |
| `HashMap.IxpMap.Exec` | lib/libixp/map.c:64-74 | visits every entry of the plain map exactly once, by bucket and then by key |
| `HashMap.Run` | lib/libixp/map.c:85-131 | every sequence of inserts, lookups and removals returns what a plain map returns, for any number of buckets |
| `ServerInvariant.RespondInv` | lib/libixp/request.c:378-502 | answering a request, with all the answers a flush recurses into, keeps the connection's invariant |
| `ServerInvariant.CreateFidInv` | lib/libixp/request.c:89-104 | a new fid is counted and in the table, and for a fid in use the connection is as it was |
| `ServerInvariant.ApplyInv` | lib/libixp/request.c:122-564 | so does every event: request, answer, hangup, each step of the cleanup |
| `ServerInvariant.RunInv` | lib/libixp/request.c:122-564 | and every run; what was sent stays sent |
| `ServerInvariant.ReferencesInEveryRun` | lib/libixp/request.c:67-120 | in every run the count is one while connected plus the fids plus the unanswered requests; the connection is freed at most once, exactly when nothing is left, only after the hangup, and nothing can happen afterwards |
| `ServerInvariant.AnsweredOnce` | lib/libixp/request.c:466-502 | in every run no request is answered twice, an answered one is not live, and the tag table names live requests under their own tags |
| `ServerSync.FidTableExact` | lib/libixp/request.c:187-455 | with handlers that answer at once every request but a Tflush of its own tag gets exactly one reply, and the fid table is the one deduced from request and reply; "fid in use" is sent exactly for collisions |
| `ServerSync.SelfFlushDiverges` | lib/libixp/request.c:456-458 | a Tflush of its own tag is never answered: the recursion has no end |
| `ServerAccess.HandlersSeeOpened` | lib/libixp/request.c:217-361 | in every run a Tread reaches its handler exactly if the last answered open or create of that very fid opened it and not for writing only, a Twrite exactly if that mode says write, a Twalk or Tcreate only if there is none |
| `ServerAccess.GrantedEarlier` | lib/libixp/request.c:414-430 | and that open or create was answered without an error earlier in the run |
| `ServerAccess.OpenGoverns` | lib/libixp/request.c:414-430 | an answered open or create decides later reads, writes, walks and creates on that fid by its mode, and touches no other fid; mode 255 leaves the fid unopened |
| `ServerAccess.WalkGoverns` | lib/libixp/request.c:431-444 | an answered complete walk leaves its target unopened with the right qid, so that it can be walked on, and its source as it was |
| `ServerFlush.PathAnswered` | lib/libixp/request.c:456-502 | a chain of flushes is answered whole, deepest first, all but the first with "interrupted" |
| `ServerFlush.RespondDefinedIff` | lib/libixp/request.c:378-458 | ixp_respond comes back if and only if the flushes named from the request form a finite chain without repetition whose last request can be settled |
| `ServerFlush.FlushOrder` | lib/libixp/request.c:206-216 | in every run, when a Tflush is answered while its target lives, the target's "interrupted" leaves right before the flush's reply, the handler's error or success; both and the tag are gone, and no continuation sends anything for either |
| `ServerFlush.RefusedFlushOrder` | lib/libixp/request.c:147-148 | the same when the server answers the Tflush itself, for a tag in use or without a flush handler |
| `ServerFlush.GrantExact` | lib/libixp/request.c:414-430 | in every run an answered open or create grants the receive size minus 24, at least 1 |
| `ServerFlush.SizesInEveryRun` | lib/libixp/request.c:390-406 | in every run both buffers have the same size, between 25 and 8192 |
| `ServerRuns.RunCalm` | lib/libixp/request.c:378-406 | without a new Tversion the message sizes never change, and no Tversion is ever left waiting |
| `ServerRuns.RunOrderly` | lib/libixp/request.c:122-160 | with fresh tags every waiting request is found under its tag, in every run |
| `ServerHangup.HangupWorksIff` | lib/libixp/request.c:504-564 | after every run with fresh tags: the hangup comes to its end if and only if every waiting request that drops a fid still has it, no two drop the same and every flush chain ends; then flushes ran before clunks, both maps are empty, no request is left, and the connection is freed once |
| `ServerHangup.SharedDropRun` | lib/libixp/request.c:448-455 | a run that ends in a hangup reading a freed fid: attach, then a Tclunk and a Tremove of that fid both wait |
| `ServerHangup.NotagForgotten` | lib/libixp/request.c:504-523 | a waiting request tagged NOTAG that the first synthesised flush does not interrupt is never answered, and the connection is never freed |
| `ServerHangup.NotagRun` | lib/libixp/request.c:504-564 | a run that ends in such a hangup |
| `ServerFids.ArriveFids` | lib/libixp/request.c:187-361 | a request on fids that arrives under a fresh tag waits with its fids in the table, or is answered at once and the table is what the reply says |
| `ServerFids.AnswerFids` | lib/libixp/request.c:431-455 | an answer takes out of the table exactly what its reply says, before the reply is sent |
| `ServerReplies.AnsweredAtOnce` | lib/libixp/request.c:162-363 | a request under a fresh tag is left to its handler in silence exactly if no complaint applies, and else gets the string of the first complaint as its only reply |
| `ServerReplies.DuplicateTag` | lib/libixp/request.c:147-149 | under a tag in use the only reply is "tag in use" |
| `ServerReplies.FlushOfNothing` | lib/libixp/request.c:206-210 | a Tflush of a tag that nothing has gets "tag does not exist" |
| `ServerReplies.VersionAnswered` | lib/libixp/request.c:390-406 | in every run a Tversion with a size of at least 25 is answered with the smaller of it and 8192, which both buffers then have, and with "9P", "9P2000" or "unknown"; a smaller size is not taken |
| `ServerReplies.SizesBefore` | lib/libixp/request.c:600-603 | before the first Tversion both buffers have 1024 bytes |
| `ServerReplies.AnsweredExact` | lib/libixp/request.c:378-502 | in every run an answered request other than a Tflush gets exactly one reply, and it and every field of the fid table are the ones listed for request and answer |
| `ServerReplies.HandlersFree` | lib/libixp/request.c:378-382 | the runs leave nothing out: any request a handler has may be answered next, with anything, and its fid given any qid before |
| `ServerConn.Ixp9Conn.DestroyRef` | lib/libixp/request.c:106-120 | the entry is unlinked from the chained table and its reference is gone |
| `ServerConn.Ixp9Conn.Settle` | lib/libixp/request.c:384-464 | the switch of ixp_respond in place computes the value-level result and reply |
| `ServerConn.Ixp9Conn.Finish` | lib/libixp/request.c:466-502 | tag forgotten, reply sent if connected, request freed, reference dropped |
| `ServerConn.Ixp9Conn.Respond` | lib/libixp/request.c:378-502 | the recursive, mutating ixp_respond computes the value-level function |
| `ServerConn.Ixp9Conn.HandleWalk` | lib/libixp/request.c:294-314 | the TWalk case in place: refused, or a new fid made and the walk handed on |
| `ServerConn.Ixp9Conn.HandleOnFid` | lib/libixp/request.c:195-361 | on a known fid: refused with that error, answered at once, or handed to the handler |
| `ServerConn.Ixp9Conn.HandleReq` | lib/libixp/request.c:162-363 | the whole switch of handlereq |
| `ServerConn.Ixp9Conn.HandleFcall` | lib/libixp/request.c:140-153 | a new counted request, refused when its tag is in use |
| `ServerConn.Ixp9Conn.HangUp` | lib/libixp/request.c:546-557 | running through both tables visits every entry once, and the list built is the value-level one for those orders |
| `ServerConn.Ixp9Conn.CleanNext` | lib/libixp/request.c:558-562 | one turn of its loop |
| `FilePool.Pool.GetFile` | lib/libixp/srv_util.c:51-74 | a node no chain passes through, counted once, off the free list; a new block of 15 exactly when the list was empty |
| `FilePool.Pool.AddBlock` | lib/libixp/srv_util.c:57-65 | 15 more nodes, all free, nothing else changed |
| `FilePool.Pool.FreeFile` | lib/libixp/srv_util.c:107-114 | one owner fewer for the node; on the free list exactly when it was the last |
| `FilePool.Pool.ReleaseAll` | lib/libixp/srv_util.c:633-636 | the loop lets go of a whole chain and leaves all other chains and paths alone |
| `FilePool.Pool.BumpTail` | lib/libixp/srv_util.c:133-136 | exactly the nodes of the tail gain a reference |
| `FilePool.Pool.CloneFiles` | lib/libixp/srv_util.c:125-138 | a fresh first node over the shared tail: a second owner of the same path |
| `FilePool.Pool.PushFile` | lib/libixp/srv_util.c:623-625 | a looked-up node in front of the walk's chain |
| `FilePool.Pool.WalkUp` | lib/libixp/srv_util.c:611-616 | ".." releases the first node and leaves the path without its first name, and the root stays |
| `FilePool.Pool.WalkDown` | lib/libixp/srv_util.c:617-626 | a found name gives the path with that name in front |
| `FilePool.Pool.WalkStay` | lib/libixp/srv_util.c:617-626 | "." keeps the path and abandons the node looked up for it |
| `FilePool.WalkedDown` | lib/libixp/srv_util.c:617-626 | walking names down works exactly if each is found where the ones before lead, and puts them in front, last first |
| `FilePool.WalkedUp` | lib/libixp/srv_util.c:611-616 | k times ".." takes off the first k names, but never the root |
| `FilePool.ThereAndBack` | lib/libixp/srv_util.c:609-629 | names that are found, then as many "..", lead back to where the walk began |
| `FilePool.OneUp` | lib/libixp/srv_util.c:609-629 | a name and ".." lead back, ".." from the root leads to the root, "." stays if it is found |
| `FilePool.Pool.WalkNames` | lib/libixp/srv_util.c:609-629 | the loop reaches the path that walking plain paths reaches, or stops at the first name not found; every "." found abandons one node |
| `FilePool.Pool.EndWalk` | lib/libixp/srv_util.c:630-651 | a failed walk undoes everything, an in-place walk replaces the fid's chain, another walk gives the new fid its chain |
| `FilePool.Pool.WalkAndClone` | lib/libixp/srv_util.c:605-652 | the whole walk: every other fid's path is kept, the fid walked to has the path the names lead to, and right counts stay right if and only if no "." was found before the first failing name |
| `FilePool.Pool.LiveNotFree` | lib/libixp/srv_util.c:51-138 | no node reachable from an owner is free |
| `FilePool.RightIffNothingLeaked` | lib/libixp/srv_util.c:107-138 | each count is the number of fids through the node if and only if no node was abandoned, and never less |
| `FilePool.PlainExact` | lib/libixp/srv_util.c:637-651 | what an attach, a walk in place, a walk to a new fid and a clunk mean for each fid's path |
| `FilePool.Serve` | lib/libixp/srv_util.c:605-652 | after any sequence of attaches, walks and clunks, each walk over the files of its time, the chains spell the paths plain paths give and no node on a live path is free; each count is exactly the number of fids through the node if and only if no walk found a "." |
| `FilePool.DotWalk` | lib/libixp/srv_util.c:617-626 | a walk over "." after which the counts are wrong |
| `Pending.DrainEndsIff` | lib/libixp/srv_util.c:399-400 | the drain loop ends if and only if no fid has more detached reads than queued blocks, and then takes one turn per read |
| `Pending.WriteEndsIff` | lib/libixp/srv_util.c:361-401 | a write comes back if and only if it is empty or at most one read waits per fid |
| `Pending.SecondReadHangs` | lib/libixp/srv_util.c:350-358 | a second read for a fid is accepted and the next nonempty write never returns |
| `Pending.DrainExact` | lib/libixp/srv_util.c:399-400 | draining gives each read its fid's oldest block, in the order of the reads |
| `Pending.WriteExact` | lib/libixp/srv_util.c:361-401 | a nonempty write answers every waiting read with that block and queues it for exactly the other fids |
| `Pending.ClunkInterrupts` | lib/libixp/srv_util.c:484-491 | a clunk sends "interrupted" for exactly the fid's waiting reads, in the order of their positions, and nothing else |
| `Pending.ClunkKeeps` | lib/libixp/srv_util.c:472-507 | exactly the other reads go on waiting, in their order, and only the fid's queue is dropped |
| `Pending.ApplyInv` | lib/libixp/srv_util.c:327-507 | push, read, write, flush and clunk keep the broadcast invariant |
| `Pending.BroadcastInEveryRun` | lib/libixp/srv_util.c:327-507 | in every run and for every open fid, delivered blocks then queued blocks are the blocks written since it was pushed, in order; a fid with a waiting read has nothing queued; the next write ends |
| `Pending.EveryReadOnce` | lib/libixp/srv_util.c:327-507 | in every run every read taken got exactly one reply under its tag and fid, or was flushed, or still waits, once |
| `Pending.EnabledExact` | lib/libixp/srv_util.c:327-507 | a push or a read is taken exactly when it keeps the invariant, a write always, flushes and clunks of all there is |
| `Pending.RunGrows` | lib/libixp/srv_util.c:327-507 | runs go on with any event that is enabled |
| `Pending.FlushKeepsData` | lib/libixp/srv_util.c:450-470 | after a flush the next block goes to the fid's next reader |
| `Pending.PendingFile.Push` | lib/libixp/srv_util.c:426-448 | the fid joins with an empty queue |
| `Pending.PendingFile.TakeRead` | lib/libixp/srv_util.c:327-359 | the same for a new read, keeping the invariant |
| `Pending.PendingFile.QueueAll` | lib/libixp/srv_util.c:377-385 | the first loop appends the block to every queue |
| `Pending.PendingFile.Broadcast` | lib/libixp/srv_util.c:361-401 | both loops of ixp_pending_write, ending, compute the value-level write |
| `Pending.PendingFile.Unlink` | lib/libixp/srv_util.c:450-470 | the flushed read no longer waits |
| `Pending.PendingFile.Close` | lib/libixp/srv_util.c:472-507 | the fid's reads are interrupted in order, its queue is dropped, and the result is true exactly when no fid is left |
| `ReadDir.SizeofExact` | lib/libixp/message.c:127-139 | ixp_sizeof_stat is the number of bytes ixp_pstat writes exactly as long as that is at most 65535 |
| `ReadDir.Read` | lib/libixp/srv_util.c:564-603 | the reply is the whole records from the offset on that fit, packed without overflow |
| `ReadDir.DirExact` | lib/libixp/srv_util.c:577-591 | a read at any offset starts with the first record that begins there or later and takes as many as fit |
| `ReadDir.FitExact` | lib/libixp/srv_util.c:581-586 | as many records fit as have together no more bytes than asked for |
| `ReadDir.WholeRecords` | lib/libixp/srv_util.c:577-591 | reads of any sizes, each where the last ended, give whole records, each once and in order |
| `ReadDir.WholeDirectoryIff` | lib/libixp/srv_util.c:564-603 | reads of one size give the whole directory but its first entry if and only if every packed entry fits the size |
| `ReadDir.DirectoryRound` | lib/libixp/convert.c:306-325 | unpacking the bytes of a directory gives its stats |
| `Wire.FieldRound` | lib/libixp/convert.c:31-304 | for every kind of field, unpacking what was packed gives the value and its length, whatever follows |
| `Wire.AllRound` | lib/libixp/message.c:141-233 | the same for a list of fields |
| `Wire.PrefixRejected` | lib/libixp/convert.c:18-29 | no strict prefix of packed fields can be unpacked |
| `Messages.BodyFaithful` | lib/libixp/message.c:141-233 | for every message type the fields packed have the kinds unpacked, fit them, and give the message back |
| `Layout.EncodesManual` | lib/libixp/message.c:141-271 | every packed message is, byte for byte, the size, type number, tag and parameters that intro(5) and stat(5) list, written out independently of the codec's tables |
| `Layout.LittleEndian` | lib/libixp/convert.c:31-68 | numbers of one, two, four and eight bytes are little-endian |
| `Messages.MessageRound` | lib/libixp/message.c:249-285 | unpacking a packed message of any type gives it back with its exact length |
| `Messages.DecodedOk` | lib/libixp/message.c:273-285 | whatever bytes come in, an unpacked message is well-formed: widths, strings without NUL, at most sixteen names or qids |
| `Messages.RoundIff` | lib/libixp/message.c:249-285 | a message survives packing and unpacking if and only if it is well-formed |
| `Messages.NamesRound` | lib/libixp/message.c:175-179 | every Twalk of up to 16 names comes through |
| `Messages.QidsReplyRound` | lib/libixp/message.c:180-182 | every Rwalk of up to 16 qids comes through |
| `Messages.SeventeenRejected` | lib/libixp/convert.c:186-231 | a count of 17 or more names or qids is rejected |
| `Messages.TruncatedRejected` | lib/libixp/message.c:273-285 | every strict prefix of a packed message is rejected |
| `Convert.Msg.Skip` | lib/libixp/convert.c:23-29 | moves on, or to one past the end |
| `Convert.Msg.StoreInt` | lib/libixp/convert.c:39-51 | the packing switch writes the little-endian bytes and no others |
| `Convert.Msg.LoadInt` | lib/libixp/convert.c:52-65 | the unpacking switch reads the little-endian number |
| `Convert.Msg.PUint` | lib/libixp/convert.c:31-68 | packs or unpacks in place, or sticks one past the end without writing beyond it |
| `Convert.Msg.PU64` | lib/libixp/convert.c:110-119 | two words are the eight bytes |
| `Convert.Msg.PData` | lib/libixp/convert.c:250-260 | raw bytes in or out |
| `Convert.Msg.PString` | lib/libixp/convert.c:141-160 | a length word and the characters, in or out |
| `ConvertArrays.PQid` | lib/libixp/convert.c:283-288 | thirteen bytes in or out |
| `ConvertArrays.PQids` | lib/libixp/convert.c:290-304 | a counted array of qids, refused above the maximum |
| `ConvertArrays.HopsDecode` | lib/libixp/convert.c:201-231 | hopping from length word to length word finds the strings that decoding one after the other gives |
| `ConvertArrays.MeasureTexts` | lib/libixp/convert.c:202-211 | the first pass decides whether all strings lie before the end and adds up their lengths |
| `ConvertArrays.CopyRoom` | lib/libixp/convert.c:217-230 | the second pass needs no checks: after the first one, every string lies before the end and has room in the buffer with its NUL |
| `ConvertArrays.CopyTexts` | lib/libixp/convert.c:217-230 | the second pass copies exactly the strings |
| `ConvertArrays.PStrings` | lib/libixp/convert.c:186-231 | both passes unpack what one-by-one decoding gives; packing writes the count and the strings |
| `Codec.PFields` | lib/libixp/message.c:141-233 | a sequence of fields in or out; once one does not fit none that follows does |
| `Codec.PFcall` | lib/libixp/message.c:141-233 | type, tag and the fields of the type, in or out |
| `Codec.PackStat` | lib/libixp/convert.c:306-325 | a stat's record in place |
| `Codec.UnpackStat` | lib/libixp/convert.c:306-325 | a stat read back |
| `Codec.Fcall2Msg` | lib/libixp/message.c:249-271 | packing succeeds if and only if the encoding fits the buffer; then the buffer holds exactly it and the result is its length |
| `Codec.Msg2Fcall` | lib/libixp/message.c:273-285 | 0 if and only if the bytes up to the end decode to nothing, else the message and the bytes it took |
| `Transport.MRead` | lib/libixp/transport.c:15-31 | one read of at most count bytes at the position |
| `Transport.ReadN` | lib/libixp/transport.c:33-50 | retries interrupts; the bytes that came are the front of the stream, all asked for unless the stream ended or failed |
| `Transport.SendMsg` | lib/libixp/transport.c:73-89 | nonzero only if everything was written, and always a prefix of it |
| `Transport.RecvMsg` | lib/libixp/transport.c:91-121 | succeeds exactly when a whole frame that fits is there, and takes that frame and no byte more |
| `Transport.FrameExact` | lib/libixp/transport.c:91-121 | a frame is there exactly when its little-endian length counts at least itself, fits the buffer and has come in full |
| `Transport.FrameRound` | lib/libixp/transport.c:91-121 | a packed message at the front of a stream is its first frame and decodes to itself |
| `Transport.FrameIff` | lib/libixp/transport.c:91-121 | exactly the well-formed messages that fit the receiver's buffer get through |
| `Transport.StreamRound` | lib/libixp/transport.c:91-121 | receiving from a stream of packed messages gives exactly them, in order, and leaves what follows |
| `Transport.ReceiveAll` | lib/libixp/request.c:130-134 | successive receives in place give what the stream says, for every script of short reads and interrupts |
| `Transport.SendAll` | lib/libixp/request.c:484-490 | sending messages in place puts their encodings on the wire, for every script |
| `Transport.Pipe` | lib/libixp/transport.c:73-121 | both ends together: the receiver gets exactly the sender's messages |
| `ClientFids.GetFidOk` | lib/libixp/client.c:28-46 | the fid handed out is one nobody holds, and used and free fids still partition the numbers above the root's |
| `ClientFids.PutFidOk` | lib/libixp/client.c:48-63 | so do they after a fid is given back |
| `ClientFids.BackAndForth` | lib/libixp/client.c:28-63 | the fid given back last is handed out next, unless it was the last number, by which the numbers shrink |
| `ClientFids.Client.Get` | lib/libixp/client.c:28-46 | the same in place |
| `ClientFids.Client.Put` | lib/libixp/client.c:48-63 | the same in place |
| `ClientRuns.MountSound` | lib/libixp/client.c:148-200 | after a mount that succeeds, client and server agree on the root alone |
| `ClientRuns.NextSound` | lib/libixp/client.c:65-83 | every step of any thread, of the wire and of the server keeps client and server in agreement, with any number of calls, handlers and replies under way |
| `ClientRuns.NeverInUse` | lib/libixp/client.c:227-428 | in every such run no reply is "fid in use"; until a thread sees the connection fail the server's fids are the root and fids handed out, all that their owners may use among them, and exactly those whenever no call is under way |
| `ClientRuns.RepliesToSenders` | lib/libixp/client.c:65-83 | in every such run the tag of the next reply is held by exactly one waiting call, the one whose request it answers |
| `ClientRuns.CallsComeBack` | lib/libixp/client.c:242-331 | what becomes of the fid when a walk, Tclunk or Tremove is back: usable, given back, or lost |
| `ClientRuns.LeakedForEver` | lib/libixp/client.c:285-299 | in every run a fid whose Tclunk failed is never given back and never handed out again |
| `ClientRuns.ThreadsFree` | lib/libixp/client.c:65-83 | the runs leave nothing out: while the connection lasts any fid may be walked to, used or closed as its phase allows, whatever is under way |
| `ClientOverlap.Overlap` | lib/libixp/client.c:227-261 | a run with two walks at the server at once, answered in the other order, the failed one's fid reused meanwhile |
| `ChunkedIO.ReadSplit` | lib/libixp/srv_util.c:162-174 | reading more is reading on |
| `ChunkedIO.ReadExact` | lib/libixp/srv_util.c:162-174 | a read gives the bytes from the offset on, as many as asked for or all there are |
| `ChunkedIO.WriteExact` | lib/libixp/srv_util.c:176-215 | a write byte for byte: refused past 32 bits, past the end, when empty or too big; else what the bound leaves room for replaces everything from its start on |
| `ChunkedIO.PRead` | lib/libixp/client.c:510-539 | for every positive iounit the buffer gets what one unbounded read gives, and nothing beyond it changes |
| `ChunkedIO.ReadEndsIff` | lib/libixp/client.c:510-539 | the read loop ends if and only if the iounit is positive or nothing is asked for |
| `ChunkedIO.ChunkedWriteIff` | lib/libixp/client.c:585-609 | the chunked write leaves the contents and count of one large write if and only if no 32-bit limit falls between its chunks |
| `ChunkedIO.UnboundedWrite` | lib/libixp/srv_util.c:176-215 | one write leaves the prefix up to the offset, or all of an append file, followed by the data |
| `ChunkedIO.File.Write` | lib/libixp/srv_util.c:176-215 | ixp_srv_writebuf in place, with its limits |
| `ChunkedIO.PWrite` | lib/libixp/client.c:585-609 | the loop computes the chunked write, and the one large write when the split is safe |
| `ChunkedIO.WriteThenRead` | lib/libixp/client.c:510-609 | a client's write, taken in full, is read back by a client's read, whatever the two iounits |
| `Iounit.WriteLength` | lib/libixp/message.c:207-212 | a packed Twrite is 23 bytes longer than its data |
| `Iounit.ReadLength` | lib/libixp/message.c:203-206 | a packed Rread is 11 bytes longer than its data |
| `Iounit.InitFidExact` | lib/libixp/client.c:333-341 | the client's iounit is the grant where it leaves room for a header, else the message size minus 24 |
| `Iounit.IounitFits` | lib/libixp/client.c:333-341 | for a fid opened at any point of any run, every Twrite or Rread of at most iounit bytes fits the server's buffers up to the next Tversion |

## Left out

- `socket.c`, `error.c`, `util.c`, `server.c`, `thread.c` and the thread backends: operating system calls; mutual exclusion and possible spurious wakeups are assumed of them.
- `timer.c`: its list is kept latest first while only the head is tested, so the documented meaning of the next timer does not follow from the code.
- `cmd/`, `examples/`, `test/`: front ends and host file access.
- Handlers and lookup functions: abstract; a handler answers with any error or success and may set the qid of its request's fid at any time before, a lookup is any predicate on paths.
- Freeing of strings and messages, allocation failure, and `ixp_srv_freefilepool`: only reference counts decide lifetimes here.
- `ixp_srv_verifyfile`, `ixp_srv_writectl`, `ixp_srv_data2cstring`, `ixp_pending_print`: no other part of the model calls them, and they keep no state of their own.
- Pointers: chains of the hash table and of pending files are sequences, so that a slot is a position in one or the shared not-found cell; a fid is changed in its table entry, not through a pointer to it; pool nodes and requests are named by number. The rpc sleep queue is the one list modelled with its links.
- TAuth in the server: it is refused like any unknown type.
- A send that fails inside `ixp_respond` and hangs up at once: the hangup is a separate event.
- The qids of a walk's reply in `FilePool`: only the path is followed.
- Transport.RecvMsg: takes a buffer of at least four bytes; below that the retry depends on a stale errno.
- ReadDir.Read: takes stats of at most 65535 packed bytes; above that ixp_sizeof_stat wraps around.
- ChunkedIO.File.Write: takes file lengths below 2^32 - 1, where the source's unsigned bound does not wrap around.
- ChunkedIO.PRead: a transport error in the middle of a transfer, which makes the source return -1, is not modelled.
- ClientFids.Client.Get: does not model the wrap-around of the 32-bit fid counter.
