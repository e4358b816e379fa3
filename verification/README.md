# Key-value store over TCP and RDMA: a verified model

This project models the core of the key-value store and proves what its parts promise:

* the remotely readable hash table: `RdmaStore` with its server side (`set`, `get`, `erase`) and its
  client side (`one_sided_get`, `one_sided_set`), which probe the same slots from another machine;
* the coroutine event loop and the TCP server built on it;
* the two-sided RDMA request/response exchange;
* the text protocol all of them speak.

`dafny verify dfyconfig.toml` checks everything.

## How it is built

| files | what they model |
|---|---|
| `Bits`, `Fnv` | the mask as a modulus, 32-bit FNV-1a, the shipped 4096-slot layout |
| `CText`, `SlotLayout` | NUL-terminated texts in fixed fields, the two byte-level key tests, the 1024-byte slot |
| `ProbeTable`, `TableOps`, `TableRuns`, `FullTable` | linear probing with tombstones over cells, the operations against a plain map, sequential histories, tables without empty slots |
| `RdmaStore`, `RemoteClient`, `Preload` | the same operations as loops over a slot array that is written in place |
| `RemoteRuns`, `RemoteAtomicity`, `RemoteVerdicts`, `RemoteCounters` | a transition system of single-slot READs, WRITEs, fetch-and-adds and server mutations, with any number of readers |
| `TextProtocol`, `Commands`, `Dispatch`, `LineIo`, `Framing` | parsing and printing, the parser by the spelling of its commands, executing requests, the client's line I/O, lines in a byte stream |
| `EventLoop`, `Scheduling` | the loop object, and the places a coroutine frame can be in |
| `TcpServer`, `TcpPlaces`, `TcpStreams`, `TcpReplay`, `TcpTheorems`, `TcpEndOfFile`, `TcpLifetime`, `TcpCourse`, `Connection` | the whole TCP server as a transition system with an adversarial kernel, its theorems, its scheduler as a refinement of the loop object, and the connection coroutine as loops that refine it |
| `TwoSided`, `TwoSidedRuns`, `TwoSidedAnswers`, `TwoSidedTheorems`, `TwoSidedProgress`, `RdmaContext` | client, server and channel as a product of state machines, its theorems, and the context object as loops over its buffers |

Operations are specified by functions on values; the classes' loops are proved equal to these
functions, and the properties are proved about the functions. A transition system is a state, a
step datatype, `Enabled` and `Apply`; a run is a sequence of states from `Initial` in which each
follows from the one before by an enabled step. Fields of a state that record history (`log`,
`received`, `sent`, `asked`, `answers`) are never read by a step.

## Assumptions

* A slot READ or WRITE is atomic, and one writer acts at a time (`src/client/rdma_client.cpp:285-289`).
* Table keys and values are free of NUL, and key views handed to the server's `strncmp` are
  terminated. Both are the type `CText.Text`.
* A character stands for a byte. `isspace` and `tolower` are those of the C locale.
* `poll` reports requested events and error conditions only, as POSIX.1-2017 says of `poll()`;
  `recv`, `send` and `accept` answer any way they may; a newly accepted descriptor is one not open.
* The two-sided channel is reliable and ordered and delivers only into a posted receive; a send
  completes only after delivery. Completions of one side may come in either order.
* A WRITE or fetch-and-add whose completion is lost may or may not have taken effect.

## Findings

* `set` on the server refuses a new key once no empty slot is left, even if tombstones exist; the
  client takes the tombstone. Empty slots never come back, so the server then refuses every new
  key for good (`FullTable.FullForGood`, `FullTable.ShippedTableRefuses`).
* Preloading the default 10000 pairs keeps only the first 4096 (`Preload.PreloadStore`).
* A request line of more than 4095 bytes is cut without its newline and can store a value of 4090
  bytes, one more than a VALUE reply with its newline can carry (`Dispatch.MessageBreaksBound`
  says exactly when). Clients do not notice: the cut costs that reply its newline only, and the
  whole value arrives (`TwoSidedTheorems.StoredValuesArriveWhole`).
* The rejection of an unknown command of more than 4072 bytes is the only reply that can be cut
  when requests fit (`Dispatch.ReplyFits`).
* The two "non-empty" rejections of SET are dead code (`TextProtocol.EmptyPartRejectionsUnreachable`).
* End of file drops complete lines received in the same drain (`TcpEndOfFile.EndOfFileDropsLines`,
  `TcpEndOfFile.ALineIsLost`).
* A two-sided request posted after an executed QUIT is never answered (`TwoSidedProgress.AnsweredUntilQuit`).

## Model

| member | source | states |
|---|---|---|
| `Bits.MaskIsRemainder` | src/kvstore/rdma_store.cpp:29 | masking with N-1 is the remainder modulo N for every power of two N |
| `Bits.TableSizeIsPowerOfTwo` | include/kvstore/rdma_store.hpp:29-35 | the shipped slot count, 4096, is a power of two |
| `Fnv.Hash` | src/client/rdma_client.cpp:146-153 | the xor/multiply loop computes FNV-1a modulo 2^32 byte by byte |
| `Fnv.SlotIndex` | src/kvstore/rdma_store.cpp:21-30 | the masked hash is the home slot of the shipped 4096-slot layout, so it is in range |
| `Fnv.ShippedLayout` | include/kvstore/rdma_store.hpp:29-35 | 4096 slots with FNV-1a satisfy everything the table theorems ask of a layout |
| `Fnv.HashOfSingleLetter` | src/client/rdma_client.cpp:146-153 | the published FNV-1a value of the one-byte text "a" is 0xE40C292C, which fixes the constants |
| `Fnv.HashOfTwoLetters` | src/client/rdma_client.cpp:146-153 | the published FNV-1a value of "fo" is 0x6222E842, which fixes the order of folding |
| `Fnv.HashAppend` | src/client/rdma_client.cpp:148-151 | one more byte at the end of a key changes the last byte of the hash by XOR and then multiplies by the prime, modulo 2^32 |
| `CText.StoreThenRead` | src/kvstore/rdma_store.cpp:64-65 | a text shorter than its field, stored with memset and memcpy, is read back unchanged by a C string read |
| `CText.StrncmpDecides` | src/kvstore/rdma_store.cpp:62 | bounded strncmp against a terminated buffer is equality of the two texts, for keys of any length |
| `CText.SlotKeyEquals` | src/client/rdma_client.cpp:208-215 | the measuring loop plus memcmp is equality of the stored text and the key |
| `SlotLayout.KeyTestsAgree` | src/kvstore/rdma_store.cpp:110 | on every live slot the server's test says exactly whether the slot's entry holds the key |
| `SlotLayout.LiveKeyTest` | src/kvstore/rdma_store.cpp:62 | the guard "occupied and strncmp equal" is true exactly of the slot that holds the key, whatever the slot state |
| `SlotLayout.LiveBytesAreTheEntry` | include/kvstore/rdma_store.hpp:55-70 | a live slot's bytes are determined by key, value and counter: 112 and 896 bytes, zero padded |
| `SlotLayout.Filled` | src/client/rdma_client.cpp:277-281 | a slot zeroed and filled with legal sizes decodes to exactly that entry |
| `ProbeTable.ProbeVisitsEachSlotOnce` | src/kvstore/rdma_store.cpp:58-59 | probe steps 0..N-1 and slots are in one-to-one correspondence, for every key |
| `ProbeTable.WalkFindsStoredKey` | src/kvstore/rdma_store.cpp:98-113 | in a good table the walk for a stored key ends at the one slot holding it |
| `ProbeTable.WalkDecidesMembership` | src/kvstore/rdma_store.cpp:98-115 | in a good table how the walk ends decides membership, and where |
| `ProbeTable.UpdateKeepsInv` | src/kvstore/rdma_store.cpp:62-67 | rewriting an entry under its own key keeps keys unique and no empty slot between a key's home and its slot |
| `ProbeTable.InsertKeepsInv` | src/kvstore/rdma_store.cpp:73-83 | filling a free slot no empty slot precedes keeps the same invariant, including a reused earlier tombstone |
| `ProbeTable.EraseKeepsInv` | src/kvstore/rdma_store.cpp:132-135 | turning an entry into a tombstone keeps the same invariant |
| `TableOps.ServerSetIsMapUpdate` | src/kvstore/rdma_store.cpp:45-89 | server set is map update; it succeeds exactly for legal sizes when the key is live or an empty slot is left; it keeps the counter of a live key and never adds an empty slot |
| `TableOps.LookupIsMapLookup` | src/kvstore/rdma_store.cpp:95-116 | server get is map lookup |
| `TableOps.ServerEraseIsMapRemoval` | src/kvstore/rdma_store.cpp:122-139 | server erase removes the key, says whether it was there, and makes no slot empty |
| `TableOps.ClientSetIsMapUpdate` | src/client/rdma_client.cpp:290-381 | the client's SET on an undisturbed table is map update or leaves the table as it was; empty slots never increase |
| `TableOps.ClientSetErrors` | src/client/rdma_client.cpp:298-305 | the client fails exactly for too long a key, too long a value, or all N slots live with other keys |
| `TableOps.ClientGetIsMapLookup` | src/client/rdma_client.cpp:230-259 | the client's GET is map lookup and, with metadata, adds one modulo 2^64 to that key's counter only |
| `TableOps.ServerAndClientSetAgree` | src/client/rdma_client.cpp:307-380 | from one good table server set and client SET leave the same slots and result whenever the key is live or an empty slot is left; otherwise the server fails and the client succeeds exactly when a tombstone is left |
| `FullTable.VacanciesShrink` | src/kvstore/rdma_store.cpp:58-84 | over any history of server and client operations the set of empty slots only shrinks |
| `FullTable.FullForGood` | src/kvstore/rdma_store.cpp:73-88 | once no empty slot is left the server refuses every new key in every later history, whatever is erased; a client stores it exactly when sizes are legal and the map has room |
| `FullTable.RemoteSetVerdict` | src/client/rdma_client.cpp:298-380 | in any history a client's SET succeeds exactly when sizes are legal and the map holds the key or has fewer than N keys |
| `FullTable.OneKeyPerEntry` | include/kvstore/rdma_store.hpp:55-70 | the map has exactly one key per live slot, so it has N keys exactly when every slot is live |
| `FullTable.TombstoneServesClientOnly` | src/kvstore/rdma_store.cpp:73-88 | on every layout: fill the table with distinct keys, erase one, set a new one; the server refuses it and a client stores it |
| `FullTable.ShippedTableRefuses` | src/server/rdma_main.cpp:281-287 | the same on the shipped 4096-slot table with the numbered preload keys |
| `TableRuns.RunsRefineMap` | src/kvstore/rdma_store.cpp:58-137 | after any history of server and client operations the slots stand for the map the same history produces, with the invariant kept |
| `TableRuns.RepliesAreMapReplies` | src/kvstore/rdma_store.cpp:95-139 | every get, erase and GET reply in any history is the plain map's reply |
| `TableRuns.CounterIsHits` | src/client/rdma_client.cpp:245-256 | in any sequential history a live key's counter is, modulo 2^64, its successful metadata GETs since its last fresh insertion |
| `RdmaStore.Store.constructor` | src/kvstore/rdma_store.cpp:36-39 | a zeroed slot array is a good table for the empty map |
| `RdmaStore.Store.Set` | src/kvstore/rdma_store.cpp:45-89 | the in-place loop leaves exactly the specified table and result, equals map update, and writes a slot only whole |
| `RdmaStore.Store.Get` | src/kvstore/rdma_store.cpp:95-116 | the loop over bytes returns the map's answer |
| `RdmaStore.Store.Erase` | src/kvstore/rdma_store.cpp:122-139 | the loop marks exactly the key's slot and equals map removal |
| `RdmaStore.SlotWritten` | src/kvstore/rdma_store.cpp:76-82 | writing one slot's bytes changes exactly that cell of the table and keeps it good |
| `RemoteClient.Client.OneSidedGet` | src/client/rdma_client.cpp:221-260 | the READ loop over the shared local buffer gives the client GET's answer, value and old counter; when the link fails no slot changes, unless a lost fetch-and-add landed, and then the table is the one a completed GET leaves |
| `RemoteClient.Client.PrepareSlot` | src/client/rdma_client.cpp:262-283 | the local buffer is filled whole, or left alone with the size error |
| `RemoteClient.Client.FetchAndAdd` | src/client/rdma_client.cpp:247-255 | a fetch-and-add that takes effect bumps exactly one counter; one that completes returns the old count |
| `RemoteClient.Client.RdmaWrite` | src/client/rdma_client.cpp:330-338 | a WRITE that takes effect replaces exactly one slot by the local buffer; one whose completion is lost may have taken effect |
| `RemoteClient.Client.OneSidedSet` | src/client/rdma_client.cpp:290-381 | the READ loop with the remembered tombstone and one WRITE leaves exactly the specified table and error, a map update when it stores; a lost READ changes nothing, and a lost WRITE changes nothing or leaves the table of a stored SET |
| `RemoteClient.EntryBumped` | src/client/rdma_client.cpp:245-256 | a fetch-and-add on a live slot changes its counter and no other byte |
| `Preload.PreloadStore` | src/server/rdma_main.cpp:281-290 | preloading n numbered pairs into a fresh table stores exactly the first min(n, N); the default 10000 keeps 4096 |
| `Preload.PreloadKeysDistinct` | src/server/rdma_main.cpp:284 | distinct numbers give distinct preload keys |
| `Preload.DecimalDenotes` | src/server/rdma_main.cpp:282-283 | the number in a preload key is written in digits that denote it, without a leading zero |
| `Preload.NewKeyTakesOneVacancy` | src/kvstore/rdma_store.cpp:73-84 | without tombstones a new key is stored exactly when an empty slot is left, and takes one |
| `Preload.PreloadedIsReadable` | src/server/rdma_main.cpp:281-287 | exactly the stored pairs can be read, by server get and by client GET |
| `RemoteRuns.RunKeepsInv` | src/client/rdma_client.cpp:230-377 | in every run of readers, one writer and the server, the table stays good and what the writer has read stays true until it writes |
| `RemoteRuns.StepKeepsInv` | src/client/rdma_client.cpp:311-363 | the same for one READ, WRITE, fetch-and-add or server mutation |
| `RemoteRuns.TableStep` | src/client/rdma_client.cpp:230-377 | each step changes the map by exactly its effect and moves no stored key to another slot |
| `RemoteRuns.StoreStep` | src/client/rdma_client.cpp:330-376 | the writer's WRITE, done from what it read step by step, is exactly a map update |
| `RemoteRuns.GivesUpWhenFull` | src/client/rdma_client.cpp:365-380 | the writer reports a full table only when all slots are live with other keys |
| `RemoteAtomicity.RemoteGetIsAtomic` | src/client/rdma_client.cpp:221-260 | linearizable: for a call from its first step to its return, with any interleaving, a hit gives the value the map held, and a miss means the key was absent, at some instant inside the call |
| `RemoteVerdicts.RemoteGetVerdict` | src/client/rdma_client.cpp:238-259 | what a finished GET of any run reports: a failed link exactly when one of its work requests was lost; a plain hit has no count and added nothing; a metadata hit made exactly one acknowledged fetch-and-add, on a slot in which the call read its key and value, and carries the count that slot held then; a miss added nothing |
| `RemoteAtomicity.MapIsReplayOfWrites` | src/client/rdma_client.cpp:285-289 | at every moment of every run the map is the replay of the effects of the steps so far |
| `RemoteAtomicity.RemoteGetReadsReplayedWrites` | src/client/rdma_client.cpp:230-259 | each GET answers from the writes in effect at one instant of the call |
| `RemoteAtomicity.RemoteSetVerdict` | src/client/rdma_client.cpp:290-381 | what a SET of any run reports, from its first step on: rejected for its sizes exactly when they are illegal; stored exactly when its WRITE was acknowledged, after exactly one write, of its own key and value; link lost exactly when a work request was lost; full only when at an instant of the call every slot held another key, and then it wrote nothing |
| `RemoteAtomicity.UndisturbedGet` | src/client/rdma_client.cpp:221-260 | with nobody else acting the slot-by-slot GET, from its first step to its return, leaves the table and reports the result of the whole-table GET |
| `RemoteAtomicity.UndisturbedSet` | src/client/rdma_client.cpp:290-381 | with nobody else acting the slot-by-slot SET, from its first step to its return, leaves the table and reports the verdict of the whole-table SET, for any sizes |
| `RemoteCounters.GetsChangeOnlyCounters` | src/client/rdma_client.cpp:245-256 | with any number of clients running only GETs no state, key or value changes, each fetch-and-add hits its key's slot, and each counter is its start plus the adds to it, modulo 2^64 |
| `RemoteCounters.OldValuesCountUp` | src/client/rdma_client.cpp:250-254 | old values returned for one key differ by the number of adds between them: distinct, and consecutive when none lies between |
| `RemoteCounters.AddAimsAtFirstSlot` | src/client/rdma_client.cpp:249-250 | a fetch-and-add addresses the slot of the requested key and returns the tally so far |
| `RemoteCounters.SumCountsAdds` | src/client/rdma_client.cpp:911-932 | conservation: all counters together grow by exactly the fetch-and-adds, less 2^64 for each one that wrapped |
| `RemoteCounters.CounterNeverExceedsAdds` | src/client/rdma_client.cpp:326-350 | with one concurrent writer a slot's count never exceeds its start plus the adds since its last fresh insertion |
| `TextProtocol.TrimLeftLoop` | src/protocol/text_protocol.cpp:23-32 | the loop computes the text from its first non-space on |
| `TextProtocol.TrimRightLoop` | src/protocol/text_protocol.cpp:35-48 | the loop computes the text up to its last non-space |
| `TextProtocol.LowerCopy` | src/protocol/text_protocol.cpp:56-61 | the transform lower-cases every byte |
| `TextProtocol.Parse` | src/protocol/text_protocol.cpp:74-150 | the parser with its early returns computes the specified request on every line |
| `Commands.SpellingDecides` | src/protocol/text_protocol.cpp:74-150 | the parser on every line, told without lower-casing: the first word is a command exactly when it spells one of get, del, delete, set, quit, exit letter by letter in either case; which arguments give which request and which rejection; any other word is rejected with its lower-cased text |
| `Commands.VerbBySpelling` | src/protocol/text_protocol.cpp:93-143 | each command comparison succeeds exactly on the spellings of its command and its alias |
| `Commands.KeyCommands` | src/protocol/text_protocol.cpp:93-116 | get, del or delete in any letters, with any white space around its parts and a key, gives that request for that key |
| `Commands.SetCommand` | src/protocol/text_protocol.cpp:119-140 | set in any letters, with any white space around its parts, a key and a value, gives that request |
| `Commands.QuitCommand` | src/protocol/text_protocol.cpp:143-146 | quit or exit in any letters ends the session, with or without arguments |
| `Commands.RejectionTexts` | src/protocol/text_protocol.cpp:78-149 | the text of each rejection |
| `TextProtocol.SpacesAre` | src/protocol/text_protocol.cpp:27 | white space is the six white-space characters of the C locale |
| `TextProtocol.ParseSetArguments` | src/protocol/text_protocol.cpp:120-140 | the SET branch computes the specified request on every remainder |
| `TextProtocol.ParsedIsCanonical` | src/protocol/text_protocol.cpp:74-150 | every valid request has solid parts and a key without spaces |
| `TextProtocol.PrintThenParse` | src/protocol/text_protocol.cpp:74-150 | printing any canonical request and parsing the line gives it back |
| `TextProtocol.CanonicalForm` | src/protocol/text_protocol.cpp:74-150 | the valid requests the parser can produce are exactly the canonical ones |
| `TextProtocol.EmptyPartRejectionsUnreachable` | src/protocol/text_protocol.cpp:131-138 | "non-empty key" and "non-empty value" are never reported, on any line |
| `TextProtocol.PartsFitLine` | src/protocol/text_protocol.cpp:83-88 | key and value leave room on the line for the command and the separating spaces |
| `TextProtocol.NewlineFreeParts` | src/protocol/text_protocol.cpp:74-150 | a newline-free line parses to newline-free parts and messages |
| `TextProtocol.ReplyIsLine` | src/protocol/text_protocol.cpp:153-165 | a reply is one line ending in its only newline exactly when its payload has none |
| `TextProtocol.ReplyReadsBack` | src/protocol/text_protocol.cpp:153-165 | a reader of the reply formats gets every response back from its printed form, whatever the payload |
| `TextProtocol.RepliesDiffer` | src/protocol/text_protocol.cpp:153-165 | different responses print differently |
| `Dispatch.Shared.Handle` | src/server/main.cpp:43-76 | the in-place handler leaves the specified store and response |
| `Dispatch.RepliesAreDeserved` | src/server/main.cpp:43-76 | over any history the reply to every line is the one its request deserves, told by the lines before: GET the last value written or NOT_FOUND, DEL OK exactly if one was left, SET OK, QUIT BYE, a rejected line its message |
| `Dispatch.StoreHoldsLastWrites` | src/server/main.cpp:43-76 | after any requests the store holds for every key exactly what the last SET or DEL of that key left |
| `Dispatch.GetReadsLastWrite` | src/server/main.cpp:50-57 | a GET replies with the last value written for its key, or NOT_FOUND when none is left |
| `Dispatch.RoutesAlike` | src/server/rdma_main.cpp:152-175 | the two-sided server's own routing equals the TCP server's |
| `Dispatch.DispatchersAgree` | src/server/rdma_main.cpp:140-177 | a line that reaches the two-sided server whole is executed exactly as over TCP |
| `Dispatch.TransportsAgree` | src/server/rdma_main.cpp:140-177 | for any sequence of lines that fit, both dispatchers give the same replies and the same store |
| `Dispatch.ExecuteOneLine` | src/server/main.cpp:121-129 | a newline-free line keeps stored values newline-free and its reply is one line |
| `Dispatch.ReplyFits` | src/net/rdma_context.cpp:236-238 | for a message that fits, stored values stay within 4089 bytes and a reply is too long exactly when it rejects an unknown command of more than 4072 bytes |
| `Dispatch.ValueBoundIsTight` | src/protocol/text_protocol.cpp:157-158 | a 4096-byte SET stores a 4089-byte value whose VALUE reply has exactly 4096 bytes |
| `Dispatch.OverlongRequestBreaksBound` | src/net/rdma_context.cpp:236-238 | a request one byte too long loses its newline and stores a 4090-byte value, whose VALUE reply has 4097 bytes with its newline |
| `Dispatch.OverlongRequestExample` | src/net/rdma_context.cpp:236-238 | an input: 4090 letters set under the key "k" |
| `Dispatch.MessageBreaksBound` | src/protocol/text_protocol.cpp:120-139 | a message of at most 4096 bytes takes a stored value over 4089 bytes exactly when it has 4096 bytes and reads set, a space, a one-byte key, a space and a value filling the rest |
| `TextProtocol.TightSets` | src/protocol/text_protocol.cpp:120-139 | exactly the lines with single spaces and no byte to spare give a SET whose parts fill the line |
| `Dispatch.LongCommandReplyIsTruncated` | src/protocol/text_protocol.cpp:149 | a 4095-letter unknown command fits but its rejection does not |
| `Dispatch.StoreStaysBounded` | src/protocol/text_protocol.cpp:120-139 | over any sequence of lines that fit no stored value exceeds 4089 bytes |
| `LineIo.ReadLine` | src/net/socket_utils.cpp:139-170 | the receive loop gives the specified outcome for every course of bytes, interruptions, end and failure |
| `LineIo.ScanReadsOneLine` | src/net/socket_utils.cpp:145-169 | on a healthy connection one call takes exactly one line and drops its carriage returns |
| `LineIo.CallEnds` | src/net/socket_utils.cpp:145-169 | how every call ends, on any connection: newline gives the line, end of file gives what was collected and fails only when that is nothing, a failure fails whatever was collected |
| `LineIo.NthCallReadsNthReply` | src/net/socket_utils.cpp:139-170 | over a stream of one-line replies the n-th call returns the n-th reply |
| `LineIo.WriteAll` | src/net/socket_utils.cpp:173-200 | the peer gets as much of the data as the answers before the first failure take; all of it exactly when the loop ends well, and it ends broken exactly when a failure comes first |
| `Framing.SplitIsUnique` | src/server/main.cpp:119-124 | a stream of whole lines and a newline-free rest splits into exactly these |
| `Framing.SplitOfJoined` | src/server/main.cpp:119-124 | extracting lines undoes joining them, whatever follows |
| `EventLoop.Loop.Schedule` | src/net/event_loop.cpp:128-130 | a handle goes to the end of the ready queue |
| `EventLoop.Loop.WaitRead` | src/net/event_loop.cpp:143-145 | the read waiter of the descriptor is this handle |
| `EventLoop.Loop.WaitWrite` | src/net/event_loop.cpp:148-150 | the write waiter of the descriptor is this handle |
| `EventLoop.Loop.BuildPollSet` | src/net/event_loop.cpp:174-199 | the two passes list each waiting descriptor exactly once with exactly the union of the wanted events |
| `EventLoop.Loop.Dispatch` | src/net/event_loop.cpp:217-251 | after a report the ready queue and both waiter maps are the specified ones |
| `EventLoop.Loop.Resume` | src/net/event_loop.cpp:156-162 | a resumed coroutine spawns, stops and suspends as it says |
| `EventLoop.Loop.Run` | src/net/event_loop.cpp:153-253 | the loop goes through exactly the happenings it meets, ready coroutines first; on normal return nothing is ready and a stop was requested or nobody waits; it throws exactly on a failed poll |
| `EventLoop.WakeUpIsExact` | src/net/event_loop.cpp:220-251 | the woken waiters are exactly those whose descriptor is ready, each once, and the others stay |
| `EventLoop.EventsDecideWaking` | src/net/event_loop.cpp:229-247 | a coroutine waiting to read stops waiting exactly on input or a failure of its descriptor, one waiting to write exactly on room for output or a failure |
| `EventLoop.PollMakesProgress` | src/net/event_loop.cpp:226-246 | any nonzero revents wakes at least one coroutine |
| `EventLoop.WantedOrError` | src/net/event_loop.cpp:227-229 | an event poll may report for a listed descriptor is readiness for a waiter on it |
| `Scheduling.DequeueKeeps` | src/net/event_loop.cpp:157-160 | resuming the first ready frame keeps the scheduler's invariant |
| `Scheduling.ParkReadKeeps` | src/net/event_loop.cpp:98-100 | waiting for readability keeps it |
| `Scheduling.ParkWriteKeeps` | src/net/event_loop.cpp:108-110 | waiting for writability keeps it |
| `Scheduling.FinishKeeps` | include/net/event_loop.hpp:71-78 | closing the descriptor and destroying the frame at final suspension keeps it |
| `Scheduling.SpawnKeeps` | src/net/event_loop.cpp:51-62 | handing a new frame with its own descriptor to the loop keeps it |
| `Scheduling.WakeKeeps` | src/net/event_loop.cpp:220-251 | a poll report keeps it |
| `Scheduling.WaiterOwns` | src/net/event_loop.cpp:143-150 | a waiter entry belongs to a live frame that owns the descriptor, which is open |
| `Scheduling.NobodyElseWaits` | src/net/event_loop.cpp:143-150 | a running frame that waits on its descriptor overwrites no entry |
| `Scheduling.ExactlyOnePlace` | src/net/event_loop.cpp:138-150 | a spawned frame occurs exactly once among ready queue, waiter maps, running and destroyed; no other handle occurs |
| `TcpPlaces.RunKeepsPlaces` | src/server/main.cpp:79-217 | in every run of the server the scheduler's invariant holds, frames are numbered as spawned and the acceptor lives |
| `TcpPlaces.EveryFrameInOnePlace` | src/net/event_loop.cpp:51-62 | in every reachable state of the server each spawned frame is in exactly one place |
| `TcpPlaces.NoWaiterOnClosedDescriptor` | src/server/main.cpp:98-117 | in every reachable state a waiter entry is for an open descriptor, by the live frame owning it |
| `TcpPlaces.NoWaiterOverwritten` | src/server/main.cpp:155-172 | no step of any run of the server replaces a waiter entry |
| `TcpPlaces.DestroyedOnce` | src/net/event_loop.cpp:138-140 | in every run only the running frame is destroyed and no step brings a destroyed one back |
| `TcpPlaces.DestroyedForGood` | src/net/event_loop.cpp:138-140 | once destroyed, destroyed in every later state |
| `TcpPlaces.LoopNeverRunsOut` | src/net/event_loop.cpp:169-172 | while the server runs somebody always waits, so the loop does not return for lack of work |
| `TcpPlaces.PollWakesSomebody` | src/net/event_loop.cpp:226-251 | in every run a poll that reports anything makes a frame ready, each woken one once |
| `TcpCourse.ServerRunsTheLoop` | src/net/event_loop.cpp:153-253 | in every run of the server, whenever no frame runs, ready queue and waiter maps are what the loop object reaches on the run's own course: its activations with what they spawned and awaited, and its poll reports, in order |
| `TcpCourse.ActivationStep` | src/net/event_loop.cpp:156-162 | each server step of a resumed frame continues its one resumption in the loop with the frame it spawned, or ends it with the await it makes |
| `TcpCourse.PollIsReport` | src/net/event_loop.cpp:207-251 | a poll step of the server is the report in the loop that says the same of each descriptor |
| `TcpStreams.StepKeepsStreams` | src/server/main.cpp:87-173 | every step keeps: received bytes are the executed lines plus the buffer, and sent bytes plus the rest of the current reply are all replies in order |
| `TcpStreams.LineExecuted` | src/server/main.cpp:121-132 | extracting and executing one line keeps that for its connection |
| `TcpStreams.PartSent` | src/server/main.cpp:133-145 | a partial send keeps it |
| `TcpReplay.RunKeepsServer` | src/server/main.cpp:121-169 | in every run the store is the replayed log and each connection's history is its part of the log |
| `TcpReplay.RunReceives` | src/server/main.cpp:91-95 | in every run a connection has received exactly the bytes handed over by its recv calls |
| `TcpTheorems.LogGrows` | src/server/main.cpp:121-129 | an entry is added exactly when a running connection finds a newline in its buffer, and it is the first complete line there |
| `TcpTheorems.ServerReplaysLog` | src/server/main.cpp:121-169 | for every interleaving the store is the replay of all dispatched requests, and each connection was sent a prefix of the replies to its own |
| `TcpTheorems.DispatchedLinesArePrefix` | src/server/main.cpp:119-169 | the requests a connection dispatched are a prefix of its complete lines, none but the last QUIT |
| `TcpTheorems.WaitingMeansDrained` | src/server/main.cpp:170-172 | a connection waiting for readability has executed exactly the complete lines received, sent every reply and buffers no newline |
| `TcpTheorems.ChunkIndependence` | src/server/main.cpp:87-173 | two connections that received the same bytes in any pieces and met the same stores executed the same lines, sent the same bytes and buffer the same rest |
| `TcpTheorems.LoneClientIsDeterministic` | src/server/main.cpp:87-173 | alone with the server, store, output and buffer are functions of the received bytes |
| `TcpEndOfFile.EndOfFileDropsLines` | src/server/main.cpp:98-102 | end of file closes at once and executes nothing more; complete lines are lost exactly when a newline came in since recv last said to wait, or since the connection was accepted |
| `TcpEndOfFile.ALineIsLost` | src/server/main.cpp:89-102 | a run in which it happens: connect, send one request, close; the request is received and never executed |
| `TcpLifetime.ServesWhatItReceived` | src/server/main.cpp:87-173 | from every reachable state in which a connection runs, its own steps, while nothing fails and nothing more arrives, execute and answer every complete line received and then wait; or, when a QUIT is among them, every line up to the first QUIT, and then close |
| `TcpLifetime.ClosesExactlyWhen` | src/server/main.cpp:98-169 | a live connection ends with a step exactly when the kernel reports end of file or an error on it, or the last byte of the reply to its QUIT went out |
| `TcpLifetime.SuspendsExactlyWhen` | src/server/main.cpp:104-172 | a running connection suspends exactly when it finds no newline in its buffer or send would block; an interrupted call changes nothing |
| `TcpLifetime.AcceptorGoesOn` | src/server/main.cpp:182-215 | after an accept that found nobody or failed the acceptor waits next, otherwise it accepts again; only a connection made nonblocking changes anything else |
| `TcpTheorems.StoreIsNewlineFree` | src/server/main.cpp:121-129 | every stored value in every run is newline-free and every reply is one line |
| `TcpTheorems.NthReadLineIsNthReply` | src/net/socket_utils.cpp:139-170 | the client's n-th read_line returns the server's n-th reply to it, up to carriage returns, whatever the interleaving |
| `Connection.Client.Drain` | src/server/main.cpp:89-117 | the recv loop takes the kernel's answers in order, one server step each, and stops where the server does |
| `Connection.Client.SendReply` | src/server/main.cpp:132-162 | the send loop takes the kernel's answers in order, each clamped to what was offered, and puts on the wire exactly the bytes taken |
| `Connection.Client.ProcessLines` | src/server/main.cpp:119-172 | the line loop leaves exactly the server state that the kernel's answers lead to, and waits to read only with no newline buffered |
| `Connection.Client.Resume` | src/server/main.cpp:87-173 | one activation, given what recv and send answer, leaves exactly the state that the server's steps on those answers leave, and its ending and wire are that state's |
| `Connection.ActivationReaches` | src/server/main.cpp:87-173 | these steps are a run of the server |
| `RdmaContext.Context.PostSend` | src/net/rdma_context.cpp:236-258 | at most 4096 bytes are copied in place, the rest of the buffer untouched, and posted unless the call fails |
| `RdmaContext.Context.PostRecv` | src/net/rdma_context.cpp:217-234 | one more receive is posted, unless the call fails |
| `RdmaContext.Context.PollCompletion` | src/net/rdma_context.cpp:354-379 | the oldest completion is taken; a successful receive sets the length, a failed completion records nothing and is reported |
| `RdmaContext.Context.RecvData` | src/net/rdma_context.cpp:393-395 | the bytes of the most recent receive completion |
| `RdmaContext.RequestResponse` | src/client/rdma_client.cpp:509-527 | it succeeds exactly when its four verbs calls do, with completions in either order; then the caller gets the reply without trailing line ends, and otherwise its response is left alone |
| `RdmaContext.ServeOne` | src/server/rdma_main.cpp:133-183 | one turn executes the message unless arming or receiving fails, sends its truncated reply unless posting fails, and goes on exactly if no call failed and the message does not parse to QUIT |
| `RdmaContext.Serve` | src/server/rdma_main.cpp:133-184 | the loop executes and answers messages in order and leaves the replayed store; no turn taken but the last failed or was a QUIT, and if turns are left the last one taken failed or was a QUIT |
| `RdmaContext.LoopEnds` | src/server/rdma_main.cpp:133-184 | where the loop stops, told by the failures and the messages alone |
| `RdmaContext.QuitEndsTheLoop` | src/server/rdma_main.cpp:181 | no turn after a QUIT is taken |
| `TwoSided.ChompLoop` | src/client/rdma_client.cpp:523-525 | the loop strips exactly the trailing line ends |
| `TwoSidedRuns.StepKeepsWork` | src/client/rdma_client.cpp:516-519 | every step keeps each side's outstanding sends and receives what its program position says |
| `TwoSidedRuns.StepKeepsPlace` | src/server/rdma_main.cpp:133-181 | every step keeps the current request at exactly one of client, server and answered |
| `TwoSidedAnswers.RunKeepsExchange` | src/server/rdma_main.cpp:133-183 | in every run outstanding work, buffers, store and history are consistent |
| `TwoSidedTheorems.AtMostOneReceive` | src/server/rdma_main.cpp:134-138 | the server has at most one receive posted, and none while it parses, replies or waits for its send |
| `TwoSidedTheorems.NoBufferInUseIsTouched` | src/net/rdma_context.cpp:236-238 | in every run no buffer is filled while a send or receive uses it, and messages arrive only while the receiver polls |
| `TwoSidedTheorems.PollsTakeOwnCompletions` | src/client/rdma_client.cpp:518-519 | in every run each side's polls take exactly its own completions, in either order |
| `TwoSidedTheorems.RecvDataIsTheReply` | src/client/rdma_client.cpp:521 | after its two polls the client's recv_data is the reply to the request it just sent |
| `TwoSidedTheorems.AnswersAreReplies` | src/client/rdma_client.cpp:509-527 | in every run the i-th answer is the reply to the i-th request on the store it met; a valid request gets it whole, and any request does exactly when the reply fits a buffer but for line ends |
| `TwoSidedTheorems.AnswersMatchTcp` | src/server/rdma_main.cpp:85-183 | for one client with lines that fit, store and answers are those of the TCP dispatcher, whole unless a reply exceeds a buffer by more than line ends |
| `TwoSidedTheorems.RunKeepsSolid` | src/protocol/text_protocol.cpp:120-139 | in every run, whatever is sent, stored values have at most 4090 bytes and end in a non-space |
| `TwoSidedTheorems.StoredValuesArriveWhole` | src/net/rdma_context.cpp:236-238 | in every run a client that asks for a stored value is answered with all of it, cut or not |
| `TwoSidedTheorems.BoundHoldsWithoutLongSet` | src/protocol/text_protocol.cpp:120-139 | in every run stored values stay within 4089 bytes exactly as long as no 4096-byte SET of a one-byte key was executed |
| `TwoSidedTheorems.ValueRepliesFit` | src/protocol/text_protocol.cpp:157-158 | so when messages carry their newline every VALUE reply goes out with its own |
| `TwoSidedProgress.AnsweredUntilQuit` | src/server/rdma_main.cpp:133-184 | in every reachable state with both sides up, some continuation answers the pending request exactly when it is at the server or answered already, or no message of this client that parses to QUIT was executed |
| `TwoSidedProgress.NothingServedAfterQuit` | src/server/rdma_main.cpp:181 | in every run, once a message of this client that parses to QUIT was executed, the server arms no receive and executes nothing of this client again |

## Left out

- Torn slot reads and concurrent one-sided writers: the code disclaims both.
- Verbs resource setup, queue-pair transitions, memory registration, the QP-info exchange: foreign calls without visible semantics.
- The byte address arithmetic of slots and offset 8 of the counter: slots are addressed by index.
- Socket creation, name resolution, threads, argument parsing, console and error output: plumbing around the modelled code.
- `KeyValueStore`: a locked map, used as a plain map; its locking is the atomicity of one request.
- Benchmark drivers, key sampling, percentiles, CSV output: timing and floating point.
- Coroutine frame internals, task moves and exceptions: a frame is a handle with the next thing it does.
- The 32-bit width of descriptors and 64-bit width of sizes: unbounded here; only hash and counter wrap.
- The interactive client loops: they call the modelled operations and print.
- The accepting coroutine has no class of its own: it is modelled as steps of `TcpServer`.
- EventLoop.Loop.Run: the course of events is finite, since the source's loop need not end; the transition system covers runs of any length.
- LineIo.ReadLine: the same; a call whose events run out is pending.
