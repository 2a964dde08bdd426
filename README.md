# A verified model of the Substance 3D Connector core

The Substance 3D Connector lets processes on one machine find each other and exchange typed messages. A message is a 128-bit type identifier plus a JSON payload. The connector has three layers, and this project models the sequential logic of each in Dafny:

- **The C core** (`core/`). It holds:
  - the library's global state word and the guards every API call puts on it (`external_api.c`);
  - the linked list of trampolines that hands each received message to the language bindings;
  - a fixed-size ring buffer of unsigned integers;
  - a linked FIFO of caller-owned nodes;
  - the read thread's array of connection contexts, with swap-with-last removal;
  - helpers: identifier comparison, path joining, byte and C-string routines, message building, and byte-order conversion of the wire header.
- **The C++ framework** (`module-cpp/`). It holds the framework's lifecycle (`registerApplication`, `init`, `shutdown`), the trampoline it installs in the C core, the callback registry, the identifier's text form and the JSON schemas of the connection, mesh-import and asset messages.
- **The Python framework** (`module-python/`). It holds the `ConnectorInstance` lifecycle and its application manager, the callback and trampoline managers, message dispatch, the `SystemApplication` directory of peers, the 32-bit word split of identifiers, and the mesh-import and SBSAR-import message schemas with their send guards.

Form of the model:

- Each core source file is one module, named after its layer and file (`CUintQueue`, `CppCore`, `PyInstance`, ...).
- Code that updates objects in place becomes classes with `modifies` frames. Examples are the ring buffer over an `array`, the linked lists over node objects, and the lifecycle objects.
- Code that computes values becomes datatypes and functions. Examples are the codecs, the schemas and the comparisons.
- Each operation is tied to a specification function or to a preserved invariant. Lemmas state what the code promises about it: a round trip, an ordering, a state machine that cannot be left, or "nothing else changes".
- Calls into code outside the core are not modelled. These are the transport, the subsystems the C core starts, the applications' hooks other than Python's `pre_init` (modelled as BaseApplication's), `os.path.isfile` and `uuid.uuid4`. What they return is a parameter, and the calls made are recorded in order in an event log.
- `Common` holds the shared types: fixed-width integers, the identifier as four 32-bit words, and a result type.
- `PyJson` holds the JSON values that both framework layers read and write.
- `PyJsonSchema` and `CppJson` hold the JSON Schema checks and the jsoncpp accessors the schemas use.

Where the code and its documentation disagree, the model follows the code:

- `CallbackManager.remove_callback` and the connection-closed handler raise `KeyError` for a missing key, and are not no-ops.
- `uint_queue_create(0)` frees an array pointer it never assigned, and returns the freed queue.
- The trampoline list's shutdown does not reset its front pointer.

Bugs that verification exposed are listed under "## Findings". Each has a model of the code as written and a corrected model.

## Model

| member | source | states |
|---|---|---|
| CUuidUtils.CompareUuid | core/src/details/uuid_utils.c:13-34 | the loop returns the lexicographic sign of the four elements, stopping at the first element that differs |
| CUuidUtils.LexSignRange | core/src/details/uuid_utils.c:16-33 | the comparison is always -1, 0 or 1 |
| CUuidUtils.LexSignZeroIffEqual | core/src/details/uuid_utils.c:13-34 | the comparison is 0 exactly when all four elements are equal, in both directions |
| CUuidUtils.LexSignAntisymmetric | core/src/details/uuid_utils.c:19-31 | swapping the two identifiers negates the result |
| CUuidUtils.LexSignFirstDifference | core/src/details/uuid_utils.c:19-31 | when the first k elements agree and element k differs, the sign is that of element k's comparison |
| CConnectionUtils.Htonl | core/src/details/connection_utils.c:85-88 | htonl's result is laid out in the host's memory as the big-endian bytes of its argument, on either host order |
| CConnectionUtils.Ntohl | core/src/details/connection_utils.c:95-98 | ntohl's result is the host's memory bytes of its argument read in big-endian order |
| CConnectionUtils.Htons | core/src/details/connection_utils.c:234 | htons's result is laid out in the host's memory as the big-endian bytes of its argument |
| CConnectionUtils.Ntohs | core/src/details/connection_utils.c:242 | ntohs's result is the host's memory bytes of its argument read in big-endian order |
| CConnectionUtils.HtonlIsBigEndian | core/src/details/connection_utils.c:85-95 | htonl lays a 32-bit value out as its big-endian bytes on either host order, and ntohl undoes it |
| CConnectionUtils.HtonsIsBigEndian | core/src/details/connection_utils.c:231-245 | htons lays a 16-bit value out as its big-endian bytes on either host order, and ntohs undoes it |
| CConnectionUtils.HtonHeader | core/src/details/connection_utils.c:231-236 | connector_htonheader lays the description, the length and each of the four identifier words out as that field's own big-endian bytes, from the original's field alone |
| CConnectionUtils.NtohHeader | core/src/details/connection_utils.c:239-244 | connector_ntohheader gives each field, and each identifier word, as the original field's memory bytes read in big-endian order |
| CConnectionUtils.HeaderRoundTrip | core/src/details/connection_utils.c:231-245 | connector_ntohheader(connector_htonheader(h)) == h for every header and either host byte order; the original is only read |
| CConnectionUtils.ConvertNetworkError | core/src/details/connection_utils.c:102-131 | as written, the returned code differs from the code the switch computes exactly for the six platform codes the switch names |
| CConnectionUtils.ConvertNetworkErrorIgnoresInput | core/src/details/connection_utils.c:102-131 | as written, convert_network_error returns POLL_EUNKNOWN for every platform code, because the switch assigns the parameter and not retcode |
| CConnectionUtils.IntendedDistinguishesErrors | core/src/details/connection_utils.c:106-128 | the intended mapping never gives success, gives POLL_EUNKNOWN exactly for the unnamed codes, and keeps the named codes apart |
| CMessage.BuildMessage | core/src/details/message.c:25-62 | NULL exactly when the payload or the type is NULL or the allocation fails; otherwise a fresh message holding the context, the payload copy and the built header |
| CMessage.BuiltHeaderIdentified | core/src/details/message.c:49-57 | the built header passes CONNECTOR_IDENTIFY_MESSAGE, is protocol revision one, carries the type as its id, and its length is strlen(payload) when that fits in 32 bits |
| CMessage.BuiltDescription | core/src/details/message.c:56-57 | or-ing CONNECTOR_HEADER_R1 and CONNECTOR_MESSAGE_IDENTIFIER into a zeroed description gives 0x03c9 |
| CMessage.DescriptionR1 | core/src/details/message.c:56-57 | the description 0x03c9 is identified as a connector message and has protocol version R1 |
| CMessage.ClearMessage | core/src/details/message.c:64-72 | a non-NULL message loses its payload and is zeroed; NULL is a no-op |
| CStringUtils.StrlenOf | core/src/details/string_utils.c:40 | strlen is the index of the first NUL: no NUL comes before it |
| CStringUtils.LastIndexOf | core/src/details/string_utils.c:15-31 | the position of the last c, with no c after it, and None exactly when c does not occur |
| CStringUtils.Memrchr | core/src/details/string_utils.c:15-31 | the backward scan returns the last occurrence of c among the first `length` characters, or NULL |
| CStringUtils.Strdup | core/src/details/string_utils.c:33-46 | NULL gives NULL; otherwise the new buffer is the string with its terminator |
| CStringUtils.StrdupCopiesString | core/src/details/string_utils.c:38-43 | the copy is a C string of the same length and the same characters |
| CStringUtils.StrlenUnique | core/src/details/string_utils.c:40 | an index holding NUL with no NUL before it is strlen |
| CStringUtils.Strndup | core/src/details/string_utils.c:48-72 | connector_strndup as written: n <= strlen+1 copies exactly n characters with no terminator added, a larger n copies n and appends NUL |
| CStringUtils.StrndupUnterminated | core/src/details/string_utils.c:57-61 | strndup("abc", 2) as written holds 'a', 'b' and no terminator |
| CStringUtils.StrndupCorrected | core/src/details/string_utils.c:48-72 | the corrected strndup copies min(n, strlen) characters and always terminates |
| CStringUtils.StrndupIntendedTerminated | core/src/details/string_utils.c:48-72 | the corrected copy is a C string of length min(n, strlen(s)) and a prefix of s |
| CStringUtils.TrailingRunMaximal | core/src/details/string_utils.c:79-84 | the trailing run is made of delim only and cannot be extended |
| CStringUtils.Chomp | core/src/details/string_utils.c:74-87 | chomp overwrites exactly the maximal trailing run of delim inside the string with NUL and returns the run's length; nothing else changes |
| CStringUtils.ChompShortens | core/src/details/string_utils.c:74-87 | afterwards strlen is shorter by the amount returned, and the string no longer ends with delim |
| CStringUtils.UntrustedStrlen | core/src/details/string_utils.c:89-103 | SUCCESS exactly when the buffer holds a NUL and length is not NULL, with the index of the last NUL; ERROR otherwise, with *length untouched |
| CStringUtils.UntrustedStrlenIsLastNul | core/src/details/string_utils.c:94-98 | a buffer holding a NUL always has a last NUL, at or after strlen |
| CPathUtils.PathJoin | core/src/details/system/pathutils.c:19-78 | ERROR with nothing written for NULL parts, a NULL result pointer or no parts; otherwise SUCCESS and a buffer holding the parts joined by single '/' delimiters, no trailing delimiter, then NUL |
| CPathUtils.MeasureParts | core/src/details/system/pathutils.c:36-43 | the first loop yields the sum of the part lengths and the number of parts |
| CPathUtils.CopyPart | core/src/details/system/pathutils.c:57-59 | the memcpy writes the part at the current location and keeps what was written before |
| CPathUtils.JoinLength | core/src/details/system/pathutils.c:36-52 | the joined length is the sum of the part lengths plus count - 1 |
| CPathUtils.SplitJoin | core/src/details/system/pathutils.c:55-71 | splitting the joined path at '/' gives the parts back when no part holds a '/' |
| CPathUtils.PathStrdup | core/src/details/system/pathutils.c:80-97 | on POSIX, connector_path_strdup is connector_strdup: NULL gives NULL, otherwise a copy with its terminator |
| CUintQueue.Inc | core/src/details/uint_queue.c:47 | `write_index + 1` in uint32_t wraps at 2**32 |
| CUintQueue.SlotOf | core/src/details/uint_queue.c:28-31 | convert_to_index gives a slot below the slot count |
| CUintQueue.Push | core/src/details/uint_queue.c:40-69 | push fails when the slot after the write position is the read slot and changes nothing; otherwise it stores the element in the write slot and advances write and max; the queue stays steady |
| CUintQueue.Pop | core/src/details/uint_queue.c:88-117 | pop fails when the read slot is the max slot, leaving `*retval` and the queue untouched; otherwise it hands out the read slot's element and advances read; the slots are unchanged |
| CUintQueue.PushAppends | core/src/details/uint_queue.c:33-77 | away from the 2**32 wrap, push appends the element to the contents, and fails, changing nothing, exactly when the queue holds one element fewer than it has slots |
| CUintQueue.PushRoom | core/src/details/uint_queue.c:59-69 | a push with room adds one element at the end of the contents |
| CUintQueue.PopTakesFront | core/src/details/uint_queue.c:79-118 | away from the wrap, pop returns the oldest element and drops it, and fails, with `*retval` untouched, exactly when the queue is empty |
| CUintQueue.PopRest | core/src/details/uint_queue.c:102-113 | a successful pop returns the first element and leaves the rest |
| CUintQueue.ContentsAfterRead | core/src/details/uint_queue.c:106-107 | advancing the read position drops the oldest element |
| CUintQueue.PushAll | core/src/details/uint_queue.c:33-77 | pushing a run of elements keeps the queue steady and the slot count |
| CUintQueue.PopAll | core/src/details/uint_queue.c:79-118 | popping n times yields n values |
| CUintQueue.PopAllTakesFront | core/src/details/uint_queue.c:79-118 | away from the wrap, n pops in a row all succeed exactly when the queue holds at least n elements, and then return its first n elements in FIFO order |
| CUintQueue.PushAllAppends | core/src/details/uint_queue.c:33-118 | a run of pushes that fits succeeds and appends the whole run in order (FIFO) |
| CUintQueue.SlotCountBounds | core/src/details/uint_queue.c:126-146 | create(n) allocates an even slot count of n + 1 or n + 2, so at least n elements fit; only requests of 2**32 - 2 and above wrap to zero slots |
| CUintQueue.CreatedHoldsRequest | core/src/details/uint_queue.c:126-146 | a fresh queue of request n takes n elements in a row and gives them back in order |
| CUintQueue.WrapPushes | core/src/details/uint_queue.c:47-61 | in a six-slot ring six positions below 2**32, seven pushes in a row all succeed |
| CUintQueue.WrapPushesFirst | core/src/details/uint_queue.c:47-61 | the first three of those pushes fill slots 4, 5 and 0 |
| CUintQueue.WrapPushesLast | core/src/details/uint_queue.c:47-61 | the last four cross the wrap, and the seventh overwrites slot 0 |
| CUintQueue.WrapSlots | core/src/details/uint_queue.c:28-31 | the slots of the positions around the wrap in a six-slot ring: the slot sequence jumps from 3 to 0 |
| CUintQueue.PushStep | core/src/details/uint_queue.c:47-69 | one push whose next slot is not the read slot succeeds with the written slot and advanced positions |
| CUintQueue.WrapPops | core/src/details/uint_queue.c:93-113 | the three pops after those pushes return 1, 2 and 7 |
| CUintQueue.WrapBreaksFifo | core/src/details/uint_queue.c:28-118 | with a slot count that does not divide 2**32, FIFO order breaks at the wrap: seven pushes into six slots all succeed and the third pop returns 7 where 3 was pushed |
| CUintQueue.Next | core/src/details/uint_queue.c:47 | the corrected advance stays below the slot count |
| CUintQueue.NextIsMod | core/src/details/uint_queue.c:47 | the corrected advance is (x + 1) mod the slot count |
| CUintQueue.PushCorrected | core/src/details/uint_queue.c:40-69 | push with positions kept as slot numbers keeps the corrected invariant |
| CUintQueue.PopCorrected | core/src/details/uint_queue.c:88-117 | pop with positions kept as slot numbers keeps the corrected invariant and the slots |
| CUintQueue.PushCorrectedAppends | core/src/details/uint_queue.c:33-77 | the corrected push is a FIFO append in every state, and fails, changing nothing, exactly when all but one slot are used |
| CUintQueue.PushCorrectedRoom | core/src/details/uint_queue.c:59-69 | a corrected push with room appends the element |
| CUintQueue.PopCorrectedTakesFront | core/src/details/uint_queue.c:79-118 | the corrected pop returns and drops the oldest element in every state, and fails, with `*retval` untouched, exactly when the queue is empty |
| CUintQueue.PopCorrectedRest | core/src/details/uint_queue.c:102-113 | a successful corrected pop returns the first element and leaves the rest |
| CUintQueue.WriteAfterRead | core/src/details/uint_queue.c:47-48 | in the corrected ring the write slot lies Count slots after the read slot |
| CUintQueue.Create | core/src/details/uint_queue.c:120-153 | NULL only when the struct allocation fails; a zero request or a failed array allocation destroys the queue and still returns the freed pointer, and for a zero request that destroy frees the never-assigned array pointer; otherwise a zeroed queue of SlotCount(n) slots, which is valid exactly when the request is below 2**32 - 2 |
| CUintQueue.CreateCorrected | core/src/details/uint_queue.c:120-153 | the intended create returns NULL whenever no valid queue could be set up, frees nothing unassigned, and otherwise returns a fresh, valid, zeroed queue |
| CUintQueue.PushElement | core/src/details/uint_queue.c:33-77 | INVALID for a NULL queue; otherwise the new status and state are those of Push |
| CUintQueue.PopElement | core/src/details/uint_queue.c:79-118 | the status, the value and the new state are those of Pop |
| CUintQueue.Destroy | core/src/details/uint_queue.c:159-171 | ERROR for NULL; otherwise SUCCESS, the queue is freed, the other fields are unchanged, and freeing a never-assigned array pointer or an already freed queue is recorded as undefined |
| CUintQueue.UintQueue.constructor | core/src/details/uint_queue.c:125 | the struct just allocated is live with its array pointer not yet assigned; malloc leaves the positions and the size indeterminate, so nothing is promised about them |
| CLockedQueue.LinksOf | core/src/details/locked_queue.c:45-48 | a linked node sequence starts at front, each node links to the next and the last to NULL |
| CLockedQueue.FromLinks | core/src/details/locked_queue.c:63-74 | conversely, nodes that link one to the next and end in NULL form a linked sequence |
| CLockedQueue.DistinctTail | core/src/details/locked_queue.c:87-88 | removing the front keeps the remaining nodes distinct |
| CLockedQueue.ShiftFront | core/src/details/locked_queue.c:45-51 | moving the front node to the handed-over part keeps the concatenation |
| CLockedQueue.LockedQueue.constructor | core/src/details/locked_queue.c:19-24 | the queue's storage starts empty and valid |
| CLockedQueue.LockedQueue.Init | core/src/details/locked_queue.c:19-36 | init empties the queue (front and end NULL) and installs the handler, or the dummy handler for NULL |
| CLockedQueue.LockedQueue.Clear | core/src/details/locked_queue.c:39-54 | clear hands every node to the handler front to back and sets front to NULL, but end keeps its old value |
| CLockedQueue.LockedQueue.ClearCorrected | core/src/details/locked_queue.c:39-54 | the intended clear also resets end, leaving a valid empty queue |
| CLockedQueue.LockedQueue.Enqueue | core/src/details/locked_queue.c:56-77 | enqueue appends the node at the end, links the old end to it, and makes it front when the queue was empty |
| CLockedQueue.LockedQueue.Dequeue | core/src/details/locked_queue.c:79-98 | dequeue returns the front node and removes it (FIFO); an empty queue gives NULL with no change; taking the last node resets end to NULL |
| CLockedQueue.StaleEndAfterClear | core/src/details/locked_queue.c:39-77 | after clear, enqueueing the node storage clear handed over makes that node link to itself |
| CLockedQueue.FreshEndAfterClearCorrected | core/src/details/locked_queue.c:39-77 | the same calls with the corrected clear leave a valid one-node queue |
| CReadStruct.IsShutdownMasks | core/src/details/threadimpl/readstructimpl.c:102 | the shutdown test is the mask `state & SUBSTANCE_CONNECTOR_CONN_SHUTDOWN` |
| CReadStruct.RemovedAtShape | core/src/details/threadimpl/readstructimpl.c:25-34 | swap-with-last removal: removing the last slot truncates, removing another slot puts the last entry there and keeps the rest in place |
| CReadStruct.RemovedAtContents | core/src/details/threadimpl/readstructimpl.c:25-34 | the removal drops exactly the entry at the index, keeps the entries before it, and is one shorter |
| CReadStruct.SplitLast | core/src/details/threadimpl/readstructimpl.c:25-34 | a slot list is its front and its last entry |
| CReadStruct.SplitFour | core/src/details/threadimpl/readstructimpl.c:29-33 | a slot list splits around the removed index and the last entry |
| CReadStruct.MultisetFour | core/src/details/threadimpl/readstructimpl.c:29-33 | moving the last entry into the removed slot keeps every other entry |
| CReadStruct.WalkConserves | core/src/details/threadimpl/readstructimpl.c:89-115 | the cleanup loop as written never loses or invents an entry: kept and removed together are the original entries |
| CReadStruct.RemovingConserves | core/src/details/threadimpl/readstructimpl.c:102-113 | one removal followed by a conserving walk conserves the entries |
| CReadStruct.WalkRemovesOnlyShut | core/src/details/threadimpl/readstructimpl.c:102-113 | the loop as written removes only contexts whose state has the shutdown bit |
| CReadStruct.CleanupSkipsSwapped | core/src/details/threadimpl/readstructimpl.c:89-96 | with two contexts both shutting down, the one swapped into slot 0 is never looked at and survives, though the header promises that all are removed |
| CReadStruct.WalkCorrectedConserves | core/src/details/threadimpl/readstructimpl.c:89-115 | the corrected loop never loses or invents an entry |
| CReadStruct.WalkCorrectedRemovesOnlyShut | core/src/details/threadimpl/readstructimpl.c:102-113 | the corrected loop removes only contexts that are shutting down |
| CReadStruct.WalkCorrectedLeavesNoShut | core/src/details/threadimpl/readstructimpl.c:89-115 | the corrected loop leaves no context that is shutting down |
| CReadStruct.CleanupCorrectedRemovesAll | core/src/details/threadimpl/readstructimpl.c:80-118 | the corrected cleanup removes exactly the contexts that are shutting down and keeps every other one |
| CReadStruct.ReadThread.constructor | core/include/substance/connector/details/threadimpl/readstructimpl.h:30-37 | a zeroed structure has no slots in use |
| CReadStruct.ReadThread.RemoveContext | core/src/details/threadimpl/readstructimpl.c:15-40 | ERROR with no change for an index at or beyond the count; otherwise SUCCESS, the count drops by one and the last entry moves into the index |
| CReadStruct.ReadThread.TakeOff | core/src/details/threadimpl/readstructimpl.c:105 | removing a slot in use gives the swap-with-last removal of the entries |
| CReadStruct.ReadThread.CheckLoad | core/src/details/threadimpl/readstructimpl.c:42-52 | TRUE exactly when fewer than READ_CONTEXTS slots are in use |
| CReadStruct.ReadThread.TryAcquire | core/src/details/threadimpl/readstructimpl.c:54-78 | a failed pop gives ERROR and no change; a popped context is appended at the old count with its descriptor and POLLIN, and the handshake's status is returned |
| CReadStruct.ReadThread.CleanupConnections | core/src/details/threadimpl/readstructimpl.c:80-118 | the loop leaves the slots and shuts down the contexts that the as-written walk gives, in order, and returns ERROR when none was removed, else the last shutdown's status |
| CReadStruct.StepShut | core/src/details/threadimpl/readstructimpl.c:102-113 | a loop turn that removes the entry at the stepped-back counter follows the walk |
| CReadStruct.StepKept | core/src/details/threadimpl/readstructimpl.c:98-102 | a loop turn that keeps the entry follows the walk |
| CReadStruct.AfterRemoving | core/src/details/threadimpl/readstructimpl.c:105-112 | a removed entry joins the list of removed entries |
| CReadStruct.WalkStep | core/src/details/threadimpl/readstructimpl.c:89-115 | one turn of the loop: step back after a removal, then remove or keep the entry at the counter |
| CReadStruct.IdsSnoc | core/src/details/threadimpl/readstructimpl.c:112 | the ids of the shut-down list grow by the removed entry's id |
| CTrampolines.FirstPosition | core/src/details/callbacks.c:90-107 | the first node holding t: it holds t and no node before it does |
| CTrampolines.RemoveFirstAbsent | core/src/details/callbacks.c:84-114 | removing a trampoline the list does not hold changes nothing |
| CTrampolines.RemoveFirstPresent | core/src/details/callbacks.c:92-106 | removing a held trampoline takes out exactly its first occurrence and keeps the others in order |
| CTrampolines.RemoveAt | core/src/details/callbacks.c:92-106 | unlinking the first position holding t is RemoveFirst |
| CTrampolines.LinksOf | core/src/details/callbacks.c:38-43 | a linked node chain starts at front, each node links to the next and the last to NULL |
| CTrampolines.FromLinks | core/src/details/callbacks.c:94-102 | nodes that link one to the next and end in NULL form the chain from front |
| CTrampolines.RemovedAt | core/src/details/callbacks.c:94-104 | taking out one node of a chain without repeats keeps the others, in order and without repeats |
| CTrampolines.TrampolineList.constructor | core/src/details/callbacks.c:24 | the static list starts empty |
| CTrampolines.TrampolineList.InitSubsystem | core/src/details/callbacks.c:26-31 | init sets front to NULL, so the list is empty, and returns SUCCESS |
| CTrampolines.TrampolineList.ShutdownSubsystem | core/src/details/callbacks.c:33-46 | shutdown frees every node front to back but leaves front pointing at the first freed node; SUCCESS |
| CTrampolines.TrampolineList.NotifyTrampolines | core/src/details/callbacks.c:48-62 | notify calls each trampoline once with (context, type, message), front to back, and returns SUCCESS |
| CTrampolines.TrampolineList.AddTrampoline | core/src/details/callbacks.c:64-82 | NULL gives INVALID and no change; any other function is prepended and SUCCESS returned |
| CTrampolines.TrampolineList.RemoveTrampoline | core/src/details/callbacks.c:84-114 | SUCCESS exactly when the function is not NULL and held, and then only its first node is unlinked from the chain and freed; otherwise INVALID, and the contents, the chain and the freed nodes are unchanged |
| CTrampolines.TrampolineList.Unlink | core/src/details/callbacks.c:94-104 | the previous node, or front, skips the matched node, which is freed; the others stay in order |
| CExternalApi.CompareExchange | core/include/substance/connector/details/atomic.h:29-34 | the builtin exchange leaves in `ret` the state found, and replaces the state by y exactly when that is x, so the caller's `ret == x` guard passes exactly when the exchange happened |
| CExternalApi.CompareExchangeNoAtomic | core/include/substance/connector/details/atomic.h:53-54 | the no-atomics exchange replaces the state as the builtin does, but `ret` keeps the caller's value when the state differs, so `ret == x` holds when the state was x or the caller's ret already was |
| CExternalApi.CompareExchangeGuards | core/include/substance/connector/details/atomic.h:29-34 | with the builtins, `ret == x` after the exchange holds exactly when the state was x, and only then is the state replaced by y |
| CExternalApi.NoAtomicGuardPassesWhenInitialized | core/include/substance/connector/details/atomic.h:53-54 | without atomics `ret` is left at its initial 0, so the SHUTDOWN guard of init and set_allocators passes on an initialized library, unlike the builtin |
| CExternalApi.NoAtomicCorrectedGuards | core/include/substance/connector/details/atomic.h:53-54 | a no-atomics exchange that always stores the state found equals the builtin exchange and guards exactly when the state was x |
| CExternalApi.FailAt | core/src/external_api.c:73-101 | the position of the first non-SUCCESS status: every earlier one succeeded and that one failed |
| CExternalApi.FirstFailureMeaning | core/src/external_api.c:139-178 | the chained status is SUCCESS exactly when every call succeeded, and otherwise a failing status whose predecessors all succeeded |
| CExternalApi.FailAtUnique | core/src/external_api.c:73-101 | any position whose predecessors succeeded and which failed is the first failure |
| CExternalApi.InitResults | core/src/external_api.c:71-101 | the seven statuses in call order |
| CExternalApi.ShutdownResults | core/src/external_api.c:139-178 | the seven statuses in call order |
| CExternalApi.InitCallCountMeaning | core/src/external_api.c:71-101 | init makes one to seven calls; all but the last succeeded, the last failed unless all seven were made, and the result is SUCCESS exactly when all seven were made and the last succeeded |
| CExternalApi.Connector.constructor | core/include/substance/connector/details/state.h:18-24 | the loaded library is SHUTDOWN with the default allocators |
| CExternalApi.Connector.Init | core/src/external_api.c:56-123 | from SHUTDOWN: the subsystem calls up to the first failure, that status returned, state INIT_FINISHED on success and INTERNAL_ERROR otherwise; any other state: ERROR and no change |
| CExternalApi.Connector.Shutdown | core/src/external_api.c:126-187 | from INIT_FINISHED: all seven calls, the first failure returned, allocators reset, state SHUTDOWN; any other state: ERROR and nothing called |
| CExternalApi.Connector.SetAllocators | core/src/external_api.c:190-221 | stores both functions only from SHUTDOWN and when neither is NULL, returning SUCCESS; otherwise INVALID and nothing stored; the state comes back unchanged |
| CExternalApi.Connector.WriteMessage | core/src/external_api.c:224-249 | SUCCESS exactly when initialized, with a type, a payload and the allocation; then the built message is queued outbound and the write flag raised; otherwise INVALID and nothing done |
| CExternalApi.Connector.Forward | core/src/external_api.c:252-420 | each forwarding call is made, and its status returned, only when INIT_FINISHED (and with a context pointer for the four that take one); close_context is always made; otherwise ERROR |
| CExternalApi.ShutdownSubsystems | core/src/external_api.c:139-178 | all seven shutdown calls are made in order and the first failure is returned |
| CExternalApi.FirstFailureSnoc | core/src/external_api.c:143-147 | one status further, a failure already found stays and SUCCESS gives way to the next status |
| CExternalApi.InitSubsystems | core/src/external_api.c:71-101 | the calls made are those up to the first failure, and its status is returned |
| CExternalApi.InitNext | core/src/external_api.c:73-76 | after a SUCCESS the next call is made |
| CExternalApi.InitDone | core/src/external_api.c:104-120 | the chain ends with the status and calls the specification functions give |
| CppUuid.Less | module-cpp/src/framework/uuid.cpp:26-30 | operator< holds exactly when the C core's connector_compare_uuid gives -1 |
| CppUuid.Equal | module-cpp/src/framework/uuid.cpp:32-36 | operator== holds exactly when the two identifiers are the same |
| CppUuid.LessIsStrictTotalOrder | module-cpp/src/framework/uuid.cpp:26-30 | the tuple order is irreflexive, transitive and orders any two different identifiers one way or the other |
| CppUuid.HexValueOfDigit | module-cpp/src/framework/uuid.cpp:50 | every digit std::hex prints is a hexadecimal digit, not a dash, whose value is the number printed |
| CppUuid.Hex | module-cpp/src/framework/uuid.cpp:50 | std::hex prints at least one digit |
| CppUuid.HexLength | module-cpp/src/framework/uuid.cpp:50-55 | a value below 16^w prints in at most w digits, so setw(w) only pads |
| CppUuid.PadHexIsFixed | module-cpp/src/framework/uuid.cpp:50-55 | setw(w) with fill '0' of a value below 16^w gives exactly its w low digits |
| CppUuid.UuidToStringFixed | module-cpp/src/framework/uuid.cpp:44-58 | the text is element 0 in 8 digits, the halves of elements 1 and 2 in 4 digits each and element 3 in 8 digits, dashes after the first four groups |
| CppUuid.UuidToString | module-cpp/src/framework/uuid.cpp:44-58 | the text has 36 characters, dashes exactly at 8, 13, 18 and 23 and lower-case hexadecimal digits elsewhere |
| CppUuid.NoDashes | module-cpp/src/framework/uuid.cpp:66-67 | the characters of the text other than '-', in order |
| CppUuid.GroupValueBound | module-cpp/src/framework/uuid.cpp:72-74 | eight characters read as hexadecimal fit an element |
| CppUuid.UuidFromString | module-cpp/src/framework/uuid.cpp:59-84 | the loop gives the four first complete groups of eight non-dash characters, read as hexadecimal, with 0 for elements it never reaches |
| CppUuid.UuidStringRoundTrip | module-cpp/src/framework/uuid.cpp:44-84 | uuidFromString of uuidToString gives the identifier back |
| CppJson.DecimalString | module-cpp/src/framework/schemas/connectionschema.cpp:59 | asString of a number is its decimal text, never empty |
| CppJson.AsString | module-cpp/src/framework/details/sendtoschema.cpp:52-55 | asString throws exactly for an array or an object and gives a string back unchanged |
| CppJson.AsBool | module-cpp/src/framework/details/sendtoschema.cpp:56 | asBool throws exactly for a string, an array or an object and gives a boolean back unchanged |
| CppJson.GetMember | module-cpp/src/framework/details/sendtoschema.cpp:52-56 | get throws exactly when the value is neither null nor an object; a present member is returned, otherwise the default |
| CppJson.IsMember | module-cpp/src/framework/schemas/sendmeshschema.cpp:189 | isMember throws for the same values as get and is true exactly for a key of an object |
| CppJson.ReadWritten | module-cpp/src/framework/details/sendtoschema.cpp:50-57 | a string or boolean member reads back as itself; a missing one as "" or false |
| CppCallbacks.Find | module-cpp/src/framework/details/callbacks.cpp:63-72 | the bound vector for a bound type, the empty vector otherwise |
| CppCallbacks.CallbackRegistry.constructor | module-cpp/src/framework/details/callbacks.cpp:32 | the static map starts empty |
| CppCallbacks.CallbackRegistry.BindCallback | module-cpp/src/framework/details/callbacks.cpp:34-45 | true exactly when the type was unbound, and then it is bound to the vector; otherwise the map is unchanged |
| CppCallbacks.CallbackRegistry.UnbindCallback | module-cpp/src/framework/details/callbacks.cpp:47-59 | true exactly when the type was bound; its entry is gone afterwards and no other changes |
| CppCallbacks.CallbackRegistry.FindCallbacks | module-cpp/src/framework/details/callbacks.cpp:63-72 | the lookup Find describes, changing nothing |
| CppCallbacks.BindThenFind | module-cpp/src/framework/details/callbacks.cpp:34-72 | after a bind the type finds the bound vector and every other type what it found before |
| CppCallbacks.UnbindThenFind | module-cpp/src/framework/details/callbacks.cpp:47-72 | after an unbind the type finds nothing and every other type what it found before |
| CppCallbacks.BindUnbindRestores | module-cpp/src/framework/details/callbacks.cpp:34-59 | binding then unbinding an unbound type restores the map |
| CppConnectionSchema.JsonTexts | module-cpp/src/framework/schemas/connectionschema.cpp:33-36 | one JSON string per feature id, in order |
| CppConnectionSchema.FeatureValue | module-cpp/src/framework/schemas/connectionschema.cpp:32-36 | null exactly when there are no features, otherwise the array of their texts |
| CppConnectionSchema.Serialized | module-cpp/src/framework/schemas/connectionschema.cpp:27-38 | the four members are set over the root and every other member is kept |
| CppConnectionSchema.AppendTexts | module-cpp/src/framework/schemas/connectionschema.cpp:33-36 | the loop appends the texts of all the ids, in order |
| CppConnectionSchema.FeatureArray | module-cpp/src/framework/schemas/connectionschema.cpp:32-36 | the value built is FeatureValue: null until something is appended |
| CppConnectionSchema.Serialize | module-cpp/src/framework/schemas/connectionschema.cpp:27-38 | the method leaves what Serialized describes |
| CppConnectionSchema.ReadFeatures | module-cpp/src/framework/schemas/connectionschema.cpp:65-69 | one id per element, and a throw exactly when some element is an array or an object |
| CppConnectionSchema.Deserialize | module-cpp/src/framework/schemas/connectionschema.cpp:57-71 | a throw is always a logic error that leaves the features as they were, and happens exactly when the root is neither null nor an object, a name holds an array or an object, or a feature element does; otherwise a name given as a string is that string and a missing one is "", and there is one id per element of `available_features` (an array's items, an object's values) |
| CppConnectionSchema.ObjectFeaturesInKeyOrder | module-cpp/src/framework/schemas/connectionschema.cpp:63-69 | features given as the object {"b": text of u2, "a": text of u1} are read in key order as [u1, u2], with the missing names reset to "" |
| CppConnectionSchema.FeaturesRoundTrip | module-cpp/src/framework/schemas/connectionschema.cpp:33-36 | the texts Serialize writes read back as the same ids |
| CppConnectionSchema.SerializeRoundTrip | module-cpp/src/framework/schemas/connectionschema.cpp:27-71 | Deserialize of what Serialize wrote gives the schema back, whatever the schema held before |
| CppConnectionSchema.MissingMembersDefault | module-cpp/src/framework/schemas/connectionschema.cpp:57-71 | an empty object resets the names to "" and the features to none |
| CppConnectionSchema.UnparsedKeeps | module-cpp/src/framework/schemas/connectionschema.cpp:40-55 | text that does not parse changes nothing |
| CppConnectionSchema.BadFeatureKeepsNames | module-cpp/src/framework/schemas/connectionschema.cpp:59-70 | a nested list among the features throws after the names were assigned: the names are kept and the old features stay |
| CppSendToSchema.Serialize | module-cpp/src/framework/details/sendtoschema.cpp:24-31 | the five members are set over the root and every other member is kept |
| CppSendToSchema.Deserialize | module-cpp/src/framework/details/sendtoschema.cpp:50-57 | the read ends in a fault, always a logic error that leaves the ownership flag as it was, exactly when the root is neither null nor an object, a string member holds a list or an object, or the flag holds a string, a list or an object; otherwise each string member given as a string is that string and a missing one is "", and the flag is the boolean given or false when missing |
| CppSendToSchema.LastIndexOf | module-cpp/src/framework/details/sendtoschema.cpp:74 | the position of the last '.' when there is one, and none exactly when there is none |
| CppSendToSchema.GetPathExtension | module-cpp/src/framework/details/sendtoschema.cpp:69-77 | the extension is a suffix of the path; for a path shorter than npos it is the whole path or the text after a '.', and holds no '.' |
| CppSendToSchema.IsPathFileExtension | module-cpp/src/framework/details/sendtoschema.cpp:79-82 | an extension that matches ends the path, and for a path shorter than npos holds no '.' |
| CppSendToSchema.SerializeRoundTrip | module-cpp/src/framework/details/sendtoschema.cpp:24-57 | Deserialize of what Serialize wrote gives the schema back |
| CppSendToSchema.MissingMembersDefault | module-cpp/src/framework/details/sendtoschema.cpp:50-57 | an empty object resets the strings to "" and the flag to false |
| CppSendToSchema.FirstThrowKeepsEarlier | module-cpp/src/framework/details/sendtoschema.cpp:52-53 | a path that is a list throws at once and changes nothing; a name that throws keeps the path already read |
| CppSendToSchema.UnparsedKeeps | module-cpp/src/framework/details/sendtoschema.cpp:33-48 | text that does not parse changes nothing |
| CppSendToSchema.ExtensionWithoutDot | module-cpp/src/framework/details/sendtoschema.cpp:69-77 | a path without '.' is its own extension, because npos + 1 wraps to 0 |
| CppSendToSchema.ExtensionAfterLastDot | module-cpp/src/framework/details/sendtoschema.cpp:69-77 | with a '.' the extension is the text after the last one and holds no '.' |
| CppSendToSchema.SuffixIsExtension | module-cpp/src/framework/details/sendtoschema.cpp:79-82 | a path stem + "." + ext, ext without '.', matches ext |
| CppCore.Insert | module-cpp/src/framework/core.cpp:120-123 | inserting a new address into the ordered set keeps it strictly increasing, adds one element and holds exactly the old ones and the new one |
| CppCore.RegistrationOrderIrrelevant | module-cpp/src/framework/core.cpp:120-123 | inserting a then b gives the set inserting b then a gives, so hook order depends only on addresses |
| CppCore.PointerOrderExample | module-cpp/src/framework/core.cpp:74-80 | an application at address 7 registered before one at 3 has its hooks run second |
| CppCore.HookEvents | module-cpp/src/framework/core.cpp:74-104 | one hook call per application, in set order |
| CppCore.HookLoop | module-cpp/src/framework/core.cpp:74-104 | the loop calls the hook on every application in set order |
| CppCore.FeatureWords | module-cpp/src/framework/core.cpp:129-138 | the text built from the first i elements is empty exactly when i is 0 |
| CppCore.FeatureStrings | module-cpp/src/framework/core.cpp:124-140 | one feature string per id, in order |
| CppCore.FeatureStringForm | module-cpp/src/framework/core.cpp:129-138 | a feature string is the four elements in unpadded lower-case hexadecimal joined by '-' |
| CppCore.AppendFeatureStrings | module-cpp/src/framework/core.cpp:124-140 | the loop appends the feature string of every id, in order, to the feature level |
| CppCore.FeatureText | module-cpp/src/framework/core.cpp:128-138 | the inner loop builds the feature string of one id |
| CppCore.FeatureStringExample | module-cpp/src/framework/core.cpp:129-138 | the id 1, 2, 3, 4 is advertised as "1-2-3-4", not in the 8-4-4-4-12 form |
| CppCore.FeatureStringParsesAsZero | module-cpp/src/framework/core.cpp:129-138 | uuidFromString reads "1-2-3-4" back as the zero id |
| CppCore.InitOutcome | module-cpp/src/framework/core.cpp:156-185 | init succeeds exactly from SHUTDOWN with a successful C init; from any other state nothing changes |
| CppCore.ShutdownOutcome | module-cpp/src/framework/core.cpp:197-222 | shutdown succeeds exactly from INITIALIZED with a successful C shutdown; from any other state nothing changes |
| CppCore.StuckAfterFailure | module-cpp/src/framework/core.cpp:172-181 | after a failed C init or shutdown no later call changes the state again |
| CppCore.NeverLeftAdding | module-cpp/src/framework/core.cpp:111-149 | no sequence of calls ends in ADDING_APPLICATION |
| CppCore.InitShutdownCycle | module-cpp/src/framework/core.cpp:156-222 | a successful init then shutdown brings the framework back to SHUTDOWN |
| CppCore.Invocations | module-cpp/src/framework/core.cpp:40-49 | at most one call per callback, each to a non-null pointer with the message's arguments |
| CppCore.InvocationsAppend | module-cpp/src/framework/core.cpp:42-48 | the calls for two vectors end to end are those of the first then those of the second |
| CppCore.InvocationsOfOne | module-cpp/src/framework/core.cpp:44-47 | a null pointer is skipped and any other is called once |
| CppCore.Trampoline | module-cpp/src/framework/core.cpp:34-50 | the trampoline calls each non-null callback bound to the type, in order, with the context, type and text |
| CppCore.UnboundTypeReachesNothing | module-cpp/src/framework/core.cpp:39-41 | a message whose type has no binding calls nothing |
| CppCore.Core.constructor | module-cpp/src/framework/core.cpp:68-72 | no applications, no features, state SHUTDOWN, empty names |
| CppCore.Core.ConnectionContext | module-cpp/src/framework/core.cpp:187-195 | the descriptor holds the stored names, the C version and the feature level |
| CppCore.Core.RegisterApplication | module-cpp/src/framework/core.cpp:111-149 | accepts exactly a non-null new application in SHUTDOWN, then inserts it and appends its feature strings; otherwise nothing changes; the state is put back |
| CppCore.Core.Init | module-cpp/src/framework/core.cpp:156-185 | the names are stored in every case; from SHUTDOWN the C init runs between preInit and, on success, the trampoline and postInit |
| CppCore.Core.InitSameId | module-cpp/src/framework/core.cpp:151-154 | the display name doubles as the id |
| CppCore.Core.Shutdown | module-cpp/src/framework/core.cpp:197-222 | from INITIALIZED preShutdown and the C shutdown run; on success postShutdown runs and the applications and features are forgotten |
| PyCallbacks.Lookup | module-python/lib/substanceconnector/framework/callbacks.py:9-18 | the callback registered for the type, or None when there is none |
| PyCallbacks.CallbackManager.constructor | module-python/lib/substanceconnector/framework/callbacks.py:6 | the class attribute starts as an empty map |
| PyCallbacks.CallbackManager.FindCallback | module-python/lib/substanceconnector/framework/callbacks.py:9-18 | the lookup, changing nothing |
| PyCallbacks.CallbackManager.ClearCallbacks | module-python/lib/substanceconnector/framework/callbacks.py:20-23 | the map becomes empty |
| PyCallbacks.CallbackManager.RegisterCallback | module-python/lib/substanceconnector/framework/callbacks.py:25-29 | the type is bound to the callback, replacing any earlier one; every other type is unchanged |
| PyCallbacks.CallbackManager.RemoveCallback | module-python/lib/substanceconnector/framework/callbacks.py:31-35 | a registered type is removed; an unregistered one raises KeyError and keeps the map |
| PyCallbacks.LastRegistrationWins | module-python/lib/substanceconnector/framework/callbacks.py:25-29 | registering twice for one type keeps only the second callback |
| PyCallbacks.RemoveAfterRegister | module-python/lib/substanceconnector/framework/callbacks.py:25-35 | removing after registering leaves the type unbound and every other type as it was |
| PyUuidUtils.ToIntegers | module-python/lib/substanceconnector/framework/uuid_utils.py:6-17 | the four integers are the uuid's digits in base 2**32, most significant first: their positional sum is the uuid integer |
| PyUuidUtils.AsInts | module-python/lib/substanceconnector/framework/uuid_utils.py:6-17 | the four elements as the Python integers they are |
| PyUuidUtils.FromIntegers | module-python/lib/substanceconnector/framework/uuid_utils.py:19-29 | a successful conversion is always a valid uuid integer |
| PyUuidUtils.BitOrShift | module-python/lib/substanceconnector/framework/uuid_utils.py:22-25 | or-ing a value shifted by k with one below 2**k adds them |
| PyUuidUtils.OrIsSum | module-python/lib/substanceconnector/framework/uuid_utils.py:22-25 | or-ing four 32-bit words into place is their positional sum |
| PyUuidUtils.Digits | module-python/lib/substanceconnector/framework/uuid_utils.py:11-15 | a uuid integer is the positional sum of the four words the masks extract |
| PyUuidUtils.IntegersRoundTrip | module-python/lib/substanceconnector/framework/uuid_utils.py:6-29 | converting a uuid to integers and back gives the same uuid |
| PyUuidUtils.UuidRoundTrip | module-python/lib/substanceconnector/framework/uuid_utils.py:6-29 | four 32-bit integers survive the trip to a uuid and back |
| PyUuidUtils.WordsToUuid | module-python/lib/substanceconnector/framework/uuid_utils.py:19-29 | four 32-bit integers convert to their positional sum without error |
| PyUuidUtils.UuidToWords | module-python/lib/substanceconnector/framework/uuid_utils.py:6-17 | the integers of a positional sum are its four terms |
| PyUuidUtils.FromIntegersIndexError | module-python/lib/substanceconnector/framework/uuid_utils.py:22-25 | IndexError exactly when fewer than four integers are given |
| PyUuidUtils.FromIntegersOversized | module-python/lib/substanceconnector/framework/uuid_utils.py:25-27 | a first element of 2**32 or more makes uuid.UUID raise ValueError |
| PyMessage.Process | module-python/lib/substanceconnector/framework/message.py:16-21 | at most one call, made exactly when the callback found for the message type is truthy, to that callback with the message's own context, type and text |
| PyMessage.ProcessCallsRegistered | module-python/lib/substanceconnector/framework/message.py:16-21 | process calls a registered truthy callback once with the message's own fields, and nothing when none is registered |
| PyMessage.ProcessReadsOneEntry | module-python/lib/substanceconnector/framework/message.py:16-21 | only the entry for the message's type matters |
| PyTrampoline.TrampolineManager.constructor | module-python/lib/substanceconnector/framework/trampoline.py:9 | no trampoline at first |
| PyTrampoline.TrampolineManager.Initialize | module-python/lib/substanceconnector/framework/trampoline.py:18-22 | the default trampoline is installed only when none is set |
| PyTrampoline.TrampolineManager.SetCustomTrampoline | module-python/lib/substanceconnector/framework/trampoline.py:24-29 | a truthy function replaces the trampoline; a falsy one is ignored |
| PyTrampoline.TrampolineManager.ResetTrampoline | module-python/lib/substanceconnector/framework/trampoline.py:31-34 | back to None |
| PyTrampoline.TrampolineManager.CallTrampoline | module-python/lib/substanceconnector/framework/trampoline.py:11-41 | no call without a trampoline; the default one processes the message through the callback map; a custom one is called with the arguments |
| PyTrampoline.InitializeKeepsExisting | module-python/lib/substanceconnector/framework/trampoline.py:18-22 | initialize never replaces a set trampoline, always leaves one set and is idempotent |
| PyTrampoline.CustomSurvivesInitialize | module-python/lib/substanceconnector/framework/trampoline.py:18-29 | a custom trampoline survives initialize and receives every message |
| PyTrampoline.FalsyCustomIgnored | module-python/lib/substanceconnector/framework/trampoline.py:28-29 | a falsy argument keeps the trampoline |
| PyTrampoline.ResetSilences | module-python/lib/substanceconnector/framework/trampoline.py:31-41 | after reset nothing is called |
| PyTrampoline.Dispatch | module-python/lib/substanceconnector/framework/trampoline.py:12-16 | at most one call, made exactly when the trampoline is truthy and is custom or finds a truthy callback; the call goes to the custom trampoline or to that callback and passes context, type and text through |
| PyTrampoline.DispatchCallsOnce | module-python/lib/substanceconnector/framework/trampoline.py:36-41 | at most one call, to the custom trampoline or, for the default, to the callback registered for the type |
| PySystem.SystemApplication.constructor | module-python/lib/substanceconnector/framework/system.py:18 | no peers at first |
| PySystem.SystemApplication.PostShutdown | module-python/lib/substanceconnector/framework/system.py:45-48 | every peer is forgotten |
| PySystem.SystemApplication.SendContext | module-python/lib/substanceconnector/framework/system.py:63-70 | one native write of the context schema's JSON, with the update-context type, to the connection; nothing else changes |
| PySystem.SystemApplication.RecvConnectionEstablished | module-python/lib/substanceconnector/framework/system.py:50-55 | for its own type the peer is entered with its context and an empty schema and sent this process's context; any other type changes nothing |
| PySystem.SystemApplication.RecvConnectionClosed | module-python/lib/substanceconnector/framework/system.py:57-61 | for its own type the peer is removed, and KeyError is raised, changing nothing, when it is not there |
| PySystem.SystemApplication.RecvContext | module-python/lib/substanceconnector/framework/system.py:72-84 | for its own type a well-formed context naming a known peer replaces that peer's schema; anything else is swallowed and changes nothing |
| PySystem.AfterEstablished | module-python/lib/substanceconnector/framework/system.py:50-55 | for its own type the named peer is entered, replacing any entry of that name, with the context and an empty schema, and every other peer is kept; any other type changes nothing |
| PySystem.AfterClosed | module-python/lib/substanceconnector/framework/system.py:57-61 | KeyError exactly for its own type and a name that is not there; otherwise exactly that peer is removed and the others keep their entries; any other type changes nothing |
| PySystem.AfterContext | module-python/lib/substanceconnector/framework/system.py:72-84 | the same peers with the same contexts; only the peer an accepted context names changes, to that schema; any other type, or a context not accepted, changes nothing |
| PySystem.AcceptedContext | module-python/lib/substanceconnector/framework/system.py:76-82 | a context is stored exactly when the decoded message is an object with the four members whose id_name is the string name of a known peer, and it is the schema built from those members |
| PySystem.HandshakeRecordsSchema | module-python/lib/substanceconnector/framework/system.py:50-82 | once a peer is entered, the context it sends back becomes its schema and its connection is kept |
| PySystem.SystemRouting | module-python/lib/substanceconnector/framework/system.py:20-28 | after registration each system type reaches its own handler |
| PyApplication.PreInit | module-python/lib/substanceconnector/framework/application.py:18-25 | the loop registers every pair of the callback list, in list order |
| PyApplication.RegisteredUntouched | module-python/lib/substanceconnector/framework/application.py:23-25 | afterwards the registered types are the old ones plus the listed ones, and an unlisted type keeps its callback |
| PyApplication.RegisteredLastWins | module-python/lib/substanceconnector/framework/application.py:24-25 | a listed type ends bound to its last callback in the list |
| PyApplication.BasePreInitChangesNothing | module-python/lib/substanceconnector/framework/application.py:10-16 | the base class's empty list registers nothing |
| PyConnectionSchema.ToJson | module-python/lib/substanceconnector/framework/connectionschema.py:24-27 | the JSON object has exactly the four attribute members |
| PyConnectionSchema.IsValid | module-python/lib/substanceconnector/framework/connectionschema.py:5-38 | as written, is_valid holds exactly when all four attributes, the features included, are strings |
| PyConnectionSchema.IsValidCorrected | module-python/lib/substanceconnector/framework/connectionschema.py:5-38 | with the features declared an array of strings, is_valid holds exactly when the three names are strings and the features an array of strings |
| PyConnectionSchema.SchemaJsonRoundTrip | module-python/lib/substanceconnector/framework/connectionschema.py:18-27 | a schema written by to_json is read back unchanged by the receiving side |
| PyConnectionSchema.FromJson | module-python/lib/substanceconnector/framework/system.py:77-81 | the receiving side builds a schema exactly from an object carrying all four members, whatever else it carries, and takes each attribute from its member |
| PyConnectionSchema.FeatureListRejected | module-python/lib/substanceconnector/framework/connectionschema.py:5-38 | a schema whose features are a list of strings never passes is_valid as written, and passes the corrected schema when its names are strings |
| PyJsonSchema.Get | module-python/lib/substanceconnector/framework/features/meshimport.py:90-104 | dict.get: the member when present, the default otherwise |
| PyJsonSchema.Strings | module-python/lib/substanceconnector/framework/instance.py:192 | one JSON string per name, in order |
| PyJsonSchema.NullFails | module-python/lib/substanceconnector/framework/connectionschema.py:29-38 | a member stored as None fails a string or boolean property, so validation fails |
| PyInstance.HookCalls | module-python/lib/substanceconnector/framework/instance.py:37-55 | one call of the hook per application, in list order |
| PyInstance.FeatureStrings | module-python/lib/substanceconnector/framework/instance.py:192 | one string per feature id, in order, each the id's str() |
| PyInstance.ApplicationManager.constructor | module-python/lib/substanceconnector/framework/instance.py:29-30 | an empty application list |
| PyInstance.ApplicationManager.RegisterApplication | module-python/lib/substanceconnector/framework/instance.py:32-35 | the application is appended |
| PyInstance.ApplicationManager.CallPreInit | module-python/lib/substanceconnector/framework/instance.py:37-40 | every application's pre_init, which is BaseApplication's, runs in order and registers that application's callback list |
| PyInstance.ApplicationManager.CallHook | module-python/lib/substanceconnector/framework/instance.py:42-55 | the hook of every application runs, in order |
| PyInstance.ApplicationManager.ClearApplications | module-python/lib/substanceconnector/framework/instance.py:57-60 | the list becomes empty |
| PyInstance.ConnectorInstance.constructor | module-python/lib/substanceconnector/framework/instance.py:77-81 | no name, SHUTDOWN, no context, no features, no applications |
| PyInstance.ConnectorInstance.RegisterApplication | module-python/lib/substanceconnector/framework/instance.py:83-93 | outside SHUTDOWN a ConnectorException; without feature ids a TypeError; otherwise its feature ids and the application are appended; the state never changes |
| PyInstance.ConnectorInstance.Initialize | module-python/lib/substanceconnector/framework/instance.py:95-137 | from SHUTDOWN: pre_init, the native init, and on success the trampoline, the default connection, the broadcast, the name and post_init, ending INITIALIZED; a failed native init ends in ERROR and raises; any other state raises and changes nothing |
| PyInstance.ConnectorInstance.InitializeFromShutdown | module-python/lib/substanceconnector/framework/instance.py:104-137 | the events are InitLog, the callbacks those of every pre_init, the trampoline initialized |
| PyInstance.ConnectorInstance.Shutdown | module-python/lib/substanceconnector/framework/instance.py:139-172 | from INITIALIZED: pre_shutdown, the callbacks cleared, the native shutdown, and on success name '', no context, post_shutdown, no applications, SHUTDOWN; a failed one ends in ERROR and raises; any other state raises and changes nothing |
| PyInstance.ConnectorInstance.ShutdownFromInitialized | module-python/lib/substanceconnector/framework/instance.py:147-172 | the events are ShutdownLog and the callbacks are cleared; the feature ids are kept |
| PyInstance.ConnectorInstance.WriteMessage | module-python/lib/substanceconnector/framework/instance.py:174-179 | one native write with the type as its four words; nothing else changes |
| PyInstance.ConnectorInstance.ConnectionContext | module-python/lib/substanceconnector/framework/instance.py:186-193 | the name as display and id name, the native version and one str() per feature id |
| PyInstance.ConnectorInstance.NativeTrampoline | module-python/lib/substanceconnector/framework/instance.py:19-24 | the words are converted back to a uuid, whose errors propagate, and the message is handed to call_trampoline |
| PyInstance.InitLogOrder | module-python/lib/substanceconnector/framework/instance.py:104-137 | every pre_init comes first, then the native init; post_init comes after, and never when the native init failed |
| PyInstance.ShutdownLogOrder | module-python/lib/substanceconnector/framework/instance.py:147-172 | every pre_shutdown first, then the callbacks cleared, then the native shutdown; post_shutdown after, and never when it failed |
| PyInstance.ErrorIsFinal | module-python/lib/substanceconnector/framework/instance.py:83-172 | once in ERROR every lifecycle call raises and the state stays ERROR |
| PyInstance.RunStaysAtRest | module-python/lib/substanceconnector/framework/instance.py:95-172 | between calls the state is SHUTDOWN, INITIALIZED or ERROR |
| PyInstance.InitializeShutdownCycle | module-python/lib/substanceconnector/framework/instance.py:83-172 | registrations, a successful initialize and a successful shutdown bring the instance back to SHUTDOWN |
| PyInstance.RunRegistrations | module-python/lib/substanceconnector/framework/instance.py:83-93 | registrations never change the state |
| PyInstance.WrittenTypeReceived | module-python/lib/substanceconnector/framework/instance.py:19-24 | a message written with write_message and handed back reaches the trampoline with the type it was written with |
| PyInstance.FeatureStringsParse | module-python/lib/substanceconnector/framework/instance.py:192 | each feature string reads back, as a C++ peer parses it, to the id's four words |
| PyInstance.OwnContextRejected | module-python/lib/substanceconnector/framework/instance.py:186-193 | the instance's own context never passes is_valid as written, and passes the corrected schema exactly when it has a name |
| PyMeshImport.Names | module-python/lib/substanceconnector/framework/features/meshimport.py:70-78 | the member names of the enum, in definition order |
| PyMeshImport.Values | module-python/lib/substanceconnector/framework/features/meshimport.py:72 | the member values of the enum, in definition order |
| PyMeshImport.MeshImportFromString | module-python/lib/substanceconnector/framework/features/meshimport.py:115-119 | text that is not JSON raises; any other text gives a MeshImportMessageSchema |
| PyMeshImport.NewMeshConfigRequest | module-python/lib/substanceconnector/framework/features/meshimport.py:143-147 | a non-dict raises AttributeError; otherwise the object holds exactly assetName (None when missing) and assetUuid ("" when missing) |
| PyMeshImport.NewAssetMessage | module-python/lib/substanceconnector/framework/features/meshimport.py:186-194 | a non-dict raises; otherwise the object has the class and the five attributes; a path, name, type or ownership flag that is present is copied; when missing, the path is None, the name "", the type the class's default and take_file_ownership False; the uuid is the "id" value unless that is missing or "", when it is the fresh uuid4 string, so it is never empty when the fresh one is not |
| PyMeshImport.AssetFromString | module-python/lib/substanceconnector/framework/features/meshimport.py:201-205 | from_string always raises, passing four arguments to a one-argument constructor |
| PyMeshImport.MeshImportRulesShape | module-python/lib/substanceconnector/framework/features/meshimport.py:89-104 | the constructor assigns each attribute once, and the supportedFormats assignment is followed by an enum lookup |
| PyMeshImport.KeyUntouched | module-python/lib/substanceconnector/framework/features/meshimport.py:89-107 | an attribute no assignment names keeps its state |
| PyMeshImport.StoredIff | module-python/lib/substanceconnector/framework/features/meshimport.py:89-107 | an attribute is set exactly when its own assignment stores a value and no earlier one raised, and then it holds that value |
| PyMeshImport.StepIdempotent | module-python/lib/substanceconnector/framework/features/meshimport.py:90-104 | an assignment that reads back a value it stored stores it again |
| PyMeshImport.Replay | module-python/lib/substanceconnector/framework/features/meshimport.py:89-107 | rebuilding from the attributes stored rebuilds the same attributes |
| PyMeshImport.MeshImportRoundTrip | module-python/lib/substanceconnector/framework/features/meshimport.py:110-119 | from_string of to_json makes the same object again |
| PyMeshImport.MeshImportAttributes | module-python/lib/substanceconnector/framework/features/meshimport.py:88-106 | a non-dict leaves no attribute set (the first `.get` raises and is caught); for a dict assetName and assetUuid are always set, to the members or None |
| PyMeshImport.NameConforms | module-python/lib/substanceconnector/framework/features/meshimport.py:94-101 | an enum attribute that was set is one of its enum's names |
| PyMeshImport.NamesConform | module-python/lib/substanceconnector/framework/features/meshimport.py:92-93 | a supportedFormats that was set is a list of FileFormat names |
| PyMeshImport.EnumName | module-python/lib/substanceconnector/framework/features/meshimport.py:94-101 | an enum lookup succeeds exactly on a string that is a member's name and gives it back; a member's value, a number, always raises |
| PyMeshImport.EnumNames | module-python/lib/substanceconnector/framework/features/meshimport.py:92-93 | the list comprehension gives a list of member names: the list itself when it was given a list all of whose elements are names, one name per character of a string; null, a boolean or a number raises |
| PyMeshImport.StoredRuleValue | module-python/lib/substanceconnector/framework/features/meshimport.py:89-104 | a set attribute is a copy of the member or, for an enum, of its property's form |
| PyMeshImport.RuleIndex | module-python/lib/substanceconnector/framework/features/meshimport.py:65-84 | every schema property is assigned by the constructor |
| PyMeshImport.CorrectedSchemaFollowsRules | module-python/lib/substanceconnector/framework/features/meshimport.py:65-104 | the corrected schema describes every attribute with the form its assignment gives it |
| PyMeshImport.WellTypedValidCorrected | module-python/lib/substanceconnector/framework/features/meshimport.py:65-108 | with the corrected schema, an object built from a request whose plain members have their types is valid however far the assignments got |
| PyMeshImport.ColorEncodingNeverValid | module-python/lib/substanceconnector/framework/features/meshimport.py:72-95 | as written, an object whose colorEncoding was set is never valid: a name is stored where the schema lists the values 0 and 1 |
| PyMeshImport.CompleteRequestRejected | module-python/lib/substanceconnector/framework/features/meshimport.py:65-108 | a complete, well-formed request is invalid as written and valid with the corrected schema |
| PyMeshImport.MissingNameInvalid | module-python/lib/substanceconnector/framework/features/meshimport.py:90-91 | a missing assetName or assetUuid is stored as None and fails both schemas |
| PyMeshImport.MeshConfigFromString | module-python/lib/substanceconnector/framework/features/meshimport.py:154-158 | as written, text that is not JSON raises, and any other text gives a MeshImportMessageSchema, never the config request class |
| PyMeshImport.MeshConfigFromStringCorrected | module-python/lib/substanceconnector/framework/features/meshimport.py:141-158 | corrected, from_string raises only for text that is not JSON or not a dict, and otherwise gives a MeshConfigRequestSchema |
| PyMeshImport.MeshConfigFromStringWrongClass | module-python/lib/substanceconnector/framework/features/meshimport.py:154-158 | as written, reading back a config request gives a MeshImportMessageSchema |
| PyMeshImport.MeshConfigRoundTrip | module-python/lib/substanceconnector/framework/features/meshimport.py:141-158 | corrected, reading back a config request gives the same object |
| PyMeshImport.MeshConfigValidIff | module-python/lib/substanceconnector/framework/features/meshimport.py:132-169 | a config request is valid exactly when its assetName and assetUuid are strings |
| PyMeshImport.AssetValidIff | module-python/lib/substanceconnector/framework/features/meshimport.py:172-216 | an asset object is valid exactly when its path, name, uuid and type are strings and its flag a boolean; a missing path always fails |
| PyMeshImport.AssetFromStringFails | module-python/lib/substanceconnector/framework/features/meshimport.py:201-205 | as written from_string raises TypeError for any dict; corrected it returns what the constructor makes |
| PyMeshImport.AssetReadBack | module-python/lib/substanceconnector/framework/features/meshimport.py:186-205 | corrected, reading back an asset object keeps everything but the uuid, which is written as "uuid", read from "id" and so replaced |
| PySbsarImport.NewSbsarImport | module-python/lib/substanceconnector/framework/features/sbsarimport.py:25-35 | a non-dict raises; otherwise the object has the five attributes, the path copied or None, and the type "material" when the request names none |
| PySbsarImport.RecvImportSbsar | module-python/lib/substanceconnector/framework/features/sbsarimport.py:71-75 | raises exactly when the message is not JSON |
| PySbsarImport.SendImportSbsar | module-python/lib/substanceconnector/framework/features/sbsarimport.py:77-96 | the class, the file and the schema are checked in order; only when all pass is the JSON written with the import type and True returned |
| PySbsarImport.SendImportSbsarString | module-python/lib/substanceconnector/framework/features/sbsarimport.py:98-101 | always raises: from_string raises before anything is sent |
| PySbsarImport.SendOutcome | module-python/lib/substanceconnector/framework/features/sbsarimport.py:77-96 | any other class gives False; True exactly for a valid SBSAR object whose path is a file; AttributeError or TypeError exactly for an SBSAR object without a path or whose path is None, a list or a dict |
| PySbsarImport.SendConstructed | module-python/lib/substanceconnector/framework/features/sbsarimport.py:25-96 | for a constructed object True exactly when its path is a file and its members have their types; no path raises TypeError |
| PySbsarImport.SbsarRouting | module-python/lib/substanceconnector/framework/features/sbsarimport.py:65-72 | the import type reaches recv_import_sbsar and the update type reaches nothing |
| CppSendMeshSchema.Name | module-cpp/src/framework/schemas/sendmeshschema.cpp:98-139 | operator[] on a name table gives the enumerator's name, or "" for a value the table does not hold |
| CppSendMeshSchema.FindKey | module-cpp/src/framework/schemas/sendmeshschema.cpp:170-178 | getKeyFromValue gives the first enumerator in key order carrying the name, and is undefined exactly when no enumerator carries it |
| CppSendMeshSchema.FindKeyOfName | module-cpp/src/framework/schemas/sendmeshschema.cpp:170-178 | with distinct names, looking up an enumerator's name gives that enumerator |
| CppSendMeshSchema.FileFormatsDistinct | module-cpp/src/framework/schemas/sendmeshschema.cpp:39-53 | the thirteen file format names are pairwise distinct |
| CppSendMeshSchema.FileFormatNameRead | module-cpp/src/framework/schemas/sendmeshschema.cpp:39-53 | a file format's name reads back as that format |
| CppSendMeshSchema.ColorFormatNameRead | module-cpp/src/framework/schemas/sendmeshschema.cpp:33-37 | a colour format's name reads back as that format |
| CppSendMeshSchema.ColorEncodingNameRead | module-cpp/src/framework/schemas/sendmeshschema.cpp:28-31 | a colour encoding's name reads back as that encoding |
| CppSendMeshSchema.AxisConventionNameRead | module-cpp/src/framework/schemas/sendmeshschema.cpp:56-59 | an axis convention's name reads back as that convention |
| CppSendMeshSchema.UnitNameRead | module-cpp/src/framework/schemas/sendmeshschema.cpp:61-70 | a unit's name reads back as that unit |
| CppSendMeshSchema.TopologyNameRead | module-cpp/src/framework/schemas/sendmeshschema.cpp:72-75 | a topology's name reads back as that topology |
| CppSendMeshSchema.FileFormatNameNonEmpty | module-cpp/src/framework/schemas/sendmeshschema.cpp:39-53 | no file format has the empty name |
| CppSendMeshSchema.KeysDistinct | module-cpp/src/framework/schemas/sendmeshschema.cpp:85-155 | no two members are written under the same key |
| CppSendMeshSchema.Names | module-cpp/src/framework/schemas/sendmeshschema.cpp:94-100 | the format loop appends one name per format, in list order |
| CppSendMeshSchema.AppendNames | module-cpp/src/framework/schemas/sendmeshschema.cpp:94-100 | the loop leaves exactly the names of the formats, in order |
| CppSendMeshSchema.Serialize | module-cpp/src/framework/schemas/sendmeshschema.cpp:85-155 | the object holds the name and then each member in turn, as Serialized describes |
| CppSendMeshSchema.WriteFromLookup | module-cpp/src/framework/schemas/sendmeshschema.cpp:89-154 | after the member blocks a member's key holds what its own block wrote, or what it held before when that block wrote nothing |
| CppSendMeshSchema.SerializedName | module-cpp/src/framework/schemas/sendmeshschema.cpp:87 | assetName is always written |
| CppSendMeshSchema.SerializedMembers | module-cpp/src/framework/schemas/sendmeshschema.cpp:89-154 | a member's key is present exactly when the member is present, a format list only when it is not empty, and holds the member's JSON form |
| CppSendMeshSchema.ReadNames | module-cpp/src/framework/schemas/sendmeshschema.cpp:196-201 | when no element fails, one format is read per element |
| CppSendMeshSchema.AbsentFieldUntouched | module-cpp/src/framework/schemas/sendmeshschema.cpp:184-257 | a block whose key is missing changes nothing |
| CppSendMeshSchema.AbsentFromUntouched | module-cpp/src/framework/schemas/sendmeshschema.cpp:184-258 | when no block finds its key nothing but the name changes |
| CppSendMeshSchema.DeserializeAsWritten | module-cpp/src/framework/schemas/sendmeshschema.cpp:180-259 | as written, a root that is neither null nor an object throws a logic error and changes nothing; a name given as a string, or missing, is read as that string or ""; the supported formats are left alone or reset to nullopt, and left alone whenever nothing throws |
| CppSendMeshSchema.Deserialize | module-cpp/src/framework/schemas/sendmeshschema.cpp:180-259 | with the formats block corrected, the same name and root cases hold, std::bad_optional_access is never raised, and a schema whose enumeration members hold enumerators keeps that property |
| CppSendMeshSchema.OnlyNamePresent | module-cpp/src/framework/schemas/sendmeshschema.cpp:180-259 | an object holding only a name sets the name and keeps every optional member |
| CppSendMeshSchema.NamesRoundTrip | module-cpp/src/framework/schemas/sendmeshschema.cpp:94-201 | format names written from a table of distinct names read back as the same enumerators |
| CppSendMeshSchema.ReadValueRoundTrip | module-cpp/src/framework/schemas/sendmeshschema.cpp:85-258 | every value Serialize writes reads back as the member it came from |
| CppSendMeshSchema.ReadFieldRoundTrip | module-cpp/src/framework/schemas/sendmeshschema.cpp:184-258 | each block reads back what Serialize wrote for its member, in the corrected version, and also as written when no formats were written |
| CppSendMeshSchema.SerializeRoundTrip | module-cpp/src/framework/schemas/sendmeshschema.cpp:85-259 | with the formats block corrected, reading what Serialize wrote restores every member written, over any previous schema, and keeps the previous value of the members not written |
| CppSendMeshSchema.SerializeRoundTripAsWritten | module-cpp/src/framework/schemas/sendmeshschema.cpp:157-259 | as written, from the text entry point too, the round trip restores every member written over any previous schema when the schema holds no formats or an empty list, the only schemas whose as-written formats block finishes without a fault |
| CppSendMeshSchema.SerializeFormatsThrowAsWritten | module-cpp/src/framework/schemas/sendmeshschema.cpp:180-203 | as written, the round trip of a schema with a non-empty format list reads the name and the uuid back, leaves the formats reset to nullopt and throws std::bad_optional_access |
| CppSendMeshSchema.SerializeRoundTripEmpty | module-cpp/src/framework/schemas/sendmeshschema.cpp:77-259 | into a default-constructed schema the round trip gives the schema back when its format list, if any, is not empty |
| CppSendMeshSchema.UnknownEnumUndefined | module-cpp/src/framework/schemas/sendmeshschema.cpp:205-208 | a colour format name not in the table dereferences end(), with the name already read kept |
| CppSendMeshSchema.ReadFormatsAsWritten | module-cpp/src/framework/schemas/sendmeshschema.cpp:189-203 | as written, the formats block never assigns a list; it ends without a fault only when it leaves the member as it was, resets it only on the way to a fault, is undefined for an empty array, an empty object or a scalar, and ends in std::bad_optional_access for a non-empty array whose first element is a file format's name |
| CppSendMeshSchema.ReadFormats | module-cpp/src/framework/schemas/sendmeshschema.cpp:189-203 | corrected, the block assigns a list exactly when the value is a non-empty array whose first element has non-empty text; the list holds only file formats, one per element when nothing fails, and the empty optional is never reached |
| CppSendMeshSchema.ReadEnum | module-cpp/src/framework/schemas/sendmeshschema.cpp:205-243 | an enumeration member read by name gives an enumerator of its table whose name is the value's text; a failure is a logic error or the undefined dereference of end() |
| CppSendMeshSchema.ReadField | module-cpp/src/framework/schemas/sendmeshschema.cpp:184-258 | one `isMember` block keeps the name, keeps a schema's enumeration members within their tables, never raises std::bad_optional_access when corrected, touches the formats as written only by a reset on the way to a fault, and changes nothing for a null root |
| CppSendMeshSchema.ReadValue | module-cpp/src/framework/schemas/sendmeshschema.cpp:184-258 | the body of a block keeps the same properties for the member value it is given |
| CppSendMeshSchema.ReadFrom | module-cpp/src/framework/schemas/sendmeshschema.cpp:184-258 | the blocks from a position on keep those properties up to the first failure, and a null root changes nothing |
| CppSendMeshSchema.DeserializeWith | module-cpp/src/framework/schemas/sendmeshschema.cpp:180-259 | either version reads the name first: a root neither null nor an object, or a name holding a list or an object, throws a logic error and changes nothing; a null root resets only the name to ""; a string or missing name is read as that string or "" |
| CppSendMeshSchema.ArrayFormatsAsWritten | module-cpp/src/framework/schemas/sendmeshschema.cpp:189-203 | as written, a non-empty array of formats is read through its first element: a list or object there is a logic error, null or "" leaves the member as it was without fault, a non-empty name that is no file format resets the member to nullopt and is undefined, and a file format's name resets the member and throws std::bad_optional_access |
| CppSendMeshSchema.ObjectFormatsAsWritten | module-cpp/src/framework/schemas/sendmeshschema.cpp:189-203 | as written, an object of formats is read through its first member in key order: an array or object there is a logic error, null or "" leaves the member as it was without fault, any other value resets the member to nullopt and then throws a logic error |
| CppSendMeshSchema.ObjectFormatRequestAsWritten | module-cpp/src/framework/schemas/sendmeshschema.cpp:180-259 | as written, a request whose formats are the object {"k": ""} reads the name and the colour format and leaves the formats unset, without fault |
| CppSendMeshSchema.FormatsReadCorrected | module-cpp/src/framework/schemas/sendmeshschema.cpp:189-203 | corrected, every non-empty list of format names reads back as its formats |
| CppSendMeshSchema.OneFormatAsWritten | module-cpp/src/framework/schemas/sendmeshschema.cpp:192-200 | as written, reading ["fbx"] resets the member to nullopt and throws std::bad_optional_access at the first emplace |
| CppSendMeshSchema.OneFormatRequestAsWritten | module-cpp/src/framework/schemas/sendmeshschema.cpp:180-203 | as written, the request with the name "a" and the formats ["fbx"] reads the name, leaves the formats reset to nullopt and throws std::bad_optional_access |
| CppSendMeshSchema.OneFormatRequest | module-cpp/src/framework/schemas/sendmeshschema.cpp:180-259 | corrected, the same request reads the name "a" and the format fbx and keeps every other member |
| CppSendMeshSchema.UnparsedKeeps | module-cpp/src/framework/schemas/sendmeshschema.cpp:157-168 | text that does not parse changes nothing |
| CppSendMeshSchema.ConfigSerialize | module-cpp/src/framework/schemas/sendmeshschema.cpp:279-287 | the config request writes its name always and its uuid exactly when present |
| CppSendMeshSchema.ConfigDeserialize | module-cpp/src/framework/schemas/sendmeshschema.cpp:302-310 | a throw, always a logic error that keeps the uuid, happens exactly when the root is neither null nor an object or a member holds a list or an object; a string name is read as itself and a missing one as ""; a string uuid is taken, a missing one keeps the old |
| CppSendMeshSchema.ConfigRoundTrip | module-cpp/src/framework/schemas/sendmeshschema.cpp:279-310 | reading what Serialize wrote gives the name and a present uuid back and keeps the old uuid when absent; unparsed text changes nothing |

## Left out

- Sockets, byte I/O, threads, the dispatch loop, the filesystem and the connection directory are not part of this model. The C core's init and shutdown call these subsystems; each call is recorded and its status is a parameter.
- CUintQueue.UintQueue: whether `queue->array` has been assigned, and whether destroy freed a pointer it must not, are ghost fields; the indeterminate values malloc leaves in the other fields are left unconstrained.
- Atomics and mutexes: one thread at a time is modelled, so each compare-exchange is a plain test and update and the locked queue has no lock.
- Allocation failure is a parameter where the code checks it (`uint_queue_create`, `connector_build_message`). Elsewhere, as in `connector_strdup` and `connector_add_trampoline`, the allocation is taken to succeed, as the code assumes.
- JSON text is not modelled: a payload is the value it encodes. Whether text parses is a parameter (`Option<Json>`), and `GetJsonString` and `json.dumps` formatting are left out.
- Numbers in JSON are integers; floating point does not occur in the modelled payloads.
- Python `pre_init` is modelled as BaseApplication's, which registers the application's callback list; no application in the source overrides it. The other application hooks (`post_init`, `pre_shutdown`, `post_shutdown`, and the C++ `preInit`, `postInit`, ...) are recorded by name and order only, not what they do.
- What `connector.init`, `connector.shutdown`, `connector_init` and `connector_shutdown` return is a parameter, and so are `os.path.isfile` and `uuid.uuid4()`.
- Python `print` calls (the SBSAR receive handler, error reports) are left out: they only write to the console.
- The Windows build of `connector_path_join` (wide characters, `\` delimiter) is not modelled; the POSIX build is.
- string_map.c, context_queue.c, available_queue.c, message_queue.c, internal_messages.c, configuration.c and memory.c are not part of this model. They are thin wrappers or stubs over the modelled queues and allocators.
- The C++ feature wrappers (sendmesh.cpp, sendsbsar.cpp, export.cpp, system.cpp, livelink.cpp) and application.cpp are not part of this model; they only forward to the framework's `write_message`.
- The Python MeshImportApplication and the framework-level assetimport.py, meshimport.py, substanceimport.py and rawdata.py are not part of this model; they follow the patterns of the modelled features/meshimport.py and features/sbsarimport.py.
- Enumerations are modelled by their underlying values (`nat` indices in name tables), so an out-of-range enumerator can only arise through that representation.
- PyMeshImport.EnumNames: a non-empty dict given for supportedFormats is modelled as raising. Python would iterate its keys, and dict key order is not modelled.
- CppSendMeshSchema.Serialize: modelled into an empty `Json::Value`, as `GetJsonString` calls it. Serializing into an object that already holds `supportedFormats` would append to the old array.
- CppSendMeshSchema.ReadFormatsAsWritten: `end().index()` of an array or object is read as a number at least 0, so that the loop makes its first pass; for an object the const `operator[](ArrayIndex)` is read as jsoncpp's logic error for indexing a non-array. These are the most favourable readings; jsoncpp does not specify the code's behaviour there. Whatever the bound, no pass can complete: the first pass throws.
- CppUuid.UuidFromString: a group is read as the value of the hexadecimal digits it starts with. Stream extraction would also skip leading whitespace and accept a sign or a `0x` prefix; groups of that shape are not modelled faithfully.
- PyInstance.ConnectorInstance.Shutdown: `_feature_level` is kept across a shutdown, as the code does. A second registration after a restart therefore appends to the old feature list.
- PySbsarImport.SendImportSbsarString: modelled as always raising, because `from_string` raises before anything is sent.
- The header details/connectionschema.h declares a different struct, `Details::connection_schema`, whose features are strings. The model follows `Schemas::connection_schema` as connectionschema.cpp defines it, with the features held as identifiers; the header schemas/connectionschema.h is not part of this model.

## Findings

| source | as written | input that shows it | evidently intended | confidence | as-written member | corrected member |
|---|---|---|---|---|---|---|
| core/src/details/connection_utils.c:102-131 | the switch assigns the poll code to the parameter `errorcode` and returns `retcode`, which is still POLL_EUNKNOWN | EBADF gives POLL_EUNKNOWN, not POLL_EBADF | return the code the switch picks | high, not executed | CConnectionUtils.ConvertNetworkErrorIgnoresInput | CConnectionUtils.IntendedDistinguishesErrors |
| core/src/details/string_utils.c:48-72 | for n <= strlen(s)+1 exactly n bytes are copied and no terminator is added | `connector_strndup("abc", 2)` gives 'a', 'b' with no NUL | copy at most n characters and always terminate | high, not executed | CStringUtils.StrndupUnterminated | CStringUtils.StrndupIntendedTerminated |
| core/src/details/uint_queue.c:28-31 | positions are 32-bit counters taken modulo the slot count, which is not a power of two | six slots with the counters near 2**32: seven pushes all succeed and the third pop returns 7 instead of 3 | keep positions below the slot count, so the queue stays first-in first-out | medium, not executed | CUintQueue.WrapBreaksFifo | CUintQueue.PopCorrectedTakesFront |
| core/src/details/uint_queue.c:120-152 | for a zero request `queue->array` is never assigned, yet destroy frees it; the freed queue is returned | `connector_uint_queue_create(0)` | return NULL when the queue could not be set up, freeing only what was allocated | high, not executed | CUintQueue.Create | CUintQueue.CreateCorrected |
| core/src/details/uint_queue.c:133-135 | the slot count `size + 1 + ((size & 1) ^ 1)` wraps to zero in uint32_t | `connector_uint_queue_create(0xFFFFFFFF)` with a non-NULL `malloc(0)`: a queue of zero slots is returned, and push and pop then take a remainder by zero | reject requests whose slot count wraps | low, not executed | CUintQueue.Create | CUintQueue.CreateCorrected |
| core/src/details/threadimpl/readstructimpl.c:80-118 | after swap-with-last removal the loop moves on, so the context swapped in is not looked at | two contexts that are both shutting down: the second survives | look at the same slot again after a removal | high, not executed | CReadStruct.CleanupSkipsSwapped | CReadStruct.CleanupCorrectedRemovesAll |
| core/src/details/locked_queue.c:39-54 | clear sets `front` to NULL but leaves `end` | enqueue, clear, then enqueue a node at the freed node's address: the node links to itself | reset `end` too | high, not executed | CLockedQueue.StaleEndAfterClear | CLockedQueue.FreshEndAfterClearCorrected |
| core/include/substance/connector/details/atomic.h:53-54 | without atomics `ret` is written only when the state matches | init while initialized: `ret` keeps its initial 0, which equals STATE_SHUTDOWN, so the guard passes | always store the state found in `ret`, as the builtins do | high, not executed | CExternalApi.NoAtomicGuardPassesWhenInitialized | CExternalApi.NoAtomicCorrectedGuards |
| module-cpp/src/framework/schemas/sendmeshschema.cpp:189-203 | `supportedFormats = {};` at line 195 resets the optional to nullopt, so `supportedFormats.value()` at line 200 throws std::bad_optional_access on the first pass; the loop also runs to `end().index()` inclusive and dereferences `begin()` before checking the array | `{"assetName": "a", "supportedFormats": ["fbx"]}` resets the formats to nullopt and throws std::bad_optional_access | `supportedFormats.emplace();` at line 195, a loop that visits each element once, and an empty array skipped | high, not executed | CppSendMeshSchema.OneFormatRequestAsWritten | CppSendMeshSchema.OneFormatRequest |
| module-python/lib/substanceconnector/framework/features/meshimport.py:72 | the colorEncoding enum lists the member values 0 and 1, but the constructor stores the member name | a complete request with colorEncoding "Linear" is never valid | list the member names, as the other enums do | high, not executed | PyMeshImport.CompleteRequestRejected | PyMeshImport.WellTypedValidCorrected |
| module-python/lib/substanceconnector/framework/connectionschema.py:11 | `available_features` is declared a string | the context every instance sends, whose features are a list, is never valid | declare an array of strings | high, not executed | PyConnectionSchema.FeatureListRejected | PyInstance.OwnContextRejected |
| module-python/lib/substanceconnector/framework/features/meshimport.py:154-158 | MeshConfigRequestSchema.from_string builds a MeshImportMessageSchema | any config request read back from text | build a MeshConfigRequestSchema | high, not executed | PyMeshImport.MeshConfigFromStringWrongClass | PyMeshImport.MeshConfigRoundTrip |
| module-python/lib/substanceconnector/framework/features/meshimport.py:201-205 | from_string passes four positional arguments to a one-argument constructor | any asset message read back from text raises TypeError | pass the decoded dict | high, not executed | PyMeshImport.AssetFromStringFails | PyMeshImport.AssetReadBack |
