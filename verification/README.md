# Verified models of cephtrace

cephtrace attaches eBPF probes to Ceph daemons and clients and turns what they record into
latencies. This project models its logic in Dafny 4.11 and proves properties of the models.
`dafny verify dfyconfig.toml` checks all of it.

| area | files |
|---|---|
| osdtrace's probes as steps over three LRU maps, and what holds over every run | `OsdTypes`, `OsdSpec`, `OsdTracer`, `OsdRuns`, `OsdFields`, `OsdHistory`, `OsdStamps`, `OsdLedger`, `OsdBindings`, `OsdLatency`, `OsdDetail`, `DetailInRuns` |
| member paths: DWARF search, compiler, kernel-side interpreter, radostrace's collapsed form, argument slots | `TypeGraph`, `MemberRelation`, `MemberOffset`, `VarPath`, `PathMeaning`, `PathAcceptance`, `PathWitnesses`, `RadosLayout`, `AbiSlots`, `PsAbi` |
| radostrace from start to stop; kfstrace's two-phase MDS replies | `RadosTracer`, `RadosRuns`, `MdsTracer`, `MdsRuns` |
| loading DWARF data from JSON and from the generated table; exporting it | `Documents`, `EmbeddedTable`, `Loading`, `RoundTrip`, `TableLimits` |
| analysis and output | `Greedy`, `ObjectNames`, `Patterns`, `OpRows`, `OldRows`, `PrintedEvents`, `DroppedRows`, `Utf8`, `RowNames`, `DetailText`, `CsvRows` |
| shared | `Words`, `Folding`, `ClassCalls` |

How the models are built:

- A probe is a method of a class holding the BPF maps as fields; it looks up, inserts, rewrites and
  deletes entries in the order the C code does. Each is proved equal to one step of a specification
  that is organised differently: which op an event reaches, what happens to that op's record, whether
  it leaves the map, and what happens to the bindings. The results over whole runs are lemmas about
  that step, for any interleaving of threads and, for osdtrace, any eviction at any moment.
- What a specification says is stated once more on its own terms, with the source's own numbers: the
  fields of a record by the events of its op, one field and one kind of event at a time (`OsdFields`),
  and the maps by lists of events (`OsdHistory`); each latency by its two stamps; where a member is by a
  relation on the children of a type (`MemberRelation`); which paths are accepted by the graph alone
  (`PathAcceptance`); the calling convention by its own registers and classes (`PsAbi`); printed rows
  word by word.
- Each probe hit is one atomic step with one clock reading. Everything it reads from registers and
  user memory is a parameter (`Read<T>`: missing, or got a value). `ringFree` says whether the ring
  buffer had room. The ring field is the log of every event submitted.
- An insertion into an LRU map succeeds; eviction is an event of its own. The hash maps of radostrace
  and kfstrace refuse new keys when full.
- Integers have the source's widths where wrap-around matters: stamps are 64-bit with wrapping
  subtraction and addition, counts are 32-bit.
- User memory is a total function from address to word; a faulting read is some word.

What the proofs turned up about the code:

- A second `execute_ctx` on one record adds to the captured count without resetting it, so the client
  op list is that of the latest op vector, and accounts for all its ops, exactly when no vector before
  wrote an opcode or the latest fills all eight slots (`OsdDetail.ClientListInRun`,
  `DetailInRuns.ClientListAddsUpIff`); `SecondExecuteHappens` is a run in which it is not.
- A replica's list skips transactions whose buffers cannot be followed. It is the first eight opcodes of
  all, whatever these are, exactly when those came after eight opcodes or were empty
  (`OsdDetail.ReplicaListIff`).
- A call is recorded with its class and method names exactly when these are shorter than 16 and 32 bytes
  (`ClassCalls.OsdNamesIff`, `RadosNamesIff`).
- Thread and transaction bindings outlive their ops. What is stamped through one is the op that was
  taken up exactly when no enqueue of its key has been accepted since
  (`OsdBindings.ThreadReachesSameOpIff`, `TransactionReachesSameOpIff`). `StaleThreadHappens` and
  `StaleTransactionHappens` are runs without any eviction in which another op is stamped.
- Every sub-latency is bounded by `op_lat` exactly for ops that were dequeued, whose messenger stamps
  are in order, and whose throttle stamp is not later than the reply (`OsdLatency.PartsWithinIff`).
  `BoundFails` gives a run for each of the three.
- A compiled path of at most nine members is right in every memory exactly when each hop follows at
  most one pointer, passes no base class at a non-zero offset, and has its member below 2^31
  (`PathMeaning.CompiledPathIff`). `PathWitnesses` has types for which each of the three fails
  (`DoublePointerHappens`, `BaseOffsetHappens`, `LargeMemberHappens`), and a path of ten members, whose
  eleven fields overrun the ten slots of the kernel's array (`TenMembersHappen`).
- A path that has a part left when it reaches a qualifier of void is never done with
  (`VarPath.TranslateFields`, `VoidHappens`). One that casts twice in a row, though it has a meaning, is
  refused, unless the first cast is to a pointer type itself (`PathAcceptance.TranslatedIff`,
  `CastTwiceHappens`).
- A member offset from 2^31 up comes out negative and is taken for "not found"
  (`MemberOffset.ResolveMemberOffset`, `PathWitnesses.LargeOffsetHappens`).
- The slot worked out for a parameter without a location is the one of the calling convention exactly
  when no parameter up to it is passed by reference and there is no hidden first argument, or it is
  itself passed on the stack and a register is left for that one; arguments aligned to sixteen bytes
  have to fall into place by themselves (`PsAbi.RightIff`, `AlignedRightIff`). `HiddenPointerHappens`,
  `ByReferenceHappens` and `AlignmentHappens` are parameter lists for which the slot is wrong, though
  the source says that no wrong location is ever given.
- radostrace never compares the second offset of `this->monc->global_id` at `_finish_op` with the one
  at `_send_op`. The client id read there is the walker's exactly when they are equal
  (`RadosLayout.AcceptedCids`); `UncomparedOffsetHappens` gives accepted probes for which it is not.
- The analyser gives a printed row back exactly when no number in it is negative and its object's name
  holds no blank, of which there are many beyond ASCII (`RowNames.ComesBackIff`). A negative number drops
  the row (`DroppedRows.RecognisedIff`), which happens to every op of a process whose OSD id cannot be
  read (`UnknownOsdHappens`). A blank inside the name drops it too, unless the name goes on like the rest
  of a row (`RowNames.SplitNameDropped`), and one at its end is lost (`CutNameTaken`);
  `SplitNameHappens` and `CutNameHappens` are such rows.
- For every event of every run, the row printed for it gives the analyser, if it can read the row, the
  times between the events of that very op (`PrintedEvents.FromEventsToAnalyser`).
- A name cut off inside a character prints a row that is no UTF-8, which the analyser cannot read
  (`Utf8.CutNameIsNoText`).
- kfstrace shows two operations under one name exactly when both are unknown to it and agree in their
  last twenty bits (`MdsTracer.OpNameIff`).
- `import_from_json` keeps old member offsets; it equals an import into a fresh parser exactly when the
  document defines all of them anew (`Loading.StaleOffsetsIff`, `StaleOffsetsHappen`).
- A module named `version` takes the place of the version in an exported file, which then fails the
  version check (`RoundTrip.ExportPassesCheck`, `VersionModuleHappens`).

## Model

| member | source | states |
|---|---|---|
| OsdTracer.Tracer.EnqueueOp | src/osdtrace.bpf.c:193-270 | a young tracked op is left alone; otherwise the key gets a new record, which is removed again if a messenger stamp cannot be read |
| OsdTracer.Tracer.DequeueOp | src/osdtrace.bpf.c:273-328 | the thread is unbound, the first dequeue is stamped, pool and seed are recorded, and only a replica op that has not been queued binds the thread |
| OsdTracer.Tracer.CaptureDecodedOsdOps | src/osdtrace.bpf.c:142-190 | total and captured opcodes of the decoded op vector, with the names of its calls |
| OsdTracer.Tracer.CopyOpcodes | src/osdtrace.bpf.c:155-189 | the capture loop: the first eight opcodes and the names of calls over the slots, the count raised by as many |
| OsdTracer.Tracer.ExecuteCtx | src/osdtrace.bpf.c:331-388 | stamp, op list and object name of the op named, nothing else |
| OsdTracer.Tracer.SubmitTransaction | src/osdtrace.bpf.c:391-423 | stamps a tracked op and binds the thread to it; otherwise unbinds the thread |
| OsdTracer.Tracer.EcSubmitTransaction | src/osdtrace.bpf.c:830-847 | an erasure-coded write leaves the map |
| OsdTracer.Tracer.QueueTransactions | src/osdtrace.bpf.c:426-452 | stamps the bound op once, before any of its transaction's stamps; otherwise unbinds |
| OsdTracer.Tracer.TxcCalcCost | src/osdtrace.bpf.c:850-884 | hands the thread's binding over to the transaction and clears it |
| OsdTracer.Tracer.TxcStateProc | src/osdtrace.bpf.c:513-563 | the stamp of each state on the op the transaction is bound to; the last one unbinds it |
| OsdTracer.Tracer.CaptureTxnOps | src/osdtrace.bpf.c:1072-1083 | appends opcodes while there is room for eight |
| OsdTracer.Tracer.TxcAddTransaction | src/osdtrace.bpf.c:1014-1086 | counts a replica's transaction ops and appends their opcodes, or makes the list unavailable |
| OsdTracer.Tracer.GenerateSubop | src/osdtrace.bpf.c:663-694 | first peer in slot one, every later one in slot two |
| OsdTracer.Tracer.DoRepopReply | src/osdtrace.bpf.c:697-723 | the reply stamp of the peer that answered |
| OsdTracer.Tracer.MarkFlagPointString | src/osdtrace.bpf.c:726-762 | a delay reason that fits is appended, up to five |
| OsdTracer.Tracer.MarkFlagPoint | src/osdtrace.bpf.c:946-977 | a delay reason is appended, up to five, each cut at its first NUL and at 32 bytes |
| OsdTracer.Tracer.LogOpStats | src/osdtrace.bpf.c:566-598 | the completed op is emitted or counted as dropped, and leaves the map |
| OsdTracer.Tracer.RepopCommit | src/osdtrace.bpf.c:887-943 | the committed replica op is emitted or counted as dropped, or deleted if its length cannot be read |
| OsdRuns.BindingsAlwaysSound | src/osdtrace.bpf.c:276-277 | in every reachable state a thread binding is the op its latest dequeue or submit named, and a transaction binding the one that was current when it was last costed |
| OsdRuns.AttributionSound | src/osdtrace.bpf.c:849-884 | whatever op an event reaches through the maps, the history names that op and no other, with thread reuse and evictions |
| OsdRuns.RecordIsReplay | src/osdtrace.bpf.c:193-598 | in every run the record of a key is the fold of the events the history attributes to it since its last accepted enqueue |
| OsdRuns.ResendIsInvisible | src/osdtrace.bpf.c:238-248 | taking a resend within 5 s out of any run leaves every later state unchanged |
| OsdFields.RecordTold | src/osdtrace.bpf.c:193-977 | in every run each field of a tracked record is told by the events of its life: execute_ctx, submit and the times of states 0, 2 and 4 by the latest event of that kind, aio_done by the latest state 1 or state 0 with nothing pending, dequeue by the first, the queue stamp by the first before states 0 and 4, peers and their answers by the OSDs named, and so on; 0 if there is none |
| OsdFields.RingTold | src/osdtrace.bpf.c:566-598 | in every run the ring holds, in order, one record for each completion of a tracked op with room, told by the life of the op and the completion, reply and byte counts included; the drop counter counts those without room |
| OsdFields.LatestIs | src/osdtrace.bpf.c:551-560 | the latest time of a kind is that of an event of the kind with none behind it |
| OsdHistory.TracerKeepsHistories | src/osdtrace.bpf.c:193-977 | in every run the three maps are those of a keeper of event lists, stated probe by probe: which op an event is about, when a list starts and ends, and what threads and transactions stand for |
| OsdStamps.StampsAlwaysOk | src/osdtrace.bpf.c:565-598 | in every run each non-zero boot-clock stamp of a tracked or emitted op lies between its enqueue and its reply |
| OsdStamps.WriteOnce | src/osdtrace.bpf.c:305-306 | between two moments of one tracked op, dequeue and queue-transaction stamps never change once set |
| OsdBindings.SameOpIff | src/osdtrace.bpf.c:193-270 | a key tracked at two moments of a run stands for the same op if and only if no enqueue of it was accepted in between |
| OsdBindings.ThreadReachesSameOpIff | src/osdtrace.bpf.c:390-452 | in any run, a thread binding reaches the op of the thread's latest dequeue or submit if and only if no enqueue of its key has been accepted since |
| OsdBindings.TransactionReachesSameOpIff | src/osdtrace.bpf.c:512-563 | in any run, a transaction binding reaches the op its thread had taken up if and only if no enqueue of its key has been accepted since |
| OsdBindings.StaleThreadHappens | src/osdtrace.bpf.c:425-452 | enqueue, dequeue, commit, enqueue: a transaction then queued on the thread is stamped on the second op, which was never dequeued |
| OsdBindings.StaleTransactionHappens | src/osdtrace.bpf.c:849-884 | the same through a costed transaction: its state change is stamped on the second op |
| OsdLedger.Conservation | src/osdtrace.bpf.c:238-270 | per key and overall: accepted enqueues are emissions, ring drops, EC deletions, failed reads, overwrites, evictions and live records |
| OsdLedger.LedgerIsReal | src/osdtrace.bpf.c:577-597 | the emitted count is what the ring holds under that key; the dropped count is the drop counter |
| OsdLedger.AtMostOneEventPerEnqueue | src/osdtrace.bpf.c:899-941 | at most one event per accepted enqueue, one fewer while the op is tracked |
| OsdLatency.CopyDetailOps | src/osdtrace.cc:701-793 | the opcodes and calls userspace takes are the captured ones, at most eight |
| OsdLatency.PeerLatencies | src/osdtrace.cc:760-778 | every entry is a peer that exists and answered, with its whole microseconds since the send, or zero; each such peer has one |
| OsdLatency.GenerateOp | src/osdtrace.cc:701-793 | the latencies of an event, in unsigned 64-bit arithmetic; the captured op list with its calls, and names and delay reasons up to their first NUL |
| OsdLatency.LatenciesExplained | src/osdtrace.cc:736-792 | each latency is the whole microseconds between its two stamps, named one by one, reads and writes apart: zero without the stamps or in the wrong order, wrapping where the program subtracts without a check |
| OsdLatency.CopyDelays | src/osdtrace.cc:756-759 | the delay reasons, each up to its first NUL |
| OsdLatency.PartsWithinIff | src/osdtrace.cc:736-754 | every latency is at most op_lat if and only if the op was dequeued, its message arrived in order, and it was throttled by the time of the reply |
| OsdLatency.EndToEnd | src/osdtrace.cc:697-793 | that bound, for every event any run of the probes emits |
| OsdLatency.BoundFails | src/osdtrace.cc:736-754 | for each of the three conditions, a run emitting an event that fails it alone and breaks the bound |
| OsdLatency.StagesTelescope | src/osdtrace.cc:736-754 | the five stages of an ordered write add up to op_lat, short of it by commit to reply and 5 us at most |
| OsdLatency.BlueStoreTelescopes | src/osdtrace.cc:779-790 | the four BlueStore parts add up to the BlueStore latency |
| OsdDetail.ClientListIffFirst | src/osdtrace.bpf.c:142-190 | the client op list is the vector's prefix if and only if nothing was captured before or all slots are written |
| OsdDetail.ClientListInRun | src/osdtrace.bpf.c:331-388 | in every run, a client op's list is that of its latest op vector if and only if no vector before wrote an opcode or the latest fills all slots |
| OsdDetail.ClientCallsInRun | src/osdtrace.bpf.c:155-189 | in every run, each slot the latest vector wrote holds its opcode, and for a call the names of that same op |
| OsdDetail.ClientSlotsInRun | src/osdtrace.bpf.c:142-190 | in every run each slot of a client op holds the opcode of the latest vector so long and the names of the latest call there; the counts are the opcodes written and the length of the latest vector |
| OsdDetail.ListChanges | src/osdtrace.bpf.c:331-388 | an execution captures a vector whatever the op; of the rest only a transaction of a replica op touches the list |
| OsdDetail.SecondExecuteHappens | src/osdtrace.bpf.c:142-190 | a run that executes an op twice and shows a list that is not the second vector |
| OsdDetail.ReplicaListIsPrefix | src/osdtrace.bpf.c:1013-1086 | without a transaction in several buffers, the list is the first eight opcodes of those that could be followed, and the total counts all |
| OsdDetail.ReplicaListIff | src/osdtrace.bpf.c:1013-1086 | that list is the first eight of all opcodes, whatever these are, if and only if what could not be followed came after eight opcodes |
| OsdDetail.MultiBufferIsForever | src/osdtrace.bpf.c:1040-1046 | after a multi-buffer transaction the list stays unavailable and empty |
| OsdDetail.TotalIsAll | src/osdtrace.bpf.c:1028-1035 | the total counts the opcodes of all transactions, followed or not, in 32 bits |
| OsdDetail.ReplicaListInRun | src/osdtrace.bpf.c:1013-1086 | all this, for any tracked replica op in any run |
| DetailText.ShowOps | src/osdtrace.cc:548-567 | the loop prints the names of the opcodes, and those of calls, separated by commas |
| DetailText.FormatDetailOps | src/osdtrace.cc:542-573 | the printed list: the opcodes shown and how many are left out, or that it is unavailable |
| DetailText.ShowToken | src/osdtrace.cc:552-566 | one opcode: a client op's call by its names, if there is a class name; else the opcode's name or number |
| DetailText.ListingIs | src/osdtrace.cc:542-573 | what a list is made of, element by element |
| DetailText.ListHappens | src/osdtrace.cc:542-573 | a list of four elements as it is printed |
| DetailText.ListingAddsUpIff | src/osdtrace.cc:568-572 | ops shown and ops left out make up the total if and only if no more are shown than there are |
| DetailInRuns.ReplicaListAddsUp | src/osdtrace.cc:568-572 | in every run, a replica op's list accounts for all ops of its transactions |
| DetailInRuns.ClientListAddsUpIff | src/osdtrace.cc:568-572 | in every run, a client op's list accounts for the ops of its latest vector if and only if no vector before wrote an opcode or the latest fills all slots |
| ClassCalls.OsdNamesIff | src/osdtrace.bpf.c:161-187 | the names of a call are recorded whole if and only if they fit their buffers |
| ClassCalls.NamesAre | src/osdtrace.bpf.c:161-187 | every byte recorded of names of any length, by either tracer |
| DetailText.PrintedListParses | tools/analyze_osdtrace_output.py:58-58 | a row with a list printed so is parsed if and only if it has no negative number, and the list comes back whole |
| TypeGraph.SearchFindsFirst | src/dwarf_parser.cc:230-290 | breadth-first search ends at the first type, by depth and then by the children on the way, that has the member or may not be passed, at the sum of the offsets; else there is none; it ends without a visited set |
| MemberOffset.ScanChildren | src/dwarf_parser.cc:230-290 | one type's children: the first member of the name, else the transparent edges in order |
| MemberOffset.FindMemberOffsetIn | src/dwarf_parser.cc:230-290 | the queue loop finds the first member, its offset and its peeled type |
| MemberOffset.LayoutMemberMeaning | src/dwarf_parser.cc:204-290 | in terms of the children: what is found is the first member of the name in the type, its base classes and its unnamed records, at the sum of their byte offsets and its own; nothing is found only if there is none or the first is a bit-field |
| MemberOffset.FirstMemberIsFound | src/dwarf_parser.cc:204-290 | the first member of a name, if it has a byte offset, is found there |
| MemberOffset.SumOffsets | src/dwarf_parser.cc:292-314 | the offsets along a path of members add up |
| MemberOffset.PathOffsetIff | src/dwarf_parser.cc:292-314 | a path has an offset exactly when each of its names is found where the ones before lead, and then it is their sum |
| MemberOffset.ResolveMemberOffset | src/dwarf_parser.cc:292-314 | non-negative exactly for a resolvable path below 2^31, and then the path's offset |
| PathWitnesses.LargeOffsetHappens | src/dwarf_parser.cc:311-313 | a member whose offset becomes negative |
| VarPath.ScanBases | src/dwarf_parser.cc:729-765 | one class's children: the member, else the base classes in order |
| VarPath.FindClassMember | src/dwarf_parser.cc:729-782 | the member the search finds, with its own offset and that of the class declaring it |
| VarPath.ClassMemberIff | src/dwarf_parser.cc:729-782 | in terms of the children: a member is found exactly if the first class, by depth and then by the base classes, that has it or has no children has it, at a byte location of its own |
| VarPath.Step | src/dwarf_parser.cc:790-890 | one pass of the loop: the rest of the path compiles, and is never done with, exactly if it did and was before |
| VarPath.TranslateFields | src/dwarf_parser.cc:784-892 | a path is accepted exactly when it compiles, and the call never ends exactly when a qualifier of void is reached; one offset, stored into an int, and one pointer flag per hop |
| VarPath.VoidHappens | src/dwarf_parser.cc:812-818 | types and a path for which it never ends |
| PathAcceptance.CompilesIff | src/dwarf_parser.cc:784-892 | a path is accepted exactly when, in the graph alone, each token can be followed; a type that is only declared stands for its definition; and it is never done with exactly when it gets stuck at a void |
| PathAcceptance.TranslatedIff | src/dwarf_parser.cc:792-825 | accepted are exactly the paths that have a meaning and cast twice in a row only from a type that is a pointer |
| PathAcceptance.DeclarationHappens | src/dwarf_parser.cc:848-856 | a member of a class that is only declared is found in its definition |
| PathAcceptance.CastTwiceHappens | src/dwarf_parser.cc:806-812 | a path with a meaning that is refused |
| PathMeaning.StoreVarField | src/osdtrace.cc:1144-1165 | the field list is copied into the first of the ten slots |
| PathMeaning.FetchVarMemberAddr | src/bpf_utils.h:95-175 | the unrolled loop walks slots one to nine as far as they are used, from any ten slots and any size |
| PathMeaning.MeaningIsAccess | src/dwarf_parser.cc:784-892 | the hops of a compiled path access what the path means in the source language, casts included |
| PathMeaning.CompiledPathIff | src/dwarf_parser.cc:829-842 | walking the stored compiled path gives the address the path means, for all memories and roots, if and only if each hop has at most one pointer, no base offset, and a member below 2^31 |
| PathWitnesses.DoublePointerHappens | src/dwarf_parser.cc:820-834 | types and a path that compiles to two pointers in one hop, and is walked wrong in some memory |
| PathWitnesses.BaseOffsetHappens | src/dwarf_parser.cc:746-750 | the same for a member inherited from a base class at an offset |
| PathWitnesses.LargeMemberHappens | src/dwarf_parser.cc:875-875 | the same for a member two gigabytes in |
| PathWitnesses.TenMembersHappen | src/osdtrace.cc:1158-1160 | types and a path that compiles to eleven fields for ten slots |
| RadosLayout.FlatOff | src/radostrace.cc:910-917 | accepts register variables whose later members need no pointer, and sums their offsets |
| RadosLayout.CollapsibleIff | src/radostrace.cc:906-917 | such a chain, and no other, is one fixed addition in every memory |
| RadosLayout.TwoLevelIff | src/radostrace.cc:925-929 | a chain of two members from a register is taken for the client id exactly when its walk reads one pointer on the way |
| RadosLayout.AcceptedIff | src/radostrace.cc:906-945 | accepted are exactly the probes whose walks are one addition to the op, the same for the tid in both, and one pointer on the way to the client id |
| RadosLayout.CheckLayout | src/radostrace.cc:885-960 | accepts exactly the layouts the checks describe and passes their registers and offsets on |
| RadosLayout.ReadCid | src/radostrace.bpf.c:68-78 | the client id behind two pointers, zero if one is null |
| RadosLayout.SendReadsWhatWalkerReads | src/radostrace.bpf.c:65-66 | in an accepted layout every read at _send_op is the walker's |
| RadosLayout.FinishReadsSameTid | src/radostrace.cc:932-935 | the tid read at _finish_op is the walker's |
| RadosLayout.CidIsTwoLevelWalk | src/radostrace.cc:936-937 | read_cid is the two-level walk in every memory if and only if the probe's second offset is the one used |
| RadosLayout.AcceptedCids | src/radostrace.cc:936-960 | of accepted probes, _send_op always reads the walker's client id and _finish_op if and only if its second offset is that of _send_op |
| RadosLayout.UncomparedOffsetHappens | src/radostrace.cc:936-937 | accepted probes with two different second offsets, and a memory in which the client id read is not the walker's |
| AbiSlots.ClassifyParam | src/dwarf_parser.cc:494-540 | the argument class of a parameter, through typedefs and qualifiers |
| AbiSlots.AbiParamLocation | src/dwarf_parser.cc:565-624 | the slot of the assignment by the function's own classes, or nothing if a parameter up to the target has no class |
| AbiSlots.SlotsDisjoint | src/dwarf_parser.cc:565-624 | distinct parameters get distinct registers or disjoint 8-aligned stack ranges |
| PsAbi.LocatesWorkedOut | src/dwarf_parser.cc:596-620 | if all parameters up to the target are handled, what is located is the slot compared with the convention: a register as such, a stack slot relative to the frame base |
| PsAbi.LocatesIff | src/dwarf_parser.cc:589-623 | a location is given exactly if the target is among the formals and all up to it are handled |
| PsAbi.ClassIff | src/dwarf_parser.cc:494-540 | the function's classes are those of the convention for pointers, references, enumerations, numbers of at most eight bytes that are not floating-point, and aggregates of more than sixteen; everything else it declines |
| PsAbi.RightIff | src/dwarf_parser.cc:461-468 | it is the slot of the calling convention (section 3.2.3 of the System V AMD64 psABI) if and only if nothing up to it is passed by reference and there is no hidden argument, or it is itself passed on the stack and a register is left |
| PsAbi.AlignedRightIff | src/dwarf_parser.cc:614-617 | with arguments aligned to sixteen bytes, if and only if it is a register or each such argument falls into place |
| PsAbi.HiddenPointerHappens | src/dwarf_parser.cc:598-605 | a function returning in memory, whose first parameter is not in rdi |
| PsAbi.ByReferenceHappens | src/dwarf_parser.cc:519-534 | a class type that is not trivial for calls, whose address is in rdi |
| PsAbi.AlignmentHappens | src/dwarf_parser.cc:614-617 | an argument aligned to sixteen bytes that starts eight bytes later |
| RadosTracer.CaptureActing | src/radostrace.bpf.c:117-125 | the slots of the acting set |
| RadosTracer.PrintedActing | src/radostrace.cc:252-264 | the slots up to the first negative one |
| RadosTracer.ActingIsShown | src/radostrace.cc:252-264 | a row shows the acting set, cut to sixteen |
| RadosTracer.CaptureOps | src/radostrace.bpf.c:127-172 | the first three op codes with the names of calls, the true number of ops, the last extent among those captured |
| ClassCalls.RadosNamesIff | src/radostrace.bpf.c:143-167 | the names of a call are recorded whole if and only if they fit their buffers |
| RadosTracer.Tracer.SendOp | src/radostrace.bpf.c:80-177 | the entry of a send, replacing an earlier one, unless the map is full |
| RadosTracer.RecordedIs | src/radostrace.bpf.c:80-177 | what the record of a send says, field by field: the first 127 name bytes at most, the acting set in sixteen slots, three codes and calls, and the extent of the last captured op that has one |
| RadosTracer.Tracer.FinishOp | src/radostrace.bpf.c:179-210 | a tracked op leaves the map and is emitted if the ring has room |
| RadosRuns.RunTellsStory | src/radostrace.bpf.c:80-209 | in every run a key's entry and rows are those of its own events, whatever other ops do |
| RadosRuns.RefusesWhenFull | src/radostrace.bpf.c:14-19 | in every run the map has at most 8192 entries, and a send is refused exactly when it is full and does not have the op |
| RadosRuns.ReportHungOps | src/radostrace.cc:406-433 | the walk ends having visited each key once; one Complete=0 row per stamped entry |
| RadosRuns.PrintedPerKey | src/radostrace.cc:1028-1039 | after stop, a key's rows are its completed sends in order, then its pending one |
| RadosRuns.EveryOpAccountedFor | src/radostrace.cc:1028-1039 | every tracked send is printed once, was replaced by a resend, or was lost to a full ring |
| RadosRuns.LatenciesAreReal | src/radostrace.cc:292-292 | no printed latency wraps around |
| MdsTracer.Tracer.PrepareSendRequest | src/kfstrace.bpf.c:450-584 | a new request is inserted with its names, a known one counts an attempt |
| MdsTracer.GetMdsOpName | src/kfstrace.bpf.c:81-135 | the name of an operation, or its last five hexadecimal digits |
| MdsTracer.OpNameIff | src/kfstrace.bpf.c:81-135 | two operations are named alike if and only if they are the same, or both unknown and alike in twenty bits |
| MdsTracer.OpNameIs | src/kfstrace.bpf.c:81-135 | the ten names, and for any other operation the number its five hexadecimal digits are |
| MdsTracer.ReadPath | src/kfstrace.bpf.c:551-578 | the name of the directory entry, cut to the buffer, or a question mark |
| MdsTracer.Tracer.MdsDispatch | src/kfstrace.bpf.c:588-707 | an unsafe reply is recorded; a safe one completes, emits and removes |
| MdsRuns.RunTellsStory | src/kfstrace.bpf.c:507-703 | in every reachable state a pending request has no safe reply, its attempts are its sends, its unsafe reply the latest, its write flag bit 12 of the operation; emitted events are the ended episodes with the time, latency and result of their safe replies |
| MdsRuns.RefusesWhenFull | src/kfstrace.bpf.c:182-187 | in every run at most 1024 requests are pending, and a new one is refused exactly when that many are |
| MdsRuns.OneEventPerInsertion | src/kfstrace.bpf.c:672-691 | each insertion emits once, is lost to a full ring, or is pending |
| MdsRuns.LatenciesOrdered | src/kfstrace.bpf.c:669-703 | no emitted latency wraps around, and the unsafe latency is at most the safe one |
| Documents.BasenameIsLastPart | src/utils.h:10-13 | the basename is what follows the last slash |
| Documents.StoreAll | src/dwarf_parser.cc:1481-1502 | assigning an object entry by entry |
| Loading.DwarfParser.CheckVersion | src/dwarf_parser.cc:1438-1455 | passes exactly when the document carries the expected version |
| Loading.DwarfParser.ImportFromJson | src/dwarf_parser.cc:1425-1542 | on success the maps of the document, over the old member offsets; otherwise nothing changes |
| Loading.DwarfParser.ImportFromEmbedded | src/dwarf_parser.cc:1612-1690 | the maps of the first table entry that covers the request; otherwise nothing changes |
| Loading.DwarfParser.ExportToJson | src/dwarf_parser.cc:1301-1423 | a document with every module, its build-id if its file has one, and its four parts; a module shadows metadata of its name; the parser answers as before |
| Loading.DwarfParser.WriteModule | src/dwarf_parser.cc:1335-1410 | one module's object lists exactly its entries, and carries the build-id exactly if it is known and not empty |
| EmbeddedTable.FindEmbeddedMatch | src/dwarf_parser.cc:1547-1610 | the first entry carrying every requested module with its non-empty build-id |
| EmbeddedTable.NamedBuilds | src/dwarf_parser.cc:1594-1598 | the modules of an entry that have a build-id |
| EmbeddedTable.GenerateVersionEntry | tools/generate_embedded_dwarf.py:188-208 | the table entry of a document: its module entries in order under their basenames, in arrays of the declared sizes, with their counts |
| EmbeddedTable.EntryComesBack | tools/generate_embedded_dwarf.py:109-208 | reading the first elements of each array, as many as counted, gives back the modules an entry was written from |
| EmbeddedTable.CopyVarFields | src/dwarf_parser.cc:1658-1676 | the variables of one function, from their arrays and counts |
| EmbeddedTable.StoreFuncs | src/dwarf_parser.cc:1653-1680 | the functions of one module, from their arrays and counts |
| EmbeddedTable.SourcesAgree | tools/generate_embedded_dwarf.py:130-208 | every document's entry fits the computed sizes, and its used part loads to the maps that loading the document gives, shared basenames included |
| Loading.StaleOffsetsIff | src/dwarf_parser.cc:1457-1460 | importing over old member offsets equals a fresh import if and only if the document defines them all |
| Loading.StaleOffsetsHappen | src/dwarf_parser.cc:1457-1460 | two documents of which the second, imported after the first, keeps an offset |
| RoundTrip.LoadFindsLastDefinition | src/dwarf_parser.cc:1462-1531 | every lookup finds the last definition in the document under that basename, and no other |
| RoundTrip.ExportImportIff | src/dwarf_parser.cc:1301-1542 | exporting and importing restores every lookup if and only if modules with entries are keyed by basename |
| RoundTrip.ExportCoversIff | src/dwarf_parser.cc:1339-1351 | the table entry generated from an export covers exactly the requests all of whose modules the parser has, by basename, with the build-ids of their files |
| RoundTrip.ExportPassesCheck | src/dwarf_parser.cc:1304-1315 | an exported file passes the version check if and only if nothing is expected, or its version is and no module is named version |
| RoundTrip.VersionModuleHappens | src/dwarf_parser.cc:1304-1315 | a parser whose exports never pass the check for their own version |
| TableLimits.AnalyzeLimits | tools/generate_embedded_dwarf.py:53-94 | the loops over all documents compute the joined needs |
| TableLimits.AnalyzeDocument | tools/generate_embedded_dwarf.py:64-84 | the needs of one document |
| TableLimits.AnalyzeModule | tools/generate_embedded_dwarf.py:67-83 | the needs of one module |
| TableLimits.LimitsAreLeast | tools/generate_embedded_dwarf.py:53-94 | the computed sizes hold every generated array and are the least that do |
| Greedy.CountEntry | tools/analyze_radostrace_output.py:191-193 | the inner counting loop |
| Greedy.CountOsds | tools/analyze_radostrace_output.py:188-194 | each OSD's number of occurrences, keys in order of first appearance |
| Greedy.FindTop | tools/analyze_radostrace_output.py:254-254 | the earliest key with the greatest count |
| Greedy.CountAndFindTop | tools/analyze_radostrace_output.py:244-255 | the OSD a round finds and its count |
| Greedy.TopIsMostThenFirst | tools/analyze_radostrace_output.py:253-255 | a round finds an OSD named most often and, of several, the one read first |
| Greedy.FlatConcat | tools/analyze_radostrace_output.py:188-194 | the OSDs are read in the order of the entries, and within them |
| Greedy.WithoutConcat | tools/analyze_radostrace_output.py:264-267 | the entries that do not name the OSD are kept, in their order |
| Greedy.PrintResults | tools/analyze_radostrace_output.py:226-270 | the elimination loop finds the OSDs of all rounds, with hosts and iterations |
| Greedy.ReportIs | tools/analyze_radostrace_output.py:254-258 | one finding for each round: its OSD and count, the host if it is known, and its number |
| Greedy.FoundIsHittingSet | tools/analyze_radostrace_output.py:244-267 | every operation with an acting set names an OSD found |
| Greedy.RoundsDescend | tools/analyze_radostrace_output.py:244-267 | no OSD is found twice and the counts never grow |
| Greedy.CountsCoverEntries | tools/analyze_radostrace_output.py:244-267 | the counts cover all such operations, exactly so if no entry repeats an OSD |
| Greedy.TopShare | tools/analyze_radostrace_output.py:253-255 | a round's count times the size of any hitting set is at least what is left |
| Greedy.AfterIsSuffix | tools/analyze_radostrace_output.py:244-267 | what is left after t rounds has the rounds from t on |
| Greedy.GreedyDecay | tools/analyze_radostrace_output.py:244-267 | against any hitting set of k OSDs, after t rounds k^t * left <= (k-1)^t * all |
| ObjectNames.FormatObjectName | src/osdtrace.cc:500-519 | the percent-encoding of a name, a dash for the empty one |
| ObjectNames.PrintedAsIsIff | src/osdtrace.cc:500-519 | a name is printed as it is if and only if it is not empty, not a dash, and without blanks, control bytes and percent signs |
| ObjectNames.EscapeIs | src/osdtrace.cc:500-519 | any other byte is a percent sign and two digits, the letters among them large |
| ObjectNames.EncodedIsWord | src/osdtrace.cc:500-519 | a printed name is non-empty and has no blank or control byte |
| ObjectNames.DecodeEncode | src/osdtrace.cc:500-519 | a decoder gives every name back |
| ObjectNames.EncodeInjective | src/osdtrace.cc:500-519 | two names never print alike |
| Patterns.GroupReads | tools/analyze_osdtrace_output.py:46-71 | a backtracking pattern takes a group's preferred candidate whenever the rest then matches |
| Patterns.EnclosedPrefers | tools/analyze_osdtrace_output.py:58-66 | a lazy bracket ends at the first closing bracket |
| Patterns.RunPrefers | tools/analyze_osdtrace_output.py:46-71 | a greedy run takes all characters of its class |
| Patterns.SkipsClosers | tools/analyze_osdtrace_output.py:58-58 | a lazy bracket goes on past each closing bracket after which the rest does not match |
| Patterns.MatchFits | tools/analyze_osdtrace_output.py:46-71 | each capture of a repetition consists of characters of its class |
| Patterns.BlanksAre | tools/analyze_osdtrace_output.py:46-71 | the code points of white space |
| OpRows.DecimalValue | tools/analyze_osdtrace_output.py:104-109 | reading a printed number gives the number |
| OpRows.FormatPeers | src/osdtrace.cc:627-636 | the peers of a write, separated by commas |
| OpRows.TwoPeers | src/osdtrace.cc:627-636 | the text of none, one and two peers |
| OpRows.RowIs | src/osdtrace.cc:575-672 | a row is the words of its format, with the numbers in their places, separated by single blanks |
| OpRows.HexValue | src/osdtrace.cc:576-578 | the placement seed is printed in small hexadecimal digits |
| OpRows.PeersAreFound | tools/analyze_osdtrace_output.py:80-84 | searching the printed peers finds each pair, in order |
| OpRows.ListReads | tools/analyze_osdtrace_output.py:58-58 | an op list is taken whole, brackets inside it included |
| OpRows.RowReads | tools/analyze_osdtrace_output.py:46-71 | the line pattern matches every printed row without a negative number or a blank in the name, and captures its fields |
| OpRows.ParsePrinted | tools/analyze_osdtrace_output.py:72-111 | parsing such a row gives back the op, object, op list, latencies and peers it was printed from |
| OldRows.OldRowParses | tools/analyze_osdtrace_output.py:55-58 | a row from before object names and op lists were captured parses to the rest of what it was printed from, with neither |
| PrintedEvents.HandleFull | src/osdtrace.cc:795-813 | nothing for an op under the threshold; else a row by the type of the message and whether it is a write, with every field of the event in its place |
| PrintedEvents.PrintOp | src/osdtrace.cc:575-672 | the fields of a row: a read shows the bytes read, the others the bytes written, with the width of their conversion |
| PrintedEvents.NonNegativeIff | src/osdtrace.cc:582-597 | no number printed for an event is negative exactly if the OSD is known, the ids are below 2^63, and fewer than 2^31 bytes are shown |
| PrintedEvents.FromEventsToAnalyser | tools/analyze_osdtrace_output.py:72-111 | for every event of any run, what the analyser reads in its row is how many whole microseconds lay between the events of that op, named one by one |
| DroppedRows.RecognisedIff | tools/analyze_osdtrace_output.py:72-76 | a printed row whose name has no blank is recognised if and only if no number in it is negative |
| DroppedRows.UnknownOsdHappens | src/osdtrace.cc:337-354 | a row of a process whose OSD id could not be read is not recognised |
| RowNames.ComesBackIff | tools/analyze_osdtrace_output.py:72-111 | a printed row comes back as what it was printed from if and only if no number in it is negative and the name holds no blank |
| RowNames.SplitNameDropped | tools/analyze_osdtrace_output.py:57-57 | a row whose name has a blank inside is not recognised, unless the name goes on like the rest of a row |
| RowNames.CutNameTaken | tools/analyze_osdtrace_output.py:57-57 | a name that ends in blanks is taken for the one without them |
| RowNames.SplitNameHappens | tools/analyze_osdtrace_output.py:57-57 | a row lost for a no-break space in the name |
| RowNames.CutNameHappens | tools/analyze_osdtrace_output.py:57-57 | a row whose name loses a no-break space at its end |
| RowNames.ObjectComesBackIff | src/osdtrace.cc:500-519 | an object name of any text is printed so that it can be decoded, and parsed whole if and only if it has no blank beyond ASCII |
| Utf8.PrintedIs | src/osdtrace.cc:500-519 | what is printed of a name that is a text is again a text |
| Utf8.EncodingHappens | tools/analyze_osdtrace_output.py:117-117 | a character of one, two, three and four bytes |
| Utf8.EncodedInjective | tools/analyze_osdtrace_output.py:117-117 | the text a row is read as is determined by its bytes |
| Utf8.CutNameIsNoText | tools/analyze_osdtrace_output.py:117-117 | a name cut behind the first byte of a character prints no text |
| CsvRows.CsvEscape | src/radostrace.cc:216-234 | quotes a field exactly when it holds a comma, quote or line end |
| CsvRows.EscapedIff | src/radostrace.cc:216-234 | a field stands as it is if and only if it has no comma, quote or line end |
| CsvRows.FieldReads | src/radostrace.cc:216-234 | an escaped field followed by a comma or line end reads back as it was |
| CsvRows.FileReads | src/radostrace.cc:317-333 | a file of rows reads back as those rows (section 2 of RFC 4180) |

## Left out

- libdw, libbpf, ELF and `/proc` access: DWARF types, locations, build-ids and memory are given as data. Location expressions of members are one of three kinds: a byte offset, absent, or a bit offset.
- The type graph comes with a depth that shows typedefs, pointers, base classes and anonymous members do not run in circles; DWARF that did would make the source loop.
- CPU-level races on a map value, and an LRU insertion that fails: each probe is one atomic step. An eviction between an insertion and the lookup after it appears as an eviction after the probe.
- osdtrace's single-op mode (`uprobe_log_op_stats_v2`), bluestore mode (`log_latency`), and the probes never attached (`_do_write`, `_wctx_finish`, `log_subop_stats`).
- The names of ObjectStore and client opcodes, column widths, and the lines of delay reasons behind a row.
- kfstrace's OSD half: the MDS half without the unsafe phase.
- The percentile tables and grouping of the osdtrace analyser, and rows with BlueStore details, which no printer here writes.
- OpRows.RowReads: asks for an op list on one line in which no closing bracket is followed by a blank; it holds of what the program prints. Peer ids are not negative.
- OpRows.ParsePrinted: the same.
- PrintedEvents.HandleFull: asks for peers that are no negative numbers other than -1, like the rows it prints.
- DroppedRows.RecognisedIff: the same, with op lists that have no blank except after a comma, as the printed ones have. Names with blanks are in `RowNames`.
- RowNames.SplitNameDropped: one way; a name that goes on like the rest of a row, or has a blank behind the letters osd, may be read as something else.
- DetailText.PrintedListParses: class and method names without blanks; their bytes are taken for characters, so those from 0x80 up are not told apart from two-byte ones.
- Digits are those of ASCII, and white space that of Python's text patterns; digits of other scripts, which such a pattern also takes, do not occur where a printed row has a number.
- JSON text syntax, C string literals and number ranges outside the declared widths: documents are typed values with distinct keys in file order.
- The modules of an exported document come in any order; the program uses ascending order.
- AbiSlots.AbiParamLocation: parameter sizes are unbounded; the program's are 64-bit.
- PsAbi.RightIff: asks for no argument aligned to sixteen bytes; together with others the deviations may cancel out. Alignment beyond sixteen is not modelled, nor are parameters in classes the program declines.
- PsAbi.AlignedRightIff: asks for no argument passed by reference and no hidden one, for the same reason.
- DetailInRuns.ReplicaListAddsUp: asks for fewer than 2^32 ops, the width of the total, and for none in several buffers, which the list shows as unavailable.
- Loading.DwarfParser.ImportFromJson: the values of a document have the right types; the program fails on a wrongly typed one after it has cleared its maps.
- OsdLatency.PartsWithinIff: clock readings are below 2^63 - 1000, and the earlier of receive and throttle stamp lies between boot and reply, without which op_lat itself wraps.
- OsdLatency.EndToEnd: the same.
- RadosLayout.AcceptedIff: asks for chains of at least one member whose offsets add up to less than 2^62, so that equal additions are equal sums; the program's are ints.
- PathMeaning.CompiledPathIff: asks for at most nine members, since a tenth is written past the slots of the kernel's array, and for pointers and offsets that, with 2^31 for each member, add up to less than 2^64.
- OsdFields.RecordTold: the captured op list is left to `OsdDetail`, where a replica op is taken not to be executed as a client op.
- OsdDetail.ClientListInRun: asks for fewer than 2^32 opcodes written to one record, the width of the count.
