# In-network allreduce: a verified model

This project models the in-network collectives of the repository in Dafny and proves what they promise: the
host library that cuts a buffer into RDMA writes, the switch data plane that adds the packets up, the controller
that hands out switch memory and table entries, and four smaller programs around them.

- **Allreduce data path.** `Powers`, `Bitmaps`, `Saturation`, `SwitchPipeline` and `Reduction` model one packet
  through the P4 pipeline. `Protocol` puts n hosts, lossy first-in first-out links, the recirculation queue and the
  switch together as a step system; `ProtocolInvariant`, `ProtocolSafety`, `ProtocolOrder`, `ProtocolProgress` and
  `ProtocolWindow` prove what holds in every reachable state, over any number of calls and 24-bit sequence number
  wraps, with any loss, retransmission and interleaving.
- **The call.** `BlockPlan`, `RdmaGroup` and `PacketPlan` model the host loop. `RunPlan` lays a whole sequence of
  calls out on the two queue pairs, and `AllreduceRun` is the composed system: n host loops, each with its own
  progress, over the two groups, with adapters that may give up. `AllreduceCall` says what the buffers hold when a
  host's loop has left a call, `AllreduceProgress` when all loops can leave all calls, and `AllreduceRetries` what
  the bounded number of retries adds.
- **Switch controller.** `Segments` is the aligned first-fit allocator. `Groups` says what a group installs and how
  its undo log is run, `GroupInvariant` what creations and destructions keep, and `Controller` is the servicer as a
  class. `GroupTables` says what the installed entries mean to a packet. One model covers the allreduce, reduce and
  broadcast controllers; `Kind` marks where they differ. `Fragmentation` leads the servicer to a state with all memory
  free in which a request for all of it is refused.
- **Benchmark loop** (`Benchmark`), **TCP barrier** (`Barrier`), **trace span layout** (`Spans`, `SpanLayout`),
  **multi-turn workload** (`Multiturn`, `MultiturnInvariant`, `MultiturnSafety`, `MultiturnProgress`), **redirect
  chains** (`Redirects`).

`Options` and `Paths` are shared vocabulary: optional values, and finite paths of a step relation.

## Results that qualify the source

- **A zero-length write is never acknowledged.** With two queue pairs and one packet left for the last block, the
  second queue pair posts a write of length zero. Its UDP length does not match the parser's, so the frame is not
  aggregated; it is addressed to the switch, which no unicast entry matches, and is dropped. The adapter resends it
  seven times, gives up and completes it with an error, and so does every later request of the broken queue pair.
  The loop counts completions and does not look at their status, so the call returns. `LoopsFinishIff` shows that
  from every state without a broken queue pair all loops can leave all calls with none breaking if and only if no
  call posts such a write, a condition on sizes and settings alone; `EmptyWriteBreaks` that a host that has left a
  call with one has a broken queue pair; and `LoopsAlwaysReturn` that with adapters giving up all loops can always
  return. Results are promised by `AllreduceSums` and `BuffersAgree` to hosts with healthy queue pairs.
- **Saturating addition depends on arrival order.** The aggregator saturates. `ExactForEveryOrderIffFits` shows
  that the result is the exact sum for every order if and only if the positive words sum to at most 2^31 - 1 and the
  negative ones to at least -2^31. `ResultsAreSumsIff` carries this to whole runs: every result any run writes for a
  position is the elementwise sum if and only if the words fit, since `EveryOrderHappens`.
- **Half the switch window is exact.** `HalfWindowIsExact`: for every server window, slots are never shared if and
  only if the window is at most half the slots.
- **A release between two free neighbours does not merge the right one.** The release deletes the left neighbour and
  then looks for the right one at its old index. `CoalescedIff` gives the exact condition, and `SplitThoughFree` leads
  the controller to a state with all memory free in which a request for all of it is refused.
- **Spans of length zero.** They are placed without a check, and one inside a longer span hides it from the
  neighbour check. `TrustworthyIff` shows for every line, however many such spans it holds, that the check misses no
  overlap if and only if no span of length zero at a time t lies inside another that goes on past t + 1 without any
  span starting at t + 1. `PlaceAll` concludes that spans of positive length never overlap when no span of length
  zero lies inside another of its process, and `HiddenOverlap` applies it to (0, 10), (5, 5), (6, 7), which end up on
  one line.
- **Failed requests keep their place in the window** of the multi-turn workload (`FailuresCloseWindow`), and
  `EverybodyFinishesIff` shows that from every reachable state all clients can still finish all rounds if and only if
  no request has failed so far.

## Reading the model

- Payload words are 32-bit signed values; the host library does no byte swapping and neither does the model.
- `Protocol` counts positions from the creation of the group, and the sequence number on the wire is the position
  modulo 2^24. All hosts make the same sequence of calls. Links keep order and may lose any packet.
- Acknowledgements are bounced by the switch to their sender; `Ack` may confirm any written prefix at any time.
- A host's queue pair may break at any time while a request on it is outstanding. It then neither sends nor receives,
  and all its requests, later ones included, complete with an error. `Healthy` hosts have no broken queue pair.
- Completion timing is an input of `Group.Allreduce` and `Runner.Round`. The run is cut after the last pass given,
  so their postconditions hold at every loop head of every run.
- Requirements on callers that the source does not check: positive block size and queue depth, member addresses
  known to the topology, at most 32 members, a root that is a member, no (address, queue pair) in two live groups,
  and for allreduce and reduce at least one recirculation port. An invalid memory size is not excluded: it raises
  before anything changes, and the model says so.
- `hide` statements in proofs only withhold definitions from the solver.

## Model

| member | source | states |
|---|---|---|
| Powers.IsPower2Exact | rdma_incc/switch/allreduce_grpc.py:51-52 | the bit trick accepts exactly the powers of two |
| Powers.MaskIsRemainder | rdma_incc/switch/allreduce_ingress.p4:248-249 | masking with 2^k - 1 is the remainder modulo 2^k, for every sequence number |
| Bitmaps.FullExactlyWhenAllContributed | rdma_incc/switch/allreduce_grpc.py:159-163 | for any order and repetition, OR-ing rank bits gives the group mask if and only if every rank contributed |
| Bitmaps.RootFullExactlyWhenOthersContributed | rdma_incc/switch/reduce_grpc.py:162-166 | with the root's bit flipped out of the mask: if and only if all others contributed and the root did not |
| Bitmaps.OrIdempotent | rdma_incc/switch/allreduce_ingress.p4:185-188 | a repeated contribution leaves the bitmap as it is |
| Bitmaps.BitValue | rdma_incc/switch/allreduce_grpc.py:162 | the bitmap of a rank is the number 2^rank the controller writes |
| Bitmaps.MaskValue | rdma_incc/switch/allreduce_grpc.py:162 | the mask of n ranks is the number 2^n - 1 |
| Bitmaps.RootMaskValue | rdma_incc/switch/broadcast_grpc.py:82-84 | the root-excluding mask is the full mask less the root's bit |
| Saturation.ExactForEveryOrderIffFits | rdma_incc/switch/aggregator.p4:20-28 | saturating addition gives the exact sum for every arrival order if and only if positives and negatives fit separately |
| Saturation.UnfitHasBadOrder | rdma_incc/switch/aggregator.p4:20-28 | words that do not fit have an order whose result is not the sum |
| Saturation.OrderIsVisible | rdma_incc/switch/aggregator.p4:20-28 | three words whose two orders give different results |
| Saturation.SatAddIsNearest | rdma_incc/switch/aggregator.p4:20-28 | the adder's result is the 32-bit word nearest to the sum |
| SwitchPipeline.ParsesExactly | rdma_incc/switch/allreduce_ingress.p4:56-75 | a write packet parses as a payload if and only if it carries exactly 256 bytes |
| SwitchPipeline.FullTest | rdma_incc/switch/allreduce_sendout.p4:53-57 | the two equality tests hold if and only if all ranks are in after this packet |
| SwitchPipeline.FirstContribution | rdma_incc/switch/aggregator.p4:14-19 | a slot of another version restarts with the new rank alone, whatever it held |
| SwitchPipeline.NewContribution | rdma_incc/switch/aggregator.p4:20-28 | a new rank is added once to both halves, marked as an increase, and the first half of the sum is read out |
| SwitchPipeline.RepeatedContribution | rdma_incc/switch/aggregator.p4:29-38 | a repeated packet changes nothing, is not an increase and reads the slot, whatever it carries |
| Reduction.ReducedIsElementwiseSum | rdma_incc/switch/aggregator.p4:51-77 | the slot's words are the elementwise sums over all ranks in any arrival order, when they fit |
| Reduction.UnfitPayloadsFail | rdma_incc/switch/aggregator.p4:20-28 | payloads that do not fit have an arrival order of the ranks that yields a wrong word |
| ProtocolInvariant.AcceptedIsNext | rdma_incc/server/rdma_group.cpp:300-301 | the expected sequence number on a downlink names exactly the next position, across wraps |
| ProtocolInvariant.FirstPassEffect | rdma_incc/switch/allreduce_ingress.p4:408-428 | in every invariant state the first pass leaves the slot with exactly the contributions of the packet's own position |
| ProtocolInvariant.SecondHalfMatches | rdma_incc/switch/allreduce_ingress.p4:373-376 | a recirculated packet completes its own position's result: the slot has not been reused meanwhile |
| ProtocolInvariant.StepKeepsInv | rdma_incc/switch/allreduce_sendout.p4:53-109 | every post, transmission, pass, delivery, acknowledgement and loss keeps the invariant; whom a pass sends to is stated by `FirstSendsBack` |
| Protocol.PsnCounts | rdma_incc/server/rdma_group.cpp:300-301 | the sequence number counts from zero and wraps after 24 bits |
| ProtocolProgress.FirstSendsBack | rdma_incc/switch/allreduce_sendout.p4:60-109 | the packet that completes a position sends its result to everybody, a repeat of a complete position to its sender alone, any other packet nothing |
| ProtocolSafety.SlotsNeverShared | rdma_incc/server/rdma_group.cpp:88-89 | in every reachable state two packets in flight anywhere that map to one slot are of the same position |
| ProtocolSafety.ResultsAgree | rdma_incc/server/rdma_group.cpp:357-389 | any two hosts' results for a position are equal and reduce every host's input exactly once |
| ProtocolSafety.ResultsAreSums | rdma_incc/server/rdma_group.cpp:357-389 | every written result is the elementwise sum of all inputs, when they fit, although buffers are overwritten in place |
| ProtocolSafety.CompletionImpliesResult | rdma_incc/server/rdma_group.cpp:371-380 | a completed packet has been contributed by all and its result written; outstanding packets stay in the window |
| ProtocolWindow.HalfWindowIsExact | rdma_incc/server/rdma_group.cpp:88-89 | slots are never shared in any reachable state if and only if twice the server window is at most the slots |
| ProtocolWindow.WideWindowShares | rdma_incc/server/rdma_group.cpp:88-89 | a wider window has a reachable state with two positions of one slot in flight |
| ProtocolOrder.EveryOrderHappens | rdma_incc/switch/allreduce_sendout.p4:53-109 | every order in which the hosts' packets for a position can arrive does arise in a run, and its reduction is written |
| ProtocolOrder.ResultsAreSumsIff | rdma_incc/switch/aggregator.p4:20-28 | every result written for a position in any reachable state is the elementwise sum if and only if the words fit |
| ProtocolProgress.OneTransmissionEach | rdma_incc/switch/allreduce_sendout.p4:60-109 | from every invariant state, once each host lacking a result has sent its packet once, everybody has the result however the queues are worked off, with nobody sending again |
| ProtocolProgress.CarryForward | rdma_incc/switch/allreduce_sendout.p4:60-79 | without losses, no order of passes and deliveries loses a contribution or a result on its way |
| ProtocolProgress.LoseEverything | rdma_incc/server/rdma_group.cpp:322-323 | from every state everything on its way may be lost, hosts and switch unchanged |
| ProtocolProgress.ExchangeUpTo | rdma_incc/server/rdma_group.cpp:374-389 | from every invariant state, whatever was lost, what all hosts have posted can be exchanged, zero-length writes excepted |
| ProtocolProgress.EmptyBlocks | rdma_incc/switch/allreduce_sendout.p4:40-51 | in no run does any host get past a zero-length write: neither it nor anything after it is acknowledged |
| ProtocolProgress.MoveShrinks | rdma_incc/switch/allreduce_sendout.p4:60-79 | each packet movement decreases a lexicographic measure of queued packets |
| BlockPlan.PlanTiles | rdma_incc/server/rdma_group.cpp:361-387 | the requests of all blocks and queue pairs are disjoint and hold exactly the bytes of the caller's buffer and less than one packet of padding |
| BlockPlan.PlanIndex | rdma_incc/server/rdma_group.cpp:382-387 | the j-th request on queue pair i is the same entry of the plan, however posting was cut into passes |
| BlockPlan.SubRequestsContiguous | rdma_incc/server/rdma_group.cpp:334-346 | one block's requests follow each other without gap over the queue pairs, uneven splits included |
| BlockPlan.BlockBytes | rdma_incc/server/rdma_group.cpp:383-384 | every block is a whole number of packets, the last one included |
| BlockPlan.PaddedIsLeast | rdma_incc/server/rdma_group.cpp:361 | the padded size is the least whole number of packets that holds the buffer |
| BlockPlan.MaxOutstandingIsLargest | rdma_incc/server/rdma_group.cpp:371-372 | a number of blocks is within the limit if and only if it is within the queue depth and its bytes within half the switch window |
| BlockPlan.RequestSizes | rdma_incc/server/rdma_group.cpp:334-346 | every request is one block, and only in the last round less |
| RdmaGroup.Group.PostMessage | rdma_incc/server/rdma_group.cpp:395-415 | which receives and writes are posted for each role, and both depths |
| RdmaGroup.Group.PostMessageToQps | rdma_incc/server/rdma_group.cpp:330-347 | each queue pair gets exactly its request of the block, one deeper |
| RdmaGroup.Group.PollCqs | rdma_incc/server/rdma_group.cpp:349-355 | at most one completion per queue is taken, and depths fall by what was taken |
| RdmaGroup.Group.PushBlocks | rdma_incc/server/rdma_group.cpp:382-387 | what was posted extends the plan by exactly the next blocks |
| RdmaGroup.Group.Pass | rdma_incc/server/rdma_group.cpp:374-389 | one pass of the loop; it is the last if and only if all is posted and nothing outstanding |
| RdmaGroup.Group.Allreduce | rdma_incc/server/rdma_group.cpp:357-393 | at every loop head, for any completion timing: requests are a prefix of the fixed plan, on the second queue pair only from the threshold on, depth is posted minus polled and within the limit |
| RdmaGroup.PassDecreases | rdma_incc/server/rdma_group.cpp:379-388 | every pass but an idle one decreases blocks left, then requests outstanding |
| RdmaGroup.PassFillsWindow | rdma_incc/server/rdma_group.cpp:380-388 | a pass leaves nothing unposted that the limit has room for |
| PacketPlan.HostKeepsWindow | rdma_incc/server/rdma_group.cpp:371-372 | the depth limit keeps the packets outstanding within the server window, zero-length writes counted as one |
| PacketPlan.EveryPacketTravels | rdma_incc/server/rdma_group.cpp:361-387 | every packet that holds a byte of the caller's buffer is carried by some queue pair |
| PacketPlan.NoPacketTravelsTwice | rdma_incc/server/rdma_group.cpp:361-387 | and by only one position of one queue pair |
| PacketPlan.EmptyWriteExact | rdma_incc/server/rdma_group.cpp:339-345 | a zero-length write is posted if and only if there are two queue pairs and one packet is left for the last block |
| RunPlan.AcceptedMakesJob | rdma_incc/server/rdma_group.cpp:87-113 | settings the constructor accepts, within switch memory, are those of a run |
| RunPlan.AcceptedIffJob | rdma_incc/server/rdma_group.cpp:92-111 | usable settings within switch memory and a rank pass the constructor's checks if and only if they are those of a run |
| RunPlan.ChannelIsValid | rdma_incc/server/rdma_group.cpp:88-89 | the two groups of a run meet the protocol's assumptions, with half the switch window as server window |
| RunPlan.ChannelAt | rdma_incc/server/rdma_group.cpp:357-387 | where in a group packet `at` of call k travels, and what it carries there |
| AllreduceRun.PostIsEnabled | rdma_incc/server/rdma_group.cpp:371-387 | in every state every post of a host loop is one the protocol's window allows |
| AllreduceRun.EventKeeps | rdma_incc/server/rdma_group.cpp:357-393 | every pass, poll, network step and broken queue pair keeps the link between loops and groups |
| AllreduceRun.OccursInv | rdma_incc/server/rdma_group.cpp:357-393 | in every state of every run the groups are in states the protocol can reach, and loops are in step with them |
| AllreduceRun.BrokenIsFrozen | rdma_incc/server/rdma_group.cpp:322-323 | a broken queue pair stays broken, and its counters and results never change again |
| AllreduceRun.BreaksWhileWaiting | rdma_incc/server/rdma_group.cpp:322-323 | a queue pair breaks only while a request on it waits for its acknowledgement, and nothing else changes then |
| AllreduceCall.LoopIsGroupLoop | rdma_incc/server/rdma_group.cpp:374-389 | a loop of the run passes, posts, polls and exits exactly as the host library's loop is proved to |
| AllreduceCall.ReturnedIsAcked | rdma_incc/server/rdma_group.cpp:379 | a loop has left a call on a healthy queue pair only when all the call's packets there were acknowledged |
| AllreduceCall.EmptyWriteBreaks | rdma_incc/server/rdma_group.cpp:427-431 | a host that has left a call with a zero-length write has a broken queue pair |
| AllreduceCall.BuffersAgree | rdma_incc/server/rdma_group.cpp:357-393 | when two hosts' loops have left a call with healthy queue pairs, their buffers are equal word for word, in every packet that holds a byte of the caller's |
| AllreduceCall.AllreduceSums | rdma_incc/server/rdma_group.cpp:357-393 | and hold the elementwise sum of all hosts' buffers as they were before, for every packet that holds a byte of the caller's, wherever the other hosts are |
| AllreduceProgress.LoopsFinishIff | rdma_incc/server/rdma_group.cpp:374-389 | from every state of a run without a broken queue pair all loops can leave all calls, with none breaking, if and only if no call posts a zero-length write |
| AllreduceRetries.LoopsAlwaysReturn | rdma_incc/server/rdma_group.cpp:322-323 | from every state all loops can return if adapters may give up; with a zero-length write every host is then left with a broken queue pair |
| Segments.UpperAlign | rdma_incc/switch/allreduce_grpc.py:54-55 | the least multiple that is not below the address |
| Segments.AddrInSeg | rdma_incc/switch/allreduce_grpc.py:57-62 | the lowest aligned place in a segment, and none only if there is none |
| Segments.FitSeg | rdma_incc/switch/allreduce_grpc.py:81-89 | the lowest aligned place in the first listed segment that can hold the block; none only if none can; invalid sizes told apart |
| Segments.AllocSeg | rdma_incc/switch/allreduce_grpc.py:91-103 | the list with the range cut out of one segment |
| Segments.AllocatedOrdered | rdma_incc/switch/allreduce_grpc.py:91-103 | allocation keeps the list sorted, disjoint, non-empty and aligned |
| Segments.AllocatedSet | rdma_incc/switch/allreduce_grpc.py:91-103 | exactly the allocated range leaves the free set |
| Segments.FreeSeg | rdma_incc/switch/allreduce_grpc.py:105-124 | the release as written, stale index included, and when it is rejected |
| Segments.RejectedIff | rdma_incc/switch/allreduce_grpc.py:107-114 | a release is invalid if and only if some free segment meets the range |
| Segments.FreedOrdered | rdma_incc/switch/allreduce_grpc.py:115-124 | release keeps the list sorted, disjoint, non-empty and aligned in all merge cases |
| Segments.FreedSet | rdma_incc/switch/allreduce_grpc.py:105-124 | the free set grows by exactly the released range |
| Segments.FreedTouching | rdma_incc/switch/allreduce_grpc.py:117-123 | a new touching boundary appears only at the range's end, exactly when both neighbours touched it |
| Segments.CoalescedIff | rdma_incc/switch/allreduce_grpc.py:117-123 | the list stays fully merged if and only if not both neighbours touch |
| Segments.WholeMemoryFitsIff | rdma_incc/switch/allreduce_grpc.py:81-89 | with all memory free, all of it can be requested if and only if the list is merged |
| Segments.SlotInRange | rdma_incc/switch/allreduce_ingress.p4:326-328 | every sequence number lands in the group's own slots |
| Groups.InstallsExactly | rdma_incc/switch/allreduce_grpc.py:156-180 | the keys a creation installs are exactly the group's, for all three controllers |
| Groups.InstallsDistinct | rdma_incc/switch/reduce_grpc.py:156-184 | no key is installed twice |
| Groups.UndoExactly | rdma_incc/switch/allreduce_grpc.py:193-201 | running the log backwards removes exactly the group's entries and returns exactly its id, nodes, range and port |
| GroupInvariant.OwnersApart | rdma_incc/switch/allreduce_grpc.py:156-180 | two live groups own no key in common |
| GroupInvariant.MemoryAdd | rdma_incc/switch/allreduce_grpc.py:129-140 | free segments and live ranges still tile memory after an allocation, disjoint and aligned |
| GroupInvariant.MemoryRemove | rdma_incc/switch/allreduce_grpc.py:140 | the release is valid, and the tiling holds after it |
| GroupInvariant.PortsAdd | rdma_incc/switch/allreduce_grpc.py:152-154 | each port count is the number of live groups on the port |
| GroupInvariant.TablesAdd | rdma_incc/switch/allreduce_grpc.py:156-180 | the tables are exactly the live groups' entries after a creation |
| GroupInvariant.TablesRemove | rdma_incc/switch/allreduce_grpc.py:193-201 | and after a destruction |
| GroupInvariant.SlotsApart | rdma_incc/switch/allreduce_grpc.py:134-135 | packets of two live groups never use one slot, whatever their sequence numbers |
| GroupInvariant.MetadataAddressesOwnSlots | rdma_incc/switch/allreduce_grpc.py:159-163 | every metadata entry names a member of one live group; its packets use the slots of that group alone, all of them in turn by sequence number |
| GroupTables.MetadataMarks | rdma_incc/switch/allreduce_grpc.py:159-163 | every metadata entry is for one member of one live group, marks that member's bit alone, and waits for all members, or for all but the root in reduce and broadcast |
| GroupTables.InstalledFillsSlot | rdma_incc/switch/reduce_grpc.py:162-166 | the pipeline fed with the installed bitmap and mask finds a slot full if and only if all members, or all but the root, have contributed, and adds a packet if and only if its member has not |
| GroupTables.ToldAddressIsTaken | rdma_incc/switch/allreduce_grpc.py:186-191 | packets sent as a member is told at creation are taken for that member's rank of the new group |
| GroupTables.RestoreInverts | rdma_incc/switch/allreduce_grpc.py:167-170 | restoring a rank gives the address and queue pair whose packets are taken for that rank, with its key exactly where there is room for one |
| GroupTables.MetadataRestored | rdma_incc/switch/allreduce_grpc.py:159-170 | and every packet taken for a rank can be restored |
| GroupTables.MulticastListsReplicas | rdma_incc/switch/reduce_grpc.py:178-184 | a group's multicast entry lists exactly its nodes that have a replica entry |
| GroupTables.MulticastReaches | rdma_incc/switch/allreduce_grpc.py:176-180 | each listed node replicates for one member, at the port of its address, restored to its address and queue pair |
| GroupTables.EveryMemberServed | rdma_incc/switch/allreduce_grpc.py:176-180 | every member, but the root in reduce, has its node listed |
| GroupTables.ForwardEntries | rdma_incc/switch/reduce_grpc.py:156-160 | recirculation goes to the group's port, and what is for the root to the port of the root's address |
| Controller.AdmitKeeps | rdma_incc/switch/allreduce_grpc.py:126-184 | creation keeps ids and nodes 1..255, tiling, port counts and tables |
| Controller.UndoKeeps | rdma_incc/switch/allreduce_grpc.py:193-201 | destruction keeps them |
| Controller.UndoAdmitted | rdma_incc/switch/allreduce_grpc.py:126-201 | undoing a creation restores the tables, the port counts, the free set and, up to order, both pools |
| Controller.FirstMin | rdma_incc/switch/allreduce_grpc.py:78-79 | the first of the least used ports |
| Controller.Servicer.constructor | rdma_incc/switch/allreduce_grpc.py:65-72 | the initial state satisfies the invariant with no live group |
| Controller.Servicer.InstallEntries | rdma_incc/switch/reduce_grpc.py:156-184 | the installation loop adds exactly the entries, each under a free key, and logs their deletion |
| Controller.Servicer.ClearSlots | rdma_incc/switch/allreduce_grpc.py:182 | exactly the new group's slots are reset |
| Controller.Servicer.Reserve | rdma_incc/switch/allreduce_grpc.py:139-154 | which id, nodes, range and port a group gets, and the log that returns them |
| Controller.Servicer.CreateGroup | rdma_incc/switch/allreduce_grpc.py:126-191 | when it raises, refuses or creates, the whole new state, and that no other group's slots are touched |
| Controller.Servicer.Execute | rdma_incc/switch/allreduce_grpc.py:198-199 | one logged command has its effect |
| Controller.Servicer.Unwind | rdma_incc/switch/allreduce_grpc.py:198-199 | the log is run from its last command to its first |
| Controller.Servicer.DestroyGroup | rdma_incc/switch/broadcast_grpc.py:118-126 | removes and returns exactly the group's own, never takes the invalid free exit, ignores unknown groups |
| Controller.Servicer.CreateAndDestroy | rdma_incc/switch/allreduce_grpc.py:126-201 | creation followed by destruction leaves no trace but the order of the pools |
| Fragmentation.SplitThoughFree | rdma_incc/switch/allreduce_grpc.py:105-124 | a run after which no group is live, all memory is free and a request for all of it is refused |
| Benchmark.CreditsMatchMessages | rdma_incc/server/main.cpp:416-429 | receives posted by a rank data flows to equal the messages that use one from a rank it flows from: all for SEND, the notification for WRITE in reduce and broadcast, none in allreduce |
| Benchmark.Runner.Poll | rdma_incc/server/rdma.cpp:93-108 | depth plus completions taken is unchanged |
| Benchmark.Runner.PushQp | rdma_incc/server/rdma.cpp:110-121 | only the last message of the round carries the notification |
| Benchmark.LimitIsLargest | rdma_incc/server/main.cpp:405-408 | a depth is allowed if and only if it is within the queue and, in reduce and allreduce, its bytes within the server window |
| Benchmark.Runner.Round | rdma_incc/server/main.cpp:378-441 | at every loop head, for any timing: no queue exceeds its limit or, where packets are aggregated, the server window, and the first pass fills it; a finished rank has sent every message exactly if data flows from it, posted the receives exactly if data flows to it, and all have completed |
| Barrier.StepKeeps | rdma_incc/server/inc.hpp:125-145 | every step keeps the byte counts of both directions of every connection |
| Barrier.NobodyLeavesEarly | rdma_incc/server/inc.hpp:125-145 | in every reachable state no rank has returned from more calls than any rank has entered |
| Barrier.NobodyIsStuck | rdma_incc/server/inc.hpp:125-145 | while somebody is in a call that all have entered, a step other than a new call is possible |
| Barrier.StepsRunOut | rdma_incc/server/inc.hpp:125-145 | every such step brings the calls under way closer to their end |
| Barrier.EveryRankConnects | rdma_incc/server/inc.hpp:97-107 | n - 1 distinct valid ranks leave no rank out |
| Barrier.Gather | rdma_incc/server/inc.hpp:90-107 | the accept loop succeeds if and only if the clients are ranks 1..n-1 once each, and then holds each one's connection |
| Spans.CheckIsFullScan | sglang/scripts/convert_otel_2_perfetto.py:58-70 | on a line of ordered disjoint spans the neighbour check equals a scan of the whole line |
| Spans.InsertKeepsTidy | sglang/scripts/convert_otel_2_perfetto.py:72-73 | inserting a span that overlaps nothing keeps the line ordered and disjoint |
| Spans.InsertKeepsProper | sglang/scripts/convert_otel_2_perfetto.py:72-73 | inserting any span of length zero, or one of positive length that overlaps none such, keeps positive spans apart |
| Spans.TrustworthyIff | sglang/scripts/convert_otel_2_perfetto.py:58-70 | for every line of ordered spans whose positive ones are apart, the check misses no overlap if and only if no span of length zero hides one |
| SpanLayout.LineIsClear | sglang/scripts/convert_otel_2_perfetto.py:95-120 | when no span of length zero lies inside another of its process, the line chosen for a span of positive length has no overlapping span |
| SpanLayout.Layout.FindLine | sglang/scripts/convert_otel_2_perfetto.py:95-120 | the line last used if the span fits there or has length zero, else the first that fits, and a new one, announced and numbered next, only if none fits |
| SpanLayout.Layout.PlaceRoom | sglang/scripts/convert_otel_2_perfetto.py:241-254 | every span of a request goes, in order, where that rule sends it, given where the request last put a span of the process |
| SpanLayout.Layout.PlaceAll | sglang/scripts/convert_otel_2_perfetto.py:239-254 | lines are 1..n, hold exactly what was placed and are those of the layout function; no two spans of positive length on one line overlap when none of length zero lies inside another of its process |
| SpanLayout.HiddenOverlap | sglang/scripts/convert_otel_2_perfetto.py:98-99 | on (0, 10), (5, 5), (6, 7) the layout puts all three on one line, two of them overlapping |
| MultiturnInvariant.StepKeeps | sglang/benchmark/hicache/bench_multiturn.py:359-463 | every step of either thread and of the server keeps the invariant |
| MultiturnSafety.ParallelIsBounded | sglang/benchmark/hicache/bench_multiturn.py:369-379 | at most max_parallel requests are under way, failed ones included |
| MultiturnSafety.OnePlacePerClient | sglang/benchmark/hicache/bench_multiturn.py:359-463 | every client is in exactly one place |
| MultiturnSafety.BarrierHolds | sglang/benchmark/hicache/bench_multiturn.py:450-455 | with the barrier a request of a turn is released only when every client has finished the turns before |
| MultiturnSafety.PoolNeverRunsDry | sglang/benchmark/hicache/bench_multiturn.py:305-313 | the pool of questions is never popped empty |
| MultiturnSafety.PayloadExtends | sglang/benchmark/hicache/bench_multiturn.py:437-457 | the next payload is the previous one, its reply and one question |
| MultiturnSafety.LastReplyCloses | sglang/benchmark/hicache/bench_multiturn.py:437-463 | the reply to a client's last request ends its conversation and takes no question |
| MultiturnSafety.RequestsCarryHistory | sglang/benchmark/hicache/bench_multiturn.py:359-365 | a request under way carries its client's whole conversation |
| MultiturnSafety.ConversationsBeginWithPrompts | sglang/benchmark/hicache/bench_multiturn.py:359-463 | in every run every conversation, and every request under way, begins with its client's prompt |
| MultiturnSafety.QuietIsDoneIff | sglang/benchmark/hicache/bench_multiturn.py:402-463 | when nothing moves, everybody is done if and only if no request failed |
| MultiturnSafety.FailuresCloseWindow | sglang/benchmark/hicache/bench_multiturn.py:409-435 | after max_parallel failures the sender's check fails for good |
| MultiturnProgress.IdleMaySend | sglang/benchmark/hicache/bench_multiturn.py:369-379 | an idle sender passes its check if and only if fewer than max_parallel requests are outstanding |
| MultiturnProgress.CanSettle | sglang/benchmark/hicache/bench_multiturn.py:359-463 | while fewer than max_parallel requests have failed, everything can be brought to rest without another failure |
| MultiturnProgress.EverybodyFinishesIff | sglang/benchmark/hicache/bench_multiturn.py:359-463 | from every reachable state everybody can still finish all rounds if and only if no request has failed |
| Multiturn.QueuesKeepOrder | sglang/benchmark/hicache/bench_multiturn.py:257-272 | requests and answers join their queues at the end, and answers leave at the front |
| MultiturnSafety.ReadyQueue.Pop | sglang/benchmark/hicache/bench_multiturn.py:261-272 | exactly one request leaves, the oldest under fifo, and none only from an empty queue |
| Redirects.Follow | sglang/benchmark/line_retrieval/gen_data.py:63-74 | terminates, and finds the chain if and only if there is one |
| Redirects.ChainUnique | sglang/benchmark/line_retrieval/gen_data.py:63-74 | a line has at most one chain |
| Redirects.BuildLinks | sglang/benchmark/line_retrieval/gen_data.py:57-76 | ring lines are exactly those without a chain; others get their chain and the original value at its end |
| Redirects.GroupByHops | sglang/benchmark/line_retrieval/gen_data.py:79-83 | the groups partition the other lines by chain length, in order |
| Redirects.GroupLines | sglang/benchmark/line_retrieval/gen_data.py:57-83 | both passes together: a line is in a group if and only if it has a chain, under that chain's length |

## Left out

- Device, memory registration, queue pair state changes, CUDA copies, gRPC transport and `exec` of command strings: foreign calls; the undo log is a datatype of commands with an interpreter.
- The adapter's retry timer: a request may be resent any number of times and a queue pair may break at any time while one is outstanding, which covers every limit and timeout.
- Congestion marking, address rewriting, checksums and the TEST variants of the data plane: they do not affect what is aggregated.
- The reduce and broadcast data planes: only their controllers, masks and entries are modelled; the registers a broadcast group resets by group id are not, nor is the exclusion identifier by which the broadcast data plane leaves the root out of its own multicast.
- AllreduceProgress.LoopsFinishIff: states that a finishing run exists from every state, not that a scheduler finds it; no fairness of links or hosts is modelled. The same holds of `AllreduceRetries.LoopsAlwaysReturn` and `MultiturnProgress.EverybodyFinishesIff`.
- RdmaGroup.Group.PollCqs: a completion on an empty queue is taken as none, since the adapter completes only what was posted; whether a completion is a success or an error is not an input, as the source does not look. The difference is made in `AllreduceRun`.
- AllreduceCall.AllreduceSums: speaks of the registered buffer; the copies between it and the caller's buffer are not modelled.
- Controller.Servicer.CreateGroup: requires known addresses, distinct queue pairs in no live group, at most 32 members and a root among them. The source checks none of these; it raises midway, for an unknown address or a key already in a table, and keeps what it had reserved. States after such an exception are not modelled.
- MultiturnInvariant.StepKeeps: the response queue's timeout, the progress bar that ends both loops, performance metrics and waiting times are not part of the state.
- SpanLayout.Layout.PlaceAll: takes requests and spans in the given order; the two sorts before it decide which lines are chosen, but what is proved holds for every order; a request without spans, on which the source fails, is placed as nothing. Interval lists are values, not shared objects.
- Barrier.Gather: a connection that closes before its rank is read is not modelled, nor are partial reads and writes in the barrier.
- The inference engine itself, the other benchmarks, scripts and examples of the repository, the older copies of the servers, and the mixed workload benchmark.
