# Ring all-reduce, modelled and proved

A group of P ranks in a ring reduces a buffer: every rank contributes an array
and every rank ends with the element-wise reduction of all of them. Each rank
runs reduce-scatter and then all-gather over an asynchronous transport on which
it can only send to its successor and receive from its predecessor. Blocks are
uneven or empty, cut into pieces of whole elements; pieces go out in batches of
at most `max_inflight` each way; receives are posted before sends; messages
carry a 32-bit tag. No rank can be proved correct alone: the result depends on
how P programs and the network interleave.

Nothing is bounded: the number of ranks, calls and elements, the piece size,
the in-flight limit (which may differ from rank to rank), the element type, the
operation and the interleaving are all arbitrary.

The models, from the bottom up:

- `RingArithmetic`, `BlockLayout`, `Buffers`, `Tags`: modulo arithmetic, blocks
  and pieces, regions, the tag word.
- `Schedule`: the phase, step, batch and piece loops as one cursor; each
  transport call or loop test advances it.
- `Group`: a ring of ranks running a sequence of calls, and what every element
  of every buffer is worth at every cursor (`Expected`, `Fold`, `Reduced`).
- `CopyingRing` and the `Copying...` modules: the group over the transport of
  the tests, which copies a payload when it is sent and matches by tag.
- `ZeroCopyRing` and the `ZeroCopy...` modules: the group over the Verbs
  transport. Descriptors, receive and send work requests, single element reads
  and writes, arrivals and acknowledgements are separate steps, so data moves at
  any moment the contract allows.
- `Refinement`: the second ring refines the first.
- `Folds`, `Overflow`: what the ring's order of combination means to callers.
- `Reduction`, `RankProgram`, `Engine`: the imperative code of one rank with its
  arrays and loops, each method proved to do what the program `RankProgram`
  says; `ProgramFacts`, `Traffic`, `Alignment` are facts about that program.
- `RingOfPrograms`, `ZeroCopyPrograms`, `RingEngine`: a rank of either ring and
  the program of a rank are the same thing, so the engine composed with the ring
  computes the all-reduce with no assumption about its transport's answers.
- `MockEndpoint`, `VerbsEndpoint`: the two transports' endpoints as classes, with
  the life cycle of requests, memory registrations and completions;
  `ZeroCopyEndpoints` shows that the zero-copy ring does what its endpoints and
  their devices do.
- `Bootstrap`: the connection handshake as a protocol of P ranks.

Main results: `ZeroCopyTheorems.AllReduceCorrect` and
`Folds.ZeroCopyAllReduce` (every rank of every run gets the reduction),
`ZeroCopyProgress.NoDeadlock`, `ZeroCopyTermination.RunsAreFinite`,
`ZeroCopyLimits.LimitsExactly` (a run can finish if and only if numbers
known before the calls are within four limits), `ZeroCopyBuffers.BufferDiscipline`,
`Refinement.ZeroCopyRefinesCopying`, `CopyingTheorems.QueuedTags`,
`RingEngine.AllReduceOverZeroCopy`, `VerbsEndpoint.NeverConfused` with
`VerbsEndpoint.ReceiveVerdict`, `ZeroCopyEndpoints.FlightVerdict` and
`Bootstrap.FinishesExactlyWhenMixed`.

Three findings about the code:

- `docs/DESIGN.md:148` speaks of 128 ranks. The code admits steps 0 to 127, and
  a group of P ranks has P - 1 steps a phase, so 129 ranks work
  (`Group.Ring.TagsFitExactly`).
- The engine allows 1024 pieces in flight, but a queue pair is created for 256
  (`src/process_group_api.cpp:122-123`). A batch of 257 pieces cannot be posted
  although it is within the configured limit (`ZeroCopyLimits.TooManyInFlight`).
- Piece sizes are not limited, but a work request names at most 2^32 - 1 bytes,
  so a larger piece fails at its post (`ZeroCopyLimits.PieceTooLong`).

## Model

| member | source | states |
|---|---|---|
| BlockLayout.ComputeBlockLayout | src/block_layout.cpp:7-28 | The loop fills both tables with the block sizes and offsets of the layout; a world size that is not positive is rejected and leaves the tables alone. |
| BlockLayout.Shape.Balanced | src/block_layout.cpp:15-25 | Block sizes differ by at most one, larger blocks come first and block 0 is the largest. |
| BlockLayout.Shape.PieceInside | src/ring_collectives.cpp:63-75 | Every piece of every block is non-empty, at most one piece size long, inside its block, inside the buffer and inside the temporary buffer. |
| BlockLayout.Shape.CoveredOnce | src/ring_collectives.cpp:179-221 | Every element of the buffer is covered by exactly one piece of exactly one block, whatever the piece size. |
| BlockLayout.Shape.PiecesInOrder | src/ring_collectives.cpp:179-184 | Consecutive pieces of a block meet without gap or overlap and the last one ends with the block. |
| BlockLayout.PiecesFillBytes | src/ring_collectives.cpp:63-68 | A piece has as many whole elements as fit into the bytes asked for, 65536 if none are, and one element when not even one fits. |
| RingArithmetic.PositiveModIsRotation | src/ring_collectives.cpp:37-40 | With C++ truncating remainders the helper is a rotation for every argument at most one turn out of range. |
| Schedule.BlocksOfStep | src/ring_collectives.cpp:160-161 | The blocks the model's steps send and receive are those both phases compute with `positive_mod`; all-gather's are at lines 314-315. |
| Schedule.BatchCount | src/ring_collectives.cpp:167-172 | A batch is entered exactly when its first piece exists, so the cursor's test and the rounded-up batch count agree. |
| Schedule.RingStep | src/ring_collectives.cpp:160-161 | What a rank receives in a step is what its predecessor sends in it and what it sends itself in the next step. |
| Tags.PackIsMakeTag | src/ring_collectives.cpp:47-61 | The word made by the shifts, masks and ors, defined bit by bit, is the number the model uses as tag, for every sequence number and every step and piece in range. |
| Tags.BitsOfWord | src/ring_collectives.cpp:56-59 | Each bit of the ands and ors the word is made with is the and, or the or, of the two bits. |
| Tags.Decode | src/ring_collectives.cpp:19-30 | Sequence modulo 4096, phase, step and piece can be read back from a tag, and the tag fits 32 bits. |
| Tags.Injective | src/ring_collectives.cpp:47-61 | Two tags in range are equal if and only if piece, step and phase agree and the sequence numbers agree modulo 4096. |
| Group.Ring.TagsFitExactly | src/ring_collectives.cpp:52-54 | Every message of every call can be tagged if and only if the group has at most 129 ranks and no largest block has more than 4096 pieces (or there is nothing to send). |
| Group.Ring.BytesFitExactly | src/verbs_transport.cpp:324-326 | No message is longer than 2^32 - 1 bytes if and only if the first piece of block 0 is not, in every call. |
| Group.Ring.TagDistinguishes | docs/DESIGN.md:148-151 | Within two consecutive calls a tag names one message of a link, in spite of the 12-bit wraparound. |
| Group.Ring.ScatterInvariant | src/ring_collectives.cpp:159-278 | In the middle of reduce-scatter, mid-batch included, blocks received in finished steps hold partial folds, the piece being received is wholly before or after its reduction, and all else is the rank's own input. |
| Group.Ring.GatherInvariant | src/ring_collectives.cpp:313-415 | In the middle of all-gather what has arrived and the rank's own result are fully reduced, and other blocks still hold partial folds. |
| Group.Ring.SendValue | src/ring_collectives.cpp:238-246 | The block being sent is stable through all stages of its step and holds exactly what the step's messages are to carry. |
| CopyingTheorems.AllReduceCorrect | src/ring_collectives.cpp:420-451 | Over the copying transport, in every interleaving, no rank fails and every call a rank has returned from left the ring fold of all inputs. |
| CopyingTheorems.ReachableBuffers | src/ring_collectives.cpp:159-278 | In every reachable state of the copying ring every element outside regions lent to receives is worth what the two mid-call invariants say. |
| CopyingTheorems.QueuedTags | tests/mock_transport.cpp:110-138 | In every reachable state at most two consecutive calls are in flight on a link and no two queued messages share a tag. |
| CopyingTheorems.NoDeadlock | src/ring_collectives.cpp:167-277 | While some rank has a call left, some rank of the copying ring can move. |
| CopyingTheorems.MovesCounted | src/ring_collectives.cpp:159-278 | A run of k moves uses up exactly k of a finite number of moves computed from the schedule, so every run ends. |
| CopyingInvariant.CallSkew | docs/DESIGN.md:148-151 | A rank that has finished a call knows that every rank has entered it, for counts smaller than the group too. |
| CopyingInvariant.MatchIsRight | tests/mock_transport.cpp:110-138 | The first queued message with the wanted tag is the wanted message of the wanted call and carries the right payload. |
| CopyingSkew.Skew | src/ring_collectives.cpp:159-276 | When no block is empty a rank is at most as many steps ahead of another as there are hops between them, P - 1 at most. |
| CopyingSkew.QueueBound | tests/mock_transport.cpp:173-178 | When no block is empty a queue never holds more than P steps' worth of pieces. |
| CopyingLimits.FinishesExactlyWithin | src/ring_collectives.cpp:188-195 | Over the copying transport some run finishes every call on every rank if and only if every message can be tagged. |
| ZeroCopyTheorems.AllReduceCorrect | include/pg_transport.h:55-67 | Over the zero-copy transport, in every interleaving of ranks, request matching, element reads and writes and completions, no rank fails and every finished call left the ring fold of all inputs. |
| ZeroCopyTheorems.ReachableBuffers | src/ring_collectives.cpp:313-415 | The mid-call invariants hold in every reachable state of the zero-copy ring outside regions lent to receives. |
| ZeroCopyTheorems.FifoAlignment | src/verbs_transport.cpp:405-421 | In every reachable state the k-th unmatched send meets the k-th unmatched receive and descriptors lag behind in order: same piece, tag, size and mode. |
| ZeroCopyTheorems.ChecksNeverFire | src/verbs_transport.cpp:409-421 | The descriptor check never fails, a queue pair always has room, and length, opcode and immediate tag of every arrival are as expected. |
| ZeroCopyRing.ModeChosen | src/verbs_transport.cpp:281-295 | A mode asked for is kept; otherwise 4096 bytes go eager and 4097 rendezvous, and what is too big for eager stays so as it grows. |
| ZeroCopyEndpoints.ModesFollowSizes | src/verbs_transport.cpp:328-354 | In every reachable state every send request, receive request and descriptor has the mode its call asks for, and when the call leaves it open exactly those of at most 4096 bytes are eager; only eager receives name a buffer. |
| ZeroCopyEndpoints.ReceivePosted | src/verbs_transport.cpp:324-385 | The ring's post of a receive succeeds exactly when tag, size and the 256 places allow it, and then queues the work request and announces the message its endpoint would. |
| ZeroCopyEndpoints.SendPosted | src/verbs_transport.cpp:399-452 | The ring's post of a send succeeds exactly when its endpoint would accept the message carrying the next descriptor and there is room among 256, and then goes to the memory the descriptor names. |
| ZeroCopyEndpoints.ReceiveFollows | src/ring_collectives.cpp:188-211 | The tag, region, size and mode the rank's program posts as a receive are those the zero-copy ring announces and queues. |
| ZeroCopyEndpoints.SendFollows | src/ring_collectives.cpp:227-247 | The same for sends. |
| ZeroCopyEndpoints.FlightVerdict | src/verbs_transport.cpp:446-452 | When the oldest send meets the oldest receive the data goes where the device puts it, and the mark the transfer carries is the verdict of the wait for that receive at an endpoint, in every history. |
| ZeroCopyBuffers.BufferDiscipline | include/pg_transport.h:60-61 | No step writes under an outstanding send, and none reads or writes under an outstanding receive but its own transfer and the wait that ends it. |
| ZeroCopyBuffers.WritesAreAccesses | src/ring_collectives.cpp:253-270 | Memory that no listed access of a step writes keeps its contents, so the discipline above speaks of all writes there are. |
| ZeroCopyBuffers.ReadsAreAccesses | src/ring_collectives.cpp:253-270 | Whether a step can be taken and what it does to everything else does not depend on memory that no listed access of it reads, so the discipline speaks of all reads there are. |
| ZeroCopyBuffers.LentIsOutstanding | src/verbs_transport.cpp:341-347 | In every reachable state the sends and receives the discipline protects are exactly those a device still has or that have completed and not been waited for. |
| ZeroCopyBounds.PendingRequests | src/verbs_transport.cpp:343-347 | The requests a rank counts as pending are exactly those unmatched, in flight, or reported and not waited for, each once. |
| ZeroCopyBounds.OutstandingBounds | src/ring_collectives.cpp:167-276 | At most a batch of receives and of sends is outstanding, at most a batch of descriptors unread, and nothing at all between batches. |
| ZeroCopyBounds.CompletionsFit | src/verbs_transport.cpp:203-206 | With the in-flight limit of 1024 the completions not waited for never exceed the 2048 entries of the completion queue. |
| ZeroCopyBounds.NeighbourSkew | src/verbs_transport.cpp:405-409 | When no block is empty neighbours differ by at most one step, because a send waits for its descriptor. |
| ZeroCopyProgress.NoDeadlock | src/verbs_transport.cpp:405-409 | Although posting a send blocks until the successor's descriptor comes, some rank or the network can always move while a call is left, with different batch counts at neighbours too. |
| ZeroCopyTermination.RunsAreFinite | src/ring_collectives.cpp:159-278 | Every run of ranks and network is at most as long as a bound computed from the schedule and the largest element count. |
| ZeroCopyTermination.Finish | src/ring_collectives.cpp:420-451 | From every reachable state every rank can be brought to the end of all its calls. |
| ZeroCopyLimits.FinishesExactlyWithin | src/verbs_transport.cpp:313-386 | Some run finishes every call on every rank if and only if every message can be tagged, no piece is longer than a work request names and no batch is deeper than a queue pair. |
| ZeroCopyLimits.LimitsExactly | src/process_group_api.cpp:116-128 | The same condition in numbers known before the calls: at most 129 ranks, 4096 pieces in the largest block, 2^32 - 1 bytes in the largest piece, 256 pieces in the largest batch. |
| ZeroCopyLimits.TooManyInFlight | src/process_group_api.cpp:122-123 | Two ranks with 257 one-element pieces and the largest in-flight limit the engine admits can tag everything and yet never finish. |
| ZeroCopyLimits.AsManyAsFit | src/process_group_api.cpp:122-123 | The same two ranks with 256 pieces can finish. |
| ZeroCopyLimits.PieceTooLong | src/verbs_transport.cpp:399-401 | Two ranks with pieces of 2^32 bytes fit tags and queue pairs and yet never finish. |
| ZeroCopyLimits.AsLongAsFits | src/verbs_transport.cpp:399-401 | The same two ranks with pieces of 2^32 - 4 bytes can finish. |
| Refinement.NetworkStutters | src/verbs_transport.cpp:443-452 | The network's own steps do not show in the copying ring the zero-copy ring is seen as. |
| Refinement.ZeroCopyRefinesCopying | tests/mock_transport.cpp:166-178 | The ranks' moves of every zero-copy run form a run of the copying ring that leaves every rank at the same point with the same results. |
| Folds.FoldOrder | src/ring_collectives.cpp:258-266 | An element of block b is x[b+d] op (... op (x[b+1] op x[b])), indices modulo P, after d hops, for any operation. |
| Folds.ReducedIsPlainFold | src/reduction_ops.cpp:15-32 | For an associative and commutative operation the ring's result is the plain fold over ranks 0 to P - 1. |
| Folds.CopyingAllReduce | tests/local_collective_tests.cpp:29-41 | With such an operation every call returned from over the copying transport left that plain fold on every rank. |
| Folds.ZeroCopyAllReduce | include/ring_collectives.h:78-81 | The same over the zero-copy transport. |
| Folds.ReducedIsExtreme | src/reduction_ops.cpp:22-32 | With PG_MIN or PG_MAX over any strict weak order every result is one of the contributions and none of them is smaller, or larger. |
| Folds.ZeroCopyExtremes | tests/local_collective_tests.cpp:79 | So is every element of every call a rank has returned from over the zero-copy transport. |
| Folds.Agreement | docs/DESIGN.md:156-166 | With no law at all for the operation two ranks that have returned from a call hold the same buffer. |
| Overflow.ReducedIsExact | src/reduction_ops.cpp:16-20 | If the absolute values at an index add up to at most 2^31 - 1, the result is the exact sum. |
| Overflow.WaitAddsExactly | src/reduction_ops.cpp:16-20 | Under the same condition no addition any rank makes on the way wraps around. |
| Overflow.Int32Sum | src/reduction_ops.cpp:16-20 | PG_SUM on 32-bit integers is 32-bit addition, exact whenever the sum fits. |
| Reduction.SizeHoldsValues | src/reduction_ops.cpp:39-50 | An element has exactly the bits of a value of its type, 32, 1+8+23 or 1+11+52, and a 32-bit one exactly the range of the integers; only unknown types have no size. |
| Reduction.Arithmetic.KernelMakes | src/reduction_ops.cpp:15-32 | PG_SUM makes the sum; PG_MIN and PG_MAX make one of the operands that neither is beyond, the destination's when they are tied. |
| Reduction.IntegerOperations | src/reduction_ops.cpp:15-32 | On integers the three operations are sum, smaller and larger of two. |
| Reduction.ReduceTyped | src/reduction_ops.cpp:6-37 | Each of the three loops works every source element into its place in the destination region with what the operation is to make of the two, and changes nothing else, also when both are regions of one array; missing buffers and unknown operations are reported and change nothing. |
| Reduction.ReduceInPlace | src/reduction_ops.cpp:52-80 | The dispatch on the element type does the same for the three types, looks at nothing for an empty region and reports unknown types before unknown operations. |
| Engine.Context.constructor | src/ring_collectives.cpp:116-129 | Missing or zero parameters become 65536 bytes, 4 in flight and the automatic mode, and no more than 1024 requests are kept in flight. |
| Engine.Context.PostReceives | src/ring_collectives.cpp:179-213 | The loop posts the receives of a batch as the rank's program says, in order, and stops with the program's status at the first that fails. |
| Engine.Context.PostSends | src/ring_collectives.cpp:215-251 | The same for the sends of a batch. |
| Engine.Context.FinishReceive | src/ring_collectives.cpp:253-270 | One wait fills its region and, in reduce-scatter, combines it into the work buffer, as the program says. |
| Engine.Context.WaitSends | src/ring_collectives.cpp:272-276 | The loop waits for every send of the batch, in order. |
| Engine.Context.ReduceScatterInPlace | src/ring_collectives.cpp:132-282 | The phase is the program's run over the first P - 1 steps, with layout and temporary buffer set up before; it reports block rank + 1 as owned and has posted bytes for exactly count - counts[r+1] values to send and count - counts[r] to receive. |
| Engine.Context.AllGatherInPlace | src/ring_collectives.cpp:284-418 | The phase is the program's run over the other steps and has posted bytes for exactly count - counts[r+2] values to send and count - counts[r+1] to receive; a wrong owned block or element type is rejected with nothing changed. |
| Engine.Context.BothPhases | tests/local_collective_tests.cpp:62-63 | Calling the two phases one after the other is one run of the program over all its steps. |
| Engine.Context.AllReduce | src/ring_collectives.cpp:420-451 | The call copies its input unless it is in place, runs the whole program, and uses up a sequence number, modulo 2^32, only on success, when it has posted bytes for exactly 2 count - counts[r+1] - counts[r+2] values of the type's width to send and 2 count - counts[r] - counts[r+1] to receive. |
| ProgramFacts.RunTracked | src/ring_collectives.cpp:253-276 | A call that succeeds has waited for every request it made, each once; one that fails leaves at most a batch each way pending. |
| ProgramFacts.SmallGroupTags | src/ring_collectives.cpp:188-195 | In a group of at most 129 ranks whose largest blocks have at most 4096 pieces no call fails for a tag, whatever the transport answers. |
| ProgramFacts.OperationFoundOut | src/ring_collectives.cpp:258-269 | An unsupported operation is reported exactly when a piece is to be reduced, so never by a single rank. |
| Alignment.CallTrace | src/ring_collectives.cpp:179-251 | The exact sequence of posts of a successful call, in closed form: every piece of every step once, in order. |
| Alignment.CallsAligned | src/verbs_transport.cpp:409-412 | Tag by tag, size by size and chosen mode by chosen mode, what a rank posts as receives is what its predecessor posts as sends. |
| Traffic.ScatterTraffic | tests/mock_transport.cpp:80-86 | A successful reduce-scatter sends every block but the one it ends up owning and receives every block but its own, once. |
| Traffic.GatherTraffic | tests/mock_transport.cpp:80-86 | A successful all-gather sends every block but the next but one and receives every block but the one it starts from. |
| Traffic.CallTraffic | tests/mock_transport.cpp:80-86 | A successful call sends 2 count - counts[r+1] - counts[r+2] elements and receives 2 count - counts[r] - counts[r+1], whatever was posted before. |
| Traffic.TrafficConserved | tests/mock_transport.cpp:80-86 | What a rank receives in a call its predecessor sends. |
| RingOfPrograms.MoveIsAct | src/ring_collectives.cpp:159-278 | Every move of a rank of the copying ring inside a call is the next act of that rank's program, given the answer the ring gives. |
| RingOfPrograms.PostsEndAlike | src/ring_collectives.cpp:187-211 | A post of the copying ring ends with the status of the program's post, also for a message that cannot be tagged, and one that fails leaves the queues alone. |
| RingOfPrograms.SendsItsOwn | tests/mock_transport.cpp:166-178 | The payload the ring copies when a send is posted is what the program's own buffer holds in the region it posts. |
| RingOfPrograms.RingDelivers | include/pg_transport.h:57-62 | For every interleaving the answers the ring gives a rank deliver what its predecessor sends, and the rank's call succeeds. |
| RingOfPrograms.ProgramReturnsResult | src/ring_collectives.cpp:420-451 | The program answered by the ring ends with the buffer the ring's rank returns, the fold of all inputs. |
| ZeroCopyPrograms.RepliesAgree | include/pg_transport.h:55-67 | Along every run the zero-copy ring gives a rank the very answers the copying ring gives along the moves of that run. |
| ZeroCopyPrograms.ProgramReturnsResult | src/ring_collectives.cpp:420-451 | The program answered with what the network put into its buffers returns the fold of all inputs. |
| RingEngine.AllReduceOverRing | src/ring_collectives.cpp:420-451 | The imperative call over the copying ring succeeds, leaves the fold of all inputs in the receive buffer and is ready for the next call. |
| RingEngine.AllReduceOverZeroCopy | src/ring_collectives.cpp:420-451 | The same over the zero-copy ring. |
| MockEndpoint.ServedOldest | tests/mock_transport.cpp:110-138 | A receive takes the oldest message with its tag, leaves the order of the others alone, and fails exactly when the length differs. |
| MockEndpoint.LooksOnce | tests/mock_transport.cpp:110-138 | One look into the queue leaves receive and queue alone exactly when no message has the tag, and otherwise completes the receive from the oldest. |
| MockEndpoint.DeliverIsLook | tests/mock_transport.cpp:250-262 | The copying ring delivers a message exactly when such a look finds one, with the same payload or failure and the same queue left. |
| MockEndpoint.CountersAddUp | tests/mock_transport.cpp:76-98 | After any history of posts and waits each kind of post has added up in its own counters and the requests outstanding are those not waited for. |
| MockEndpoint.MaximumReached | tests/mock_transport.cpp:88-91 | The maximum counted is the most requests there ever were at once. |
| MockEndpoint.Endpoint.TryComplete | tests/mock_transport.cpp:110-138 | The scan takes one such look at the rank's own queue and at no other. |
| MockEndpoint.Endpoint.PostSend | tests/mock_transport.cpp:140-188 | A send is complete when posted: its payload is at the end of the successor's queue, and requests and send counters, and no others, have grown. |
| MockEndpoint.Endpoint.PostReceive | tests/mock_transport.cpp:190-230 | A posted receive is served at once if its message has come; otherwise it stays open and the queues stay as they were. |
| MockEndpoint.Endpoint.Test | tests/mock_transport.cpp:232-248 | A test of an open receive looks once more, and says done exactly when a message with its tag was queued; otherwise nothing changes. |
| MockEndpoint.Endpoint.Wait | tests/mock_transport.cpp:250-270 | A wait blocks exactly while its receive is open and no message with the tag is queued, and then changes nothing; else it reports and consumes the request; the outstanding counter is always the number of requests not consumed. |
| VerbsEndpoint.NeverConfused | src/verbs_transport.cpp:470-474 | In every history of posts, device reports, polls and waits no completion names an unknown request, and a wait returns exactly when its request was reported, with the verdict on its own completion. |
| VerbsEndpoint.SendVerdict | src/verbs_transport.cpp:486-494 | In every history a wait for a send returns success exactly when the device, handed a send for an eager and a write for a rendezvous request, reported success. |
| VerbsEndpoint.ReceiveVerdict | src/verbs_transport.cpp:495-507 | In every history a wait for a receive returns success exactly when the device reported success and what came was sent in the same mode and with the same tag. |
| VerbsEndpoint.PostRecorded | src/verbs_transport.cpp:336-341 | A request is entered with the kind and tag it was posted with and with the mode asked for or, that left open, the one for its size. |
| VerbsEndpoint.Accounting | src/verbs_transport.cpp:341-347 | In every history the pending requests are as many as the device accepted less those consumed. |
| VerbsEndpoint.HistorySound | src/verbs_transport.cpp:470-596 | Every event keeps the endpoint sound: no completion is lost, made up, seen twice or taken for another's. |
| VerbsEndpoint.EnterOk | src/verbs_transport.cpp:333-341 | Registering and entering a request keeps every memory region held by one pending request or released once. |
| VerbsEndpoint.FailedPostOk | src/verbs_transport.cpp:356-365 | A post the device refuses gives its memory back at once and leaves the pending requests as they were. |
| VerbsEndpoint.Endpoint.PostReceive | src/verbs_transport.cpp:313-386 | The checks, the registration, the post and its undoing in the code's order; what is pending, handed to the device and announced follows from the arguments, rendezvous receives without a buffer; a failing announcement leaves the request pending; ids strictly increase. |
| VerbsEndpoint.Endpoint.PostSend | src/verbs_transport.cpp:388-468 | The same for sends, with the descriptor read and checked before anything is registered; eager requests go out as sends and others as writes to the memory the descriptor names, each with the tag. |
| VerbsEndpoint.Endpoint.PollAvailable | src/verbs_transport.cpp:527-543 | Batches of 16 take the whole queue; over an honest device no completion is unknown and the endpoint stays sound. |
| VerbsEndpoint.Endpoint.WaitRequest | src/verbs_transport.cpp:574-591 | Polling for one request notes the completions of others with theirs; over an honest device it is never confused. |
| VerbsEndpoint.Endpoint.TestRequest | src/verbs_transport.cpp:557-572 | Over an honest device a test says done exactly when the request's completion was reported. |
| VerbsEndpoint.Endpoint.Destroy | src/verbs_transport.cpp:221-247 | Destruction releases the memory of every pending request, after which every region ever registered has been released exactly once. |
| Bootstrap.BarrierSafe | src/process_group_api.cpp:415-445 | A rank past the barrier knows that both neighbours have brought up both queue pairs with the right peers, and no rank ever reads anything unexpected. |
| Bootstrap.ParityProgress | src/process_group_api.cpp:361-371 | With even ranks connecting first and odd ones listening first, for odd sizes too, every unfinished state has a rank that can move and no run exceeds 13 calls a rank. |
| Bootstrap.FinishesExactlyWhenMixed | src/process_group_api.cpp:398-407 | For any choice of who connects first, the handshake can be finished if and only if not all ranks begin alike. |

## Left out

- Sockets, name resolution and the byte-wise `read_all` and `write_all`: the control link of a descriptor is assumed to be a reliable FIFO of whole messages.
- The InfiniBand network: a link is assumed to deliver sends in the order they were posted and to consume receive work requests in the order they were posted; reads and writes of elements may happen in any order between post and completion.
- Memory keys, addresses, work request pointers and thread yielding: a memory region is a number or a range of positions, a request a fresh number.
- IEEE arithmetic: floating-point elements are values of an arbitrary type with an arbitrary operation, so rounding and NaN show only as missing laws.
- Partially overlapping send and receive buffers, which the code copies with `memcpy`, and null arguments of the C functions other than those of `reduce_typed`.
- Transfer modes other than the three enumerated ones.
- Recovery after a failure: the code is fail-fast, and so is the model.
- Allocation failures and exceptions for lack of memory.
- `connect_process_group` before line 349 (environment, devices, queue pair creation), the C wrappers, benchmarks, runners and scripts.
- Phases called in another order than reduce-scatter and then all-gather: the groups run whole calls, one after the other; `Engine.Context.ReduceScatterInPlace` and `AllGatherInPlace` are proved as methods but not composed in other ways.
- The counters of requests per transfer mode of the test transport.
- Locks and condition variables of the test transport: each of its operations is one atomic step, and a wait that blocks changes nothing.
- Engine.Context.AllReduce: lengths are counted in elements of one type per context, so the byte arithmetic on buffers shows only in the sizes of the requests.
- ZeroCopyLimits.FinishesExactlyWithin: memory registration and writing a descriptor always succeed, because the model has no cause for them to fail.
- VerbsEndpoint.SendVerdict: that the receiver's buffer is long enough is part of the device's success; `ZeroCopyEndpoints.FlightVerdict` says when it is.
- VerbsEndpoint.NeverConfused: the device reports each accepted request at most once and nothing else; an error return of the completion queue itself is not modelled.
- Bootstrap.ParityProgress: a connect is retried until its peer listens, while the code gives up after 100 attempts.
