# A verified model of the dis-kverbs data path

dis-kverbs is a Linux kernel RDMA driver that carries RDMA operations over PCI Express. This project models its
data path in Dafny and proves properties of the model:

* posting a work request turns its virtual-memory segments into a page-granular I/O vector in a slot of a
  work-queue ring;
* a worker thread per work queue takes the elements out, hands each to the message-queue library until it
  succeeds or the thread is told to stop, and posts a completion to a completion ring shared under a lock;
* the user polls the completions.

## How the model is laid out

| file | contents |
|---|---|
| Circ.dfy | the masked arithmetic of `circ_buf.h`, ring sizing, a ring as a window on an unbounded sequence |
| Gather.dfy | the meaning of a request (one physical address per byte) and the list built for it, with the lemmas that join them |
| WorkElement.dfy | work-queue elements, completions, messages; what a correctly built element is (`Built`) |
| WorkQueue.dfy | the two passes over the segments in place, the class of a work queue, posting of one request and of a chain |
| CompletionQueue.dfy | the class of a completion queue: posting a completion, polling |
| Worker.dfy | retry and partial-receive loops, draining a ring |
| WorkerAlone.dfy | the worker of the concurrent machine, left to itself, does what the methods of Worker.dfy do |
| Pipeline.dfy | the concurrent machine: any number of work queues (poster, worker, control thread each), one completion queue and its poller |
| PipelineInv.dfy, PipelineSystem.dfy | its invariant and the proof that every step keeps it |
| PipelineTheorems.dfy, PipelineRuns.dfy, PipelineProgress.dfy | theorems about every reachable state, about runs, and about bounded progress |
| PipelineService.dfy | what can be brought about from every reachable state: bringing a queue up, posting, completing, polling |
| PipelineLife.dfy | workers without a connection, after a signal and after a stop; the map of the element in work |
| Registration.dfy | what the calls on a protection domain mean to their callers, up to the bytes of a posted message |
| ProtectionDomain.dfy | tables, counters and memory of a protection domain under failing allocations |
| QueuePairing.dfy | the even/odd message-queue identifiers, from the transition to RTR to the connections of two nodes |
| PageMaps.dfy | the field `page_map_dynamic` of a ring's slots, literally as the driver handles it |

Sequential code (posting, polling, registration) is modelled by classes and loops that are proved against
specification functions. Code that runs concurrently is modelled by the machine of Pipeline.dfy. There each step
makes at most one access to a variable that another thread may write: reading the indices, beginning and completing a slot,
publishing an index, reading a slot, retiring it, testing the stop request, reading or setting the flag and the
state are separate steps, and a slot being written holds arbitrary contents in between. Both sides use the same
functions for the ring macros, for what a built element is and for what a completion copies, so the element that
`WorkQueue.Wq.PostOne` is proved to build is the element that a poster of the machine publishes.

The transport, memory allocation and page pinning are oracles: their outcomes are parameters of the methods and
choices of the machine's steps, restricted only as listed next.

## Assumptions

The driver relies on these without checking them; they appear as preconditions or in the shape of the machine.

* Posters of one work queue are serialised, and so are pollers of one completion queue.
* Each `lkey` used is below 100 and names a region that has not been deregistered, or a table entry that is still
  null (that request is refused); each segment lies inside its region.
* The first four segments of a request are all user memory or all DMA. In the mixed case the DMA entries go to
  `page_map_static[i]` while the second pass fills the list from its start without skipping them
  (src/driver/dis_qp.c:354, 392-398), so the list is not laid out consistently. DMA lengths sum below 2^32.
* Each work queue gets at most one worker thread (a queue pair goes to RTR once; `dis_qp_init` itself refuses only
  an exited queue, src/driver/dis_qp.c:284). A created worker enters `dis_wq_thread`.
* The machine of Pipeline.dfy starts from rings of a legal size, that is, requested for fewer than 2^31 elements. No
  ring is requested for 2^32 - 1: the argument of `roundup_pow_of_two` would be 0, for which it has no defined result.
* The module parameters `is_initiator` and `use_l_qpn`, which may be written at run time
  (src/driver/dis_sci_if.c:22-23), stay as they are while queues exist. A role that changes between the two calls of
  one queue pair would give its queues the same id.
* A successful receive reports at most the number of bytes asked for.
* Memory is sequentially consistent.
* Statements about byte counts assume that 1024 pages span at most 2^32 bytes, as 4096-byte pages do. The page
  size is otherwise an arbitrary positive number.

## Where the model departs from the code

A worker frees `page_map_dynamic` but leaves the address in the slot (src/driver/dis_qp.c:172-174), and a later
request with at most four entries does not reset it. The model of the rings clears it when the map is freed. Module
PageMaps keeps the code as it is, for a whole ring and the requests posted to it, and proves when the stale address
does harm: a map is freed twice exactly if a request with at most four entries is served from a slot whose last use
was a request with more.

A queue goes under its queue pair's number only if the transition to RTR came with IB_QP_DEST_QPN, which the code
does not insist on (src/driver/dis_verbs.c:465-474). Without it the number stays 0, and two such queue pairs share
all their ids. Module QueuePairing states what holds for every choice of masks.

A ring size is kept in 32 bits, and a request for 2^31 elements or more is stored as size 0
(src/driver/dis_verbs.c:274, 383, 399). Module Circ proves that this is exactly the range that goes wrong.

The 32-bit addition, the 32-bit ring size and its mask, the 16-bit byte count of a completion, the conversion of the byte count to `int` and back and
the 64-bit index subtraction are modelled with their wrap-around. Other integers are unbounded.

## Model

| member | source | states |
|---|---|---|
| Circ.CountersExact | src/driver/dis_qp.c:322-329 | for every power-of-two size up to 2^31, the bitwise-masked, wrapping CIRC_CNT and CIRC_SPACE of two stored indices give the exact count and space of the unbounded counters they stand for, and the masked advance steps the counter |
| Circ.RoundupIsLeast | src/driver/dis_verbs.c:274 | roundup_pow_of_two yields the least power of two that is at least its argument |
| Circ.RingSizing | src/driver/dis_verbs.c:383-399 | a ring created for fewer than 2^31 elements gets a legal size and reports full only when at least the requested number is outstanding; from 2^31 on, and only then, the 32-bit size field holds 0, and the macros count as if the ring without slots had 2^32 of them |
| Circ.RoundupFits | src/driver/dis_verbs.c:274 | the rounded size is legal if and only if its argument is at most 2^31, and is 2^32 above that |
| Circ.OversizedExample | src/driver/dis_verbs.h:94-99 | a request for 2^31 elements is stored as size 0, and the empty ring then reports 2^32 - 1 free slots |
| Circ.PublishHead | src/driver/dis_qp.c:413-414 | publishing the head makes the head slot's contents the next element of the sequence the ring stands for, as long as one slot stays unused |
| Circ.RetireTail | src/driver/dis_qp.c:176-177 | advancing the tail takes exactly the oldest element out of that sequence |
| Circ.LiveIsHistory | src/driver/dis_qp.c:146-153 | the slots between tail and head, read through the masked indices, are the unretired part of the sequence in order |
| Gather.ChunksVisit | src/driver/dis_qp.c:400-410 | the k-th byte reached by walking a segment's page-sized pieces is the page-table translation of the segment's k-th byte |
| Gather.IovsVisit | src/driver/dis_qp.c:391-411 | for any segments, walking the whole list visits the translated address of every byte in order, and as many as the segments are long |
| Gather.ReservationSlack | src/driver/dis_qp.c:363-372 | the sizing formula reserves at most one entry too many for a segment, and is exact if and only if the length is positive and length plus in-page offset is not a multiple of the page size |
| Gather.SizingBoundsFilling | src/driver/dis_qp.c:339-373 | entries written are at most the entries reserved, which exceed them by at most one per segment; for DMA segments both are the number of segments |
| Gather.EntryLimitBoundsLength | src/driver/dis_qp.c:375-378 | an accepted user-memory request is strictly shorter than DIS_MAX_IOVLEN pages, hence below 2^22 bytes at 4096-byte pages |
| WorkElement.ByteLenExact | src/driver/dis_qp.c:357-405 | the 32-bit byte count of an accepted request does not wrap |
| WorkElement.MessageReadsRequest | src/driver/dis_qp.c:375-411 | reading byte_len bytes through the list handed to the transport visits the translated address of every requested byte once and in order, whatever the unwritten reserved entries hold |
| WorkElement.LengthIsSum | src/driver/dis_qp.c:340-405 | a request's length is the sum of the lengths of the first min(num_sge, 4) entries of its list |
| WorkElement.MessageByte | src/driver/dis_qp.c:340-411 | for each of the first min(num_sge, 4) entries of a request's list, its k-th byte stands in the message behind the bytes of the entries before it, and is the byte at the translated address |
| WorkElement.AcceptedExactly | src/driver/dis_qp.c:344-378 | a request is accepted if and only if each of these entries names a registered region and their page reservations add up to at most DIS_MAX_IOVLEN; the sum is the length of the I/O vector |
| WorkElement.OwnMapExactly | src/driver/dis_qp.c:379-389 | an element gets a map of its own if and only if the reservations exceed DIS_SGE_PER_WQE |
| WorkElement.OneToOneAccepted | src/driver/dis_qp.c:352-361 | DMA entries with lengths that sum below 2^32 are always accepted, with one entry of the I/O vector each |
| WorkElement.CompletionFields | src/driver/dis_verbs.h:64-70 | from posting to polling, queue pair, opcode and status survive; the identifier survives exactly if below 2^32 and the byte count exactly if below 2^16 |
| WorkQueue.SizePass | src/driver/dis_qp.c:339-373 | pass one succeeds exactly if every region is registered, and leaves the exact estimate, cursors that describe the segments, and complete entries for DMA segments |
| WorkQueue.FillSegment | src/driver/dis_qp.c:400-410 | the splitting loop terminates, stays inside the page table and the store, writes exactly the segment's pieces behind what was there, and adds its length to the 32-bit count |
| WorkQueue.FillPass | src/driver/dis_qp.c:391-411 | pass two puts the whole list in the chosen store, and for DMA requests changes nothing |
| WorkQueue.BuildMap | src/driver/dis_qp.c:339-411 | building succeeds exactly if regions exist, the estimate is within DIS_MAX_IOVLEN, and a needed allocation succeeds; then the list and the byte count are right |
| WorkQueue.Wq.constructor | src/driver/dis_verbs.c:378-392 | a new queue is empty and has the rounded-up size, exactly if it was requested for fewer than 2^31 elements; otherwise its buffer has no slot |
| WorkQueue.Wq.PostOne | src/driver/dis_qp.c:309-417 | one request is appended, correctly built, exactly if a slot is free and the request is postable, with a map of its own exactly if it could not be posted without an allocation; otherwise the queue, its live slots and its indices are unchanged |
| WorkQueue.Wq.PostList | src/driver/dis_verbs.c:528-578 | a chain of any length appends exactly the requests before the first that fails, in order, and says so |
| CompletionQueue.Cq.constructor | src/driver/dis_verbs.c:266-287 | a new completion queue is empty and has the rounded-up size, exactly if it was requested for fewer than 2^31 completions; otherwise its buffer has no slot |
| CompletionQueue.Cq.PostCqe | src/driver/dis_qp.c:8-74 | a completion is appended, and dropped exactly if the ring is full |
| CompletionQueue.Cq.PollCq | src/driver/dis_verbs.c:289-322 | polling returns and removes exactly the oldest min(num_wc, pending) completions in order, none for a count that is not positive, and writes no other entry of the caller's array |
| Worker.ReceiveAccounting | src/driver/dis_qp.c:81-104 | for every sequence of failed and partial receives, bytes delivered plus bytes missing is the total; success only when all came, and a stop before that leaves a positive remainder unless nothing was asked for |
| Worker.ReceiveSucceeds | src/driver/dis_qp.c:84-96 | a receive succeeds if and only if after some successful call the bytes moved so far are all that were asked for |
| Worker.ConsumeOneRqe | src/driver/dis_qp.c:76-110 | the loop with its signed counters ends as that accounting says for every 32-bit length: success restores the total in the element, a stop leaves the exact remainder |
| Worker.ConsumeOneSqe | src/driver/dis_qp.c:112-136 | a send succeeds if and only if some call is accepted before the stop; the messages accepted in the calls made are then exactly one, the element's, and none otherwise |
| Worker.RunShape | src/driver/dis_qp.c:138-182 | the completions of a drain follow the order of the queue and all but the last are successes |
| Worker.RunCovers | src/driver/dis_qp.c:145-182 | a drain that ends before queue and outcomes are used up ends with a timeout |
| Worker.ConsumeAll | src/driver/dis_qp.c:138-182 | draining retires exactly the completed prefix of the queue and leaves no map in the slots it gives back, the completion ring takes their completions in order while it has space, and the drain reports a stop if and only if the outcomes were used up or the last completion was a timeout; otherwise the ring is empty |
| WorkerAlone.AttemptReceives | src/driver/dis_qp.c:81-104 | the receive loop of the concurrent machine, for every list of outcomes, ends with the status, the remainder and the byte count of the sequential accounting |
| WorkerAlone.AttemptSends | src/driver/dis_qp.c:117-131 | the send loop of the concurrent machine sends the element's message once if some outcome is a success, and otherwise ends at the stop |
| WorkerAlone.AloneIsConsumeAll | src/driver/dis_qp.c:138-182 | a worker of the concurrent machine that runs alone generates exactly the completions of the sequential drain, in order, retires their elements, leaves the same queue, and the completion ring takes the same ones |
| PipelineSystem.StepKeepsInv | src/driver/dis_qp.c:8-562 | every step of every poster, worker, control thread and poller keeps the system invariant |
| PipelineSystem.RunInv | src/driver/dis_qp.c:8-562 | every state of every run satisfies the invariant |
| PipelineTheorems.FifoConservation | src/driver/dis_qp.c:138-182 | in every reachable state, polled followed by queued completions of a queue are exactly those its worker generated and the ring took, and every posted request is polled, queued, dropped or still in the ring, counted once |
| PipelineTheorems.FifoOrder | src/driver/dis_verbs.c:289-322 | without drops, the identifiers of polled completions, queued completions and uncompleted ring slots, concatenated, are those of the posted requests in posting order |
| PipelineTheorems.PolledCompletion | src/driver/dis_qp.c:16-37 | the k-th completion polled from a queue without drops is that of its k-th request: own queue pair, opcode and identifier; on success the whole length modulo 2^16 with every byte received; after a stop the exact remainder |
| PipelineTheorems.SendsExactlyOnce | src/driver/dis_qp.c:112-136 | the messages accepted by the transport are those of a prefix of the posted requests, once each and in order, and reading each visits the translated bytes of its request |
| PipelineRuns.RetriesChangeNothing | src/driver/dis_qp.c:84-131 | over any stretch of a run in which the calls of a worker fail, the element in its slot stays as it was, byte count included, and nothing is received, sent, completed or retired |
| PipelineTheorems.ReceiveAccountingInRun | src/driver/dis_qp.c:81-104 | at the loop head of every receive in every run, bytes received plus the byte count in the slot is the request's length |
| PipelineTheorems.WqeSlotSafety | src/driver/dis_qp.c:322-414 | in every reachable state, a poster that writes a slot with a possibly stale tail has room to publish it and writes no live slot, so not the one in work; a worker only works on a published slot; live slots keep what was posted |
| PipelineTheorems.CqeSlotSafety | src/driver/dis_qp.c:16-71 | in every reachable state, at most one worker is in the critical section; it has room for the slot it writes, which is not live and never the one being copied; the unlocked poller copies and retires only a published completion, unaltered; live slots keep what was published |
| PipelineTheorems.NoLostWakeup | src/driver/dis_qp.c:255-270 | a worker at its wait with a non-empty ring has the flag set, or a poster is about to set it and will not be refused; this covers requests posted before the queue was initialized |
| PipelineRuns.CompletionShape | src/driver/dis_qp.c:76-136 | all completions a worker has generated but the last are successes, and a timeout implies a stop request |
| PipelineLife.SuccessMeansSent | src/driver/dis_qp.c:112-136 | the k-th completion of a send queue is a success if and only if the k-th message was accepted by the transport |
| PipelineLife.MapFreedBeforeRetiring | src/driver/dis_qp.c:172-177 | the map of an element is there until its completion has been posted, and gone when its slot is given back |
| PipelineRuns.TimeoutIsFinal | src/driver/dis_qp.c:145-182 | after a timeout the worker completes nothing more in the rest of the run, and retires no element behind the one that timed out |
| PipelineRuns.FullBranchUnreachable | src/driver/dis_qp.c:18-25 | a worker finds space in the completion ring whenever posted minus polled requests of all queues is at most one less than the ring's size |
| PipelineRuns.NothingDropped | src/driver/dis_qp.c:52-59 | in a run within that bound no completion of any queue is ever dropped |
| PipelineRuns.StateMovesForward | src/driver/dis_qp.c:280-307 | a queue's state never moves back in any step, except for the reset when thread creation fails |
| PipelineRuns.TeardownBeforeExited | src/driver/dis_qp.c:240-278 | teardown happens at most once, before the exited state, and exactly if the connection was established |
| PipelineRuns.ExitIsFinal | src/driver/dis_qp.c:545-562 | after dis_qp_exit has returned, the worker has returned or never existed and takes no step in the rest of the run |
| PipelineLife.ExitStopsTheLiving | src/driver/dis_qp.c:545-554 | dis_qp_exit asks a worker to stop if and only if there is one that has not returned, and otherwise returns at once |
| PipelineLife.NoConnectionNoWork | src/driver/dis_qp.c:184-217 | as long as every attempt to establish the message queue fails, no request is sent, received, completed or retired and nothing is torn down |
| PipelineLife.KillEnds | src/driver/dis_qp.c:263-278 | after a fatal signal at the wait the worker takes exactly two more steps, ends torn down and exited, and touches no request in the rest of the run |
| PipelineLife.CanDestroy | src/driver/dis_qp.c:545-562 | from every reachable state, unless the queue is just being brought up, some schedule of at most 88 steps brings dis_qp_exit to its end |
| PipelineProgress.DrainBound | src/driver/dis_qp.c:255-270 | with posters idle, no stop and a succeeding transport, under every interleaving of the other threads, a worker takes at most 12 steps per element in its ring and 7 more |
| PipelineProgress.RingDrains | src/driver/dis_qp.c:255-270 | under the same conditions the ring is empty once the worker has taken that many steps, and until it is empty the worker can take a further step, or the holder of the lock it waits for can |
| PipelineProgress.CanDrain | src/driver/dis_qp.c:138-182 | from every reachable state of a serving queue whose poster is idle, some schedule of at most 72 steps per element and 47 more empties the ring |
| PipelineService.CanStart | src/driver/dis_qp.c:280-307 | from every reachable state before RTR, four steps of the control thread initialize the queue and create a worker that serves, and change nothing else; if the thread is not created, the queue is as before but for the flag |
| PipelineService.CanServeAll | src/driver/dis_qp.c:138-182 | from every reachable state of a serving queue whose poster is idle, some schedule of at most 72 steps per element and 47 more completes everything posted, with success |
| PipelineService.StartServesAll | src/driver/dis_qp.c:255-303 | everything posted to a queue before RTR, whose notifications were refused, can be completed after it is brought up |
| PipelineService.PostFindsRoom | src/driver/dis_qp.c:322-329 | a poster goes on if and only if fewer elements are outstanding than the ring may hold, and otherwise changes nothing |
| PipelineService.CanPost | src/driver/dis_qp.c:309-417 | whenever there is room, an accepted request can be posted in at most seven steps, which append its element, set the flag unless the queue is uninitialized, and change nothing else |
| PipelineService.PollAdvances | src/driver/dis_verbs.c:298-319 | in every reachable state the poller finds a completion if and only if there is one, takes the oldest, and otherwise changes nothing |
| PipelineService.CanPollAll | src/driver/dis_verbs.c:289-322 | polling on takes all queued completions, oldest first, three steps each |
| PipelineService.CanReportAll | src/driver/dis_verbs.c:528-578 | from every reachable state of a queue that serves or was never brought up, with its poster idle, some schedule lets the user poll a success, with the right identifier and byte count, for every request posted that the completion queue did not drop |
| PipelineService.NewSystemReachable | src/driver/dis_verbs.c:378-403 | any queues that differ in queue pair or direction, with any sizes below 2^31, make a system that the theorems apply to |
| PipelineProgress.WaitingMeansDrained | src/driver/dis_qp.c:263-265 | a worker that waits unannounced while no poster is under way has an empty ring |
| PipelineProgress.NeverStuck | src/driver/dis_qp.c:16-37 | a worker that is not finished or waiting can step, or waits for the lock whose holder can step |
| PipelineProgress.StopBound | src/driver/dis_qp.c:545-562 | once a stop is requested a worker takes at most 13 more steps whatever everything else does |
| PipelineProgress.StoppedReturns | src/driver/dis_qp.c:240-278 | after that many steps a stopped worker has returned or never existed, and until then it can take a further step, or the holder of the lock it waits for can |
| PipelineProgress.CanExit | src/driver/dis_qp.c:545-562 | from every reachable state in which dis_qp_exit has found the worker alive, some schedule of at most 86 steps lets it return |
| ProtectionDomain.RunConserves | src/driver/dis_verbs.c:137-264 | after any sequence of calls with any allocation failing, the blocks in use are exactly those of the live objects, and the tables name them and give valid regions |
| ProtectionDomain.NeverReissued | src/driver/dis_verbs.c:156-159 | no key and no queue pair number is issued twice in the life of a domain |
| Registration.DmaRegistration | src/driver/dis_verbs.c:137-163 | dis_get_dma_mr succeeds if and only if a key is left and memory is found, and its region maps every address to itself |
| Registration.UserRegistration | src/driver/dis_verbs.c:165-249 | dis_reg_user_mr succeeds if and only if a key is left, every allocation succeeds and every page has an address; it enters one object and changes no other |
| Registration.RegionTranslates | src/driver/dis_verbs.c:211-230 | after a registration each address of the memory is translated to its byte in the pinned pages, with the page index inside the list |
| Registration.RegionInside | src/driver/dis_verbs.c:223-226 | a segment lies inside the registered region if and only if its addresses lie in the memory |
| Registration.EntryStays | src/driver/dis_verbs.c:156-159 | along a run a key keeps its entry, and its object until a call releases it |
| Registration.PostedBytesArePinned | src/driver/dis_qp.c:344-411 | a request built in any later state, with a segment that names the key of a registration, reads the bytes of the pages pinned by that registration |
| Registration.DeregReleases | src/driver/dis_verbs.c:251-264 | after dis_dereg_mr the region and exactly its memory are gone |
| Registration.QpCreation | src/driver/dis_verbs.c:342-426 | dis_create_qp succeeds if and only if a number and all memory are found; each of the two rings gets the least power of two above its own number of requests and is found full only when that many are outstanding |
| Registration.DestroyReleases | src/driver/dis_verbs.c:513-526 | after dis_destroy_qp the queue pair and exactly its memory are gone |
| ProtectionDomain.Pd.GetDmaMr | src/driver/dis_verbs.c:137-163 | registers under the next key, or changes nothing |
| ProtectionDomain.Pd.StorePages | src/driver/dis_verbs.c:211-221 | the page list is complete, or a page without an address is reported |
| ProtectionDomain.Pd.TakeBlocks | src/driver/dis_verbs.c:238-248 | an object gets all its blocks, or a failed allocation leaves memory as it was |
| ProtectionDomain.Pd.RegUserMr | src/driver/dis_verbs.c:165-249 | all or nothing: after a failure at any step memory, table and counter are as before |
| ProtectionDomain.Pd.DeregMr | src/driver/dis_verbs.c:251-264 | releases exactly the blocks of the region |
| ProtectionDomain.Pd.CreateQp | src/driver/dis_verbs.c:342-426 | all or nothing, with rounded-up ring sizes and the next queue pair number |
| ProtectionDomain.Pd.DestroyQp | src/driver/dis_verbs.c:513-526 | releases exactly the blocks of the queue pair |
| QueuePairing.CreateMsqIds | src/driver/dis_sci_if.c:41-45 | the ids of a receive queue: twice the numbers, plus one on the responder |
| QueuePairing.ConnectMsqIds | src/driver/dis_sci_if.c:109-113 | the ids of a send queue: twice the numbers, plus one on the initiator |
| QueuePairing.Qp.ToRtr | src/driver/dis_verbs.c:461-488 | the two queues of a queue pair taken to RTR go under its number if the mask has IB_QP_DEST_QPN, and under 0 otherwise |
| QueuePairing.NumbersAreIssued | src/driver/dis_verbs.c:368-412 | the numbers of the queue pairs ever created in a domain differ from one another and from 0 |
| QueuePairing.LocalIdsDistinct | src/driver/dis_verbs.c:464-488 | the local ids of all queues of a domain's queue pairs that were ever taken to RTR differ if and only if at most one of these went there without IB_QP_DEST_QPN |
| QueuePairing.WithoutNumberCollide | src/driver/dis_verbs.c:464-488 | any two queue pairs taken to RTR without IB_QP_DEST_QPN have the same ids in each direction |
| QueuePairing.CollisionExample | src/driver/dis_verbs.c:464-488 | the first two queue pairs of a domain are such a pair |
| QueuePairing.PairingExact | src/driver/dis_sci_if.c:41-113 | two queues of two nodes name each other if and only if their numbers do and their directions differ exactly when the roles do |
| QueuePairing.EachSendQueueHasOnePeer | src/driver/dis_verbs.c:465-474 | between nodes of opposite roles and equal queue pair numbers, a send queue meets exactly the receive queue of its own queue pair's number if and only if both ends had IB_QP_DEST_QPN set, or neither had and the peer has no other such queue pair |
| QueuePairing.AllPaired | src/driver/dis_verbs.c:465-474 | all send queues of a node are paired so if and only if both nodes used the same masks and at most one queue pair went without IB_QP_DEST_QPN |
| PageMaps.MapsFreedOnce | src/driver/dis_qp.c:172-174 | with the field left as the code leaves it, over every sequence of posts, refusals, failed allocations and turns of the worker on a ring, no map is freed twice if and only if no request of at most four entries is served whose slot was last used by a request of more; then exactly the maps of the requests served are freed |
| PageMaps.DoubleFree | src/driver/dis_qp.c:375-389 | in the ring created for one request, any accepted request of more than four entries followed by two of at most four has its map freed twice |
| PageMaps.ExampleAccepted | src/driver/dis_qp.c:363-378 | a request of a given length in a region of four pages is well formed and accepted, with one entry more than its length has whole pages |
| PageMaps.DoubleFreeExample | src/driver/dis_qp.c:375-389 | four pages and then twice one byte are such requests |

## Left out

- Module registration, device and bus plumbing (src/bus, src/device, src/driver/dis_driver.c), query verbs and verbs that are stubs: no algorithm to state.
- Shared receive queues: they never get a worker or a connection and their rings are sized without the extra slot.
- The SCI message library, its DMA variants and the NTB hardware: an oracle for success, failure and byte count. Where in the buffer the rest of a partial receive lands is decided there. The width of `iovlen` in its message type is not visible; the model takes it as unbounded.
- Weak memory, spinlock and scheduler internals, the back-off delays, the error encoding of `kthread_create`: steps interleave atomically. A wake-up is the fact that the wait's condition holds.
- Mixed DMA and user-memory requests, repeated transitions to RTR, several protection domains, and use of a key after deregistration: the code gives no consistent behaviour there.
- The order in which dis_modify_qp and dis_destroy_qp treat the two queues of a pair: each queue has its own control thread, so every order is covered but none is singled out.
- Page maps of elements that are still in a ring when its queue pair is destroyed: the code does not release them and nothing is claimed about them.
- WorkQueue.BuildMap: builds the list in an array of its own and stores its contents in the slot; that the static map is memory inside the slot, and what else might point into it, is not captured.
- WorkQueue.Wq.PostList: takes the chain of requests as a sequence, not as a linked list.
- Worker.ConsumeAll: runs without other threads; the concurrent worker is that of Pipeline.dfy, and WorkerAlone.AloneIsConsumeAll joins the two. The outcome lists of the calls are given in advance.
- ProtectionDomain.Pd.RegUserMr: the pinned pages come as one list as long as the page count; the scatter list iterator is not modelled.
- PageMaps.MapsFreedOnce: a call that posts and a turn of the worker are one step each there; by PipelineTheorems.WqeSlotSafety they work on different slots.
- QueuePairing.Qp.ToRtr: covers the first transition to RTR of a queue pair; the path MTU that the same call may set is not modelled.
