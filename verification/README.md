# The write path of InfluxDB Relay, verified

This project models how the relay moves writes to its backends and proves what the
design promises about it.

* **Retry buffer** (`relay/retry.go`). Any number of `post` calls and one `run` goroutine
  per backend share a bounded queue of batches and a `buffering` flag.
  `BatchList` says what `add` does to the queue as a value; `BufferList` is the linked list
  with its pointer-to-pointer walk, updated in place and proved to do exactly that;
  `RetryRun` is the body of `run` with its pauses. `RetryMachine` is the concurrent system:
  one step per atomic access, critical section, POST or buffer read, interleaved freely, with
  the backend's answers chosen by the steps. `RetryInvariants` and `RetryTheorems` prove what
  every reachable state satisfies; `RetryTraces` ties the record of POSTs to the steps of a run,
  and `RetryReasons` says why a post got to where it is. `RetryRaces` gives the runs that show
  the limits, `RetryOrder` says when the order of acceptance is kept, `RetryMemory` how much the
  buffer holds, and `RetryOptions` what the configured sizes mean in bytes. `RetryRecovery`
  proves that a backend that takes data again gets everything that was accepted.
* **Fan-out** (`relay/http.go`). `FanOut` is the handler's receive loop. `RelayMachine` adds
  requests, their goroutines, the response channel, the closer and the pool of buffers around
  the machines of all backends; `RelayInvariants` and `RelayTheorems` prove that each backend
  on its own behaves as in `RetryMachine`, and from that the lifetime of the shared output
  buffer; `RelayTraces` states delivery end to end for the bytes, query and auth that requests
  arrived with. `RelayRaces` states for which configurations a 204 can be trusted.
* **UDP** (`relay/udp.go`). `UdpSplit` is the loop that cuts a payload at line ends; `UdpRun`
  the queue between the reading and the posting goroutine, drained on shutdown.

A buffered write is a `Write(req, buf, data)`: the request, the pooled buffer its bytes live
in, and what the buffer held when the write was handed over. The queue uses only the length of
`data`; what is sent is read from the buffer at the moment of the copy, so sending the right
bytes depends on the buffer not being recycled early, which is proved. `popped` keeps the batches
that have left the queue, since `run` and the waiters still point to them; the part of `arrivals`
not yet received is the content of the channel. `accepted`, `openers`, `log`, `consumed`, `read`,
`done`, `sent`, `faults` and the mark `overtaken` only record what happened; that `log`, `read` and
`faults` record it rightly is proved against the steps of the run (`LogExact`, `ReadsConserved`,
`FaultExact`).

## What is not true of the code

* `add` evaluates `*cur` after it has unlocked (`relay/retry.go:198-199`). The read is a step of
  its own here. It yields the wrong batch exactly when the write's batch was at the head and has
  been popped meanwhile, and nil exactly when moreover nothing is queued (`LateReadExact`).
  Then `post` dereferences nil, which can happen exactly for retry buffers with
  room for a byte (`CrashExact`), or returns the answer to another write, which can happen for the
  same backends (`AnswerExact`); the client can get a 204 although the only answer its bytes ever
  got is a 400 (`FalseSuccess`). So "204 means some backend answered 2xx to these bytes" holds for
  a configuration exactly when no output is buffered (`DeliveryExact`,
  `DeliveryExactForOutputs`); per request it holds unless the request was overtaken in this way
  (`EndToEndDelivery`). That the data was taken with something other than a 5xx holds regardless
  (`NoContentMeansTaken`).
* The flag can stick, and a waiter can starve, when a write is empty, because `pop` waits for
  bytes rather than for a batch; the flag also sticks when a write is larger than the whole
  buffer (`FlagExact`, `StarvesExact`).
* Buffered data does not go out in the order it was received, as line 130 of the repository's
  `README.md` has it, once there are two keys and room for two writes in a batch and three in the
  buffer; that condition is exact (`OrderExact`). Within a key order is kept (`StreamRefinement`),
  and across keys overtaking is bounded (`BoundedOvertaking`).
* `buffer-size-mb` is not an upper limit on the data kept in memory, as line 119 has it: a batch no
  longer counts once it is popped (`relay/retry.go:151`), but its writes stay in memory until it has
  been delivered. Every buffer with room for a byte can exceed its limit (`MemoryExact`); at worst it
  holds twice as much (`MemoryBound`, `HoldsTwice`). The joined copy that `run` makes of the body
  (`relay/retry.go:76-78`) comes on top and is not counted here.
* A relayed 5xx does not mean that all backends answered 5xx, as line 107 of the repository's
  `README.md` has it: it is relayed whenever it is the last response and none was 2xx or 4xx
  (`VerdictMeans`). The two agree exactly when there is at most one backend or all are buffered
  (`ServerErrorExact`).
* A cap above 500ms * 2^34 overflows the pause after the 35th failure (`BackoffExact`).

Where the repository's `README.md` and the code differ, the model follows the code: the first
pause is twice 500ms (line 122); a 3xx or 4xx also takes a batch out of the buffer (line 125); a
batch may reach `max-batch-kb`, and a single write may exceed it (line 127); and order is kept per query and auth
only (line 130).

## Model

| member | source | states |
|---|---|---|
| `BatchList.InsertShape` | relay/retry.go:169-196 | adding a write changes the writes of one batch only: it grows at its end, or a new batch appears at the tail; batches of the same key that are passed become full, all others stay as they are |
| `BatchList.InsertByShape` | relay/retry.go:169-196 | that shape determines the result of `add` |
| `BatchList.InsertSealed` | relay/retry.go:171-186 | adding keeps exactly the last batch of each key open |
| `BatchList.SealedIndex` | relay/retry.go:180-182 | "sealed" by position: a batch is full iff a later one has its key |
| `BatchList.InsertStream` | relay/retry.go:174-196 | the writes of the key, in queue order, gain the new write at their end; no other key's do |
| `BatchList.SlotIsLast` | relay/retry.go:174-186 | a write never joins a batch that lies before another of its key |
| `BatchList.InsertPacked` | relay/retry.go:179-196 | adding keeps next-fit packing: a batch is within maxBatch or a single write, and could not have taken the write that opened its key's next batch |
| `BatchList.PackingBound` | relay/retry.go:179-190 | k >= 2 queued batches of a key hold more than floor(k/2) * maxBatch bytes |
| `BatchList.InsertSize` | relay/retry.go:166-196 | the queue gains exactly the bytes of the write |
| `BatchList.UnsealedReorders` | relay/retry.go:180-182 | for any limit: of three writes of one key, where the second does not fit the batch of the first but the third does, the third leaves before the second without the seal; with it they leave in order |
| `BatchList.BodyContains` | relay/retry.go:76-78 | a batch's body contains each of its writes as one block |
| `BufferList.BatchNode.constructor` | relay/retry.go:115-123 | a new batch: one write, its size, not full, counter 1, no response, no successor |
| `BufferList.BatchNode.Take` | relay/retry.go:192-195 | joining appends the write and its size and changes nothing else |
| `BufferList.BufferList.constructor` | relay/retry.go:133-139 | an empty valid list with the given limits |
| `BufferList.BufferList.Pop` | relay/retry.go:149-155 | with bytes queued, head is not nil; exactly the first batch leaves, and the list stays valid |
| `BufferList.BufferList.Walk` | relay/retry.go:174-186 | the pointer-to-pointer walk stops at the first batch that is open, of the key and large enough, sealing what it passes |
| `BufferList.BufferList.AppendTail` | relay/retry.go:188-190 | storing through `cur` at the end of the list links a new last node and keeps the chain |
| `BufferList.BufferList.Attach` | relay/retry.go:188-196 | after the walk exactly one node gains the write, or one new last node holds it; all others and the chain stay |
| `BufferList.BufferList.Place` | relay/retry.go:169-196 | on the heap the walk and insertion do what `Insert` does to the sequence; nodes keep their places |
| `BufferList.BufferList.AddLocked` | relay/retry.go:158-198 | refused without any change iff size + len > maxSize; otherwise the refined insertion, and where `cur` points |
| `BufferList.BufferList.Add` | relay/retry.go:158-200 | undisturbed, `add` returns the batch that holds the write |
| `BufferList.BufferList.AddWithPopBeforeReturn` | relay/retry.go:198-199 | with a pop before the late read, it does so iff the batch is not at the head; from an empty list it returns nil |
| `RetryRun.BackoffExact` | relay/retry.go:10-13 | the n-th pause is min(500ms * 2^n, cap) for all n iff cap <= 500ms * 2^34, with int64 wrap-around modelled |
| `RetryRun.IntervalUpTo` | relay/retry.go:90-97 | the closed form, also for the first 34 pauses under any cap |
| `RetryRun.BackoffOverflows` | relay/retry.go:90-97 | beyond that cap the 35th pause is negative |
| `RetryRun.BackoffMonotone` | relay/retry.go:90-97 | for caps up to 500ms * 2^34, pauses never get shorter |
| `RetryRun.RetryBuffer.constructor` | relay/retry.go:36-48 | a new buffer starts unbuffered with an empty queue |
| `RetryRun.RetryBuffer.Collect` | relay/retry.go:73-78 | the body is the batch's writes joined in order |
| `RetryRun.RetryBuffer.Deliver` | relay/retry.go:80-98 | against the answers given, for as long as they last: one POST per answer, each with the batch's key and the same body, up to and including the first answer that is no error and no 5xx, and none after it; that answer is stored, the flag cleared, the counter lowered once; until then nothing changes; one pause per failure, of the closed-form length for caps without overflow |
| `RetryRun.RetryBuffer.Round` | relay/retry.go:72-98 | one round takes exactly the head batch off the queue, and POSTs its key and all of its writes in order, once per answer until one settles |
| `RetryInvariants.KeepsInv` | relay/retry.go:50-200 | every step of every thread keeps the joint invariant |
| `RetryInvariants.CopyReadsData` | relay/retry.go:76-78 | each copy reads the bytes the write was handed over with |
| `RetryTheorems.StreamRefinement` | relay/retry.go:70-99 | per key: settled bodies, then the batch in hand, then the queue = the accepted writes in acceptance order |
| `RetryTheorems.BoundedOvertaking` | relay/retry.go:149-196 | a later write overtakes an earlier one only across keys and only by joining a batch opened before the earlier write was accepted |
| `RetryTheorems.OpenBatch` | relay/retry.go:171-186 | in every reachable state exactly the last queued batch of a key is open |
| `RetryTheorems.NextFitPacking` | relay/retry.go:174-196 | the packing bound in every reachable state |
| `RetryTheorems.SpaceAccounting` | relay/retry.go:141-167 | size = queued bytes, within maxSize; size > 0 means a non-nil head; the consumer sleeps only when no byte is queued, and with non-empty writes only when no batch is |
| `RetryTheorems.WaiterSafety` | relay/retry.go:61-87 | an accepted write is in exactly one batch; the counter is 1 until that batch is released and 0 after, never below; released batches have a non-5xx answer; a post waits on its own batch or, iff overtaken, on a later one, and returns the answer of the batch it waited on |
| `RetryTheorems.ReleaseAnswers` | relay/retry.go:66-67 | a released waiter, overtaken or not, finds the answer of the batch it waited on, never nil and never a 5xx |
| `RetryTheorems.SameAnswer` | relay/retry.go:66-86 | all waiters on one WaitGroup, overtaken or not, get the same answer |
| `RetryTheorems.AnswerIsFinal` | relay/retry.go:84 | a stored answer never changes |
| `RetryTheorems.LateReadExact` | relay/retry.go:198-199 | the late read finds the write's batch iff it is not popped from under `l.head`; otherwise the first batch queued by then, and nil iff nothing is |
| `RetryTheorems.CrashOnlyIfOvertaken` | relay/retry.go:66-67 | the response is never nil; the batch is nil only for a post whose batch was popped before the late read |
| `RetryTheorems.ReturnedMeansDelivered` | relay/retry.go:50-68 | an answer returned by a post not overtaken was given to a POST of its key containing its bytes |
| `RetryTheorems.ReturnedMeansTaken` | relay/retry.go:50-98 | overtaken or not, the bytes have been taken with a non-5xx answer by then |
| `RetryTheorems.BufferedHidesFailures` | relay/retry.go:50-67 | a buffered backend returns a non-5xx answer or ErrBufferFull, nothing else |
| `RetryTheorems.NoStuckWaiter` | relay/retry.go:70-87 | with non-empty writes `run` always has a step to take while a post waits, whatever the outcome of the next POST |
| `RetryTheorems.FlagNeverSticks` | relay/retry.go:50-86 | with writes of 1..maxSize bytes, a set flag means queued bytes, a batch in hand that will clear it, or a post about to add |
| `RetryTheorems.NoNewDirectPosts` | relay/retry.go:51-57 | along any stretch of a run in which the flag stays set, the only posts going straight to the backend are those already doing so when the stretch began |
| `RetryTheorems.FlagFollowsBackend` | relay/retry.go:57-86 | a failed direct POST reaches `add` only with the flag set; the flag is cleared only once a batch has settled and its answer is stored |
| `RetryTraces.LogExact` | relay/retry.go:50-98 | in every run the POSTs recorded are exactly those of the steps taken, in order: a direct one carries the post's data, one of `run` all writes of the batch in hand |
| `RetryTraces.NothingInvented` | relay/retry.go:72-98 | whatever is POSTed, answered or not, consists of whole writes posted with that query and auth, none twice |
| `RetryReasons.WhyThere` | relay/retry.go:50-68 | in every run: a post goes to the backend only if it found no set flag; it is in the buffer only if it found the flag set or its own direct POST failed or got a 5xx, and its write fitted; it returns ErrBufferFull only if its write did not fit; any other result of a direct POST is that of one with its own data |
| `RetryReasons.FullOnlyIfFull` | relay/retry.go:158-164 | ErrBufferFull is returned only by a post about to add, with size + len > maxSize at that moment, and changes nothing else |
| `RetryReasons.DirectPostDecides` | relay/retry.go:51-58 | a direct POST that settles, or has no buffer behind it, is what the post returns, ever after; one that fails or gets a 5xx makes the post set the flag before it adds |
| `RetryReasons.NoNewBuffering` | relay/retry.go:51-57 | along any stretch of a run in which the flag stays clear, no post newly gets to `add` without a direct POST of its own |
| `RetryReasons.FlagClearedPerBatch` | relay/retry.go:82-86 | after each batch has its answer the flag is cleared, even if more is queued |
| `RetryRaces.FlagExact` | relay/retry.go:57-164 | over runs with writes of length n, the flag never sticks iff there is no buffer or 1 <= n <= maxSize |
| `RetryRaces.FlagSticks` | relay/retry.go:57-164 | one empty or oversized write leaves the flag set with nobody to clear it |
| `RetryRaces.StarvesExact` | relay/retry.go:66-164 | over runs with writes of length n, no waiter is left with `run` at most able to sleep, unless the buffer accepts empty writes and n = 0 |
| `RetryRaces.EmptyWriteStarves` | relay/retry.go:145-167 | an accepted empty write waits while the consumer sleeps and no thread can move |
| `RetryRaces.CrashExact` | relay/retry.go:66-199 | over all runs no post meets a nil batch iff the backend has no retry buffer with room for a byte |
| `RetryRaces.CrashReachable` | relay/retry.go:198-199 | any write that opens the buffer of a failing backend can meet the nil batch |
| `RetryRaces.AnswerExact` | relay/retry.go:50-199 | over all runs what `post` returns was answered to its own data iff the backend has no retry buffer with room for a byte |
| `RetryRaces.OvertakenReportsWrongAnswer` | relay/retry.go:66-199 | an overtaken post returns a 2xx while its own data was answered 4xx only |
| `RetryOrder.OrderExact` | relay/retry.go:149-196 | over all runs with these keys and with writes of at least m bytes, batches follow the order of acceptance iff there is at most one key, no buffer, or a batch has no room for 2m bytes or the buffer none for 3m |
| `RetryMemory.MemoryBound` | relay/retry.go:149-166 | queued and in-hand bytes are at most 2 * maxSize, and at most maxSize + maxBatch unless the batch in hand is a single write or has no bytes |
| `RetryMemory.HoldsTwice` | relay/retry.go:149-166 | every buffer with room for a byte can come to hold 2 * maxSize |
| `RetryMemory.MemoryExact` | relay/retry.go:149-166 | over all runs queued and in-hand bytes stay within maxSize, or are 0, iff the backend has no retry buffer with room for a byte |
| `RetryOptions.BufferSizeOption` | relay/http.go:380-396 | with buffer-size-mb = m > 0, at most m * 1048576 bytes are ever queued, so many can be, and twice as many can be held; with m <= 0 nothing is ever buffered |
| `RetryOptions.MaxBatchOption` | relay/http.go:391-396 | several writes share a batch only up to max-batch-kb * 1024 bytes, 524288 if not set, or the buffer's size if that is less; and up to there they can |
| `RetryRecovery.RecoveryDelivers` | relay/retry.go:70-99 | from any moment of any run on, as long as the backend takes what it is POSTed and nothing is added, `run` comes to rest within a bounded number of its own steps, and rests only when everything accepted has been taken, per key in order |
| `RetryRecovery.RestMeansDelivered` | relay/retry.go:66-98 | whenever `run` can take no step: everything accepted has been taken by the backend, and every waiter can be released |
| `RetryRecovery.RestMeansDirect` | relay/retry.go:51-86 | and the flag is clear, unless a post that just failed is about to add |
| `FanOut.Collect` | relay/http.go:236-262 | the receive loop: the earliest 2xx or 4xx decides and ends it; otherwise the last response, or 503 |
| `FanOut.VerdictMeans` | relay/http.go:238-262 | exactly which responses lead to 204, to 503, and to passing on a given response |
| `FanOut.VerdictStable` | relay/http.go:240-247 | responses after a decisive one do not matter |
| `RelayInvariants.KeepsInv` | relay/http.go:198-263 | every step of every thread of the relay keeps the joint invariant |
| `RelayInvariants.BuffersStable` | relay/http.go:208-234 | while a post is unfinished its buffer holds the request's bytes, which is what a backend's machine relies on |
| `RelayTheorems.ReplyIsVerdict` | relay/http.go:236-262 | for any order of arrival and any failures, the reply is the verdict on all responses, also on those that arrive after it |
| `RelayTheorems.ReplyFromBackend` | relay/http.go:238-262 | any reply but 503 goes back to what a backend's post returned |
| `RelayTraces.ArrivalExact` | relay/http.go:176-198 | in every run and at every moment, a request is known by exactly the query, auth and bytes it arrived with, whatever its buffer held before |
| `RelayTraces.PostsWhatArrived` | relay/http.go:196-212 | what a backend's post carries is the query, auth and bytes its request arrived with |
| `RelayTraces.EndToEndDelivery` | relay/http.go:208-242 | unless overtaken: some backend gave the answer to a POST with the query and auth the request arrived with, containing the bytes it arrived with in one block; a 2xx in case of 204 |
| `RelayTraces.NoContentMeansTaken` | relay/http.go:238-242 | overtaken or not: 204 means some backend took the bytes the request arrived with, by a non-5xx answer |
| `RelayTraces.BackendsSeeOnlyArrivals` | relay/retry.go:171-175 | every POST any backend sees, answered or not, is made up of whole bodies of requests that arrived with its query and auth, none twice |
| `RelayTheorems.SendNeverBlocks` | relay/http.go:206-219 | a send on the channel neither blocks nor hits a closed channel, even after an early return |
| `RelayTheorems.RequestNeverStuck` | relay/http.go:203-263 | with non-empty data and no crashed post of its own, a request that has not replied and recycled its buffer has a step of one of its threads to take, or the `run` goroutine of a backend it waits for has one other than going to sleep, whatever the outcome of the next POST |
| `RelayTheorems.OwnStepsDecrease` | relay/http.go:203-263 | every step of a request's own threads outside the backends uses up one of a bounded number, which no other step raises |
| `RelayTheorems.RequestRunsToEnd` | relay/http.go:230-262 | once its goroutines are gone, a request gets by its own steps alone to a reply and a recycled buffer |
| `RelayTheorems.RequestCompletes` | relay/http.go:230-253 | once its goroutines are gone, the next of those steps is enabled |
| `RelayTheorems.UnavailableExact` | relay/http.go:255-260 | whenever the handler has replied: with 503 iff every backend's post has returned without a response |
| `RelayTheorems.UnavailableMeansClosed` | relay/http.go:255-260 | never before all goroutines are done |
| `RelayTheorems.BufferedNeverRelays5xx` | relay/http.go:249-262 | with all backends buffered, no backend 5xx reaches a client |
| `RelayTraces.Buffered503MeansFull` | relay/http.go:255-260 | with all backends buffered, whenever the handler has replied: with 503 iff at every backend the bytes that arrived did not fit the buffer at the moment they were to be added |
| `RelayTheorems.RecycledOnce` | relay/http.go:230-234 | outBuf goes back to the pool at most once |
| `RelayTheorems.RecycleIsSafe` | relay/http.go:230-234 | when it does, all posts have returned and no queued or in-hand batch of any backend refers to it |
| `RelayTheorems.QueuedBuffersAlive` | relay/http.go:203-234 | every queued or in-hand write still has its bytes in a buffer that is not in the pool |
| `RelayTheorems.BuffersConserved` | relay/http.go:230-234 | every output buffer is either in the pool or in use by exactly one request: none leaks, none has two owners |
| `RelayRaces.DeliveryExact` | relay/http.go:208-242 | over all runs a 204 implies a 2xx for the request's own bytes iff no backend has a retry buffer with room for a byte |
| `RelayRaces.DeliveryExactForOutputs` | relay/http.go:380-396 | the same in terms of the configured outputs |
| `RelayRaces.FalseSuccess` | relay/retry.go:198-199 | the run in which a client is told 204 while its bytes were answered 400 only |
| `RelayRaces.ServerErrorExact` | relay/http.go:238-262 | over all runs a relayed 5xx means that every backend answered 5xx iff there is at most one backend or all are buffered |
| `RelayRaces.MixedAnswers` | relay/http.go:249-262 | the run in which one unbuffered backend answers 500 last, all others redirect, and the client gets the 500 |
| `RelayRaces.BufferReused` | relay/http.go:406-418 | a run in which a second request, with any key and bytes, gets the very buffer a finished one has put back |
| `UdpSplit.LastIndexByte` | relay/udp.go:210 | the last newline, or -1 if there is none |
| `UdpSplit.Post` | relay/udp.go:206-224 | the loop sends the greedy packets, up to the first failing write; reports the failing write, or else a line too long, or success |
| `UdpSplit.SplitSends` | relay/udp.go:206-224 | packets are line-aligned, within mtu, and join to a prefix of the payload, to all of it on success; otherwise the next line exceeds mtu |
| `UdpSplit.SplitSucceedsExactly` | relay/udp.go:208-214 | the loop reaches the end iff no line, terminator included, exceeds mtu |
| `UdpSplit.NeighboursExceedMtu` | relay/udp.go:208-222 | two packets in a row total more than mtu |
| `UdpSplit.PacketBound` | relay/udp.go:208-222 | n bytes need at most 2 * floor(n / (mtu + 1)) + 1 packets |
| `UdpSplit.GreedyIsOptimal` | relay/udp.go:206-224 | no way of cutting a non-empty payload after newlines into pieces within mtu has fewer pieces |
| `UdpSplit.GreedyIsPartition` | relay/udp.go:206-224 | and the greedy packets are such a way |
| `UdpRun.PostAll` | relay/udp.go:188-192 | each backend gets its own packets whatever happens at the others; an unparsable packet goes to none |
| `UdpRun.PostIsStep` | relay/udp.go:188-192 | every outcome of `udpBackend.post` is one the step system considers |
| `UdpRun.ReadsConserved` | relay/udp.go:113-156 | at every moment the payloads read are, in order, those posted, the one in hand, those queued and the one about to be queued |
| `UdpRun.DrainedOnReturn` | relay/udp.go:123-143 | when Run returns, all payloads read have been posted, in order |
| `UdpRun.QueuingBlocksExact` | relay/udp.go:118-153 | queuing a payload blocks exactly while 1024 are queued |
| `UdpRun.QueueFills` | relay/udp.go:118-153 | and any payloads up to that number can all be queued |
| `UdpRun.DrainProgresses` | relay/udp.go:140-142 | while Run waits for the worker or for room in the queue, a step can be taken |
| `UdpRun.DrainTerminates` | relay/udp.go:133-143 | after a failed read every step lowers a bounded measure of what is left to do |
| `UdpRun.RunReturns` | relay/udp.go:133-143 | after a failed read a run has a bounded number of steps left and can stop only with Run returned |
| `UdpRun.FaultExact` | relay/udp.go:188-192 | a fault at a backend for a payload comes from a failing write at that very backend for that very payload, and every such write leaves one |
| `UdpRun.FaultsStaySeparate` | relay/udp.go:188-224 | when Run returns, each backend has got, payload by payload, the packets of everything read that parsed; a failing write costs that backend the rest of that payload and nothing else anywhere; payloads whose lines fit arrive whole |
| `UdpRun.LosslessEndToEnd` | relay/udp.go:113-224 | whatever happens at the other backends, a backend without socket faults whose mtu fits every line has received exactly the bytes of everything read that parsed when Run returns |
| `UdpRun.EveryStreamDelivered` | relay/udp.go:113-224 | any sequence of payloads can be read in full, after which every backend whose mtu fits the lines has received all of it |

## Left out

- Point parsing and rendering (`models`, an external library): `outBytes` and the UDP payloads are arbitrary bytes, so nothing is said about points, only about lines.
- The HTTP client, TLS, gzip, header copying, logging: a POST is one step that reads the body and yields an error or an answer.
- The request checks before the fan-out (ping, path, method, database, body errors): single-branch facts.
- `bodyBuf` and other users of the buffer pool: they appear only as free buffers whose content changes arbitrarily.
- RetryRun.RetryBuffer.Deliver: runs against a finite list of answers, since a backend may fail forever; that every batch is settled is proved for a backend that recovers (`RetryRecovery.RecoveryDelivers`).
- RetryMachine: a nil dereference stops the one goroutine rather than the process; the runs of the real process are prefixes of the runs considered.
- Data races at the level of the Go memory model: the late read is one atomic read.
- Machine integers apart from pauses: sizes are unbounded, so a configured buffer of 2^43 MB or more, which would overflow, is not captured.
- UdpRun: mtus are not negative there; with a negative one the code panics on the first payload, as `UdpSplit.Post` does.
- Reuse of pooled UDP buffers: whether parsed points alias the buffer depends on the external parser.
- Time: only the sequence of pauses is modelled.
- The error value `UDP.Run` returns: nil or not, depending on whether `Stop` was called.
- Configuration other than the two sizes of a retry buffer (timeouts, max-delay-interval, the default mtu), startup, `Name`, `Stop`, packaging: parsing and plumbing.
