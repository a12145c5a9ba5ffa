# A verified model of libibc's relay queue, load script and configuration tools

libibc sends IBC transfers between Cosmos and Ethereum chains and relays them. This project models the parts of it
that carry state through many steps, and proves what they guarantee:

* **The relay queue** (`chains/network/relay_queue.go`) collects packets, cuts them into batches, relays the batches on
  goroutines, and counts. It is modelled twice. `RelayQueueProtocol` is a step system: any number of callers inside
  `Add`, `Status` and `Flush`, one goroutine per dispatched batch, two reader-writer mutexes with announced writers, and
  arbitrary outcomes of every relay. `RelayerQueue` is the object itself with its fields, copies and loops. Both apply
  the same critical sections (`RelayQueueCore`) to the same data. `RelayQueueCalls` shows that each whole call of `Add`,
  `Status` and `Flush` on an idle queue, and each goroutine, is a run of the protocol with the same result; so between
  calls the object is always a reachable queue of the protocol (`RelayerQueue.ObjectIsQueue`).
* **The load script** (`cmd/ibc/loadscript/loadscript.go`) runs one worker per wallet pair on top of the queue, with a
  coordinator, a progress channel of capacity 100 and a consumer. `LoadScript` is its step system, with the relay queue
  protocol embedded. The `LoadScript*` modules hold its inductive invariant and the theorems over all interleavings and
  all outcomes of the external calls. A step is one lock, channel or join operation together with the accesses that the
  held locks protect, or the return of one external call.
* **The consumer** (`run` in `cmd/ibc/cmd/script.go`), **the receipt polling loop** of `relay`, and **`withRetry`** are
  methods with their loops.
* **The distribute command** (`cmd/ibc/cmd/distribute.go`) tops up wallets; `Distribution` holds the ledger and the loop.
* **The event parser** (`chains/cosmos/events.go`) finds the packets that a transaction sent; `CosmosEvents` holds its
  loops, and `Encoding` the number formats.
* **generate-wallet** (`cmd/ibc/cmd/generate-wallet.go`) edits the configuration that `ToNetwork` and `BuildNetwork`
  resolve; `NetworkConfig`, `NetworkResolution`,
  `GenerateWallet` and `GenerateWalletTheorems`.

Some properties that one would expect turn out to hold only under a condition. In each case the model keeps what the
code does, and a theorem says exactly when the property holds:

* The producers of the load script can get stuck for good when the consumer has left at the first error: exactly if
  there is more than one worker and the others have at least 99 packets to send (`LoadScriptDeadlock.StuckIff`). With a
  consumer that drains the channel they never do (`LoadScriptProgress.DeadlockFreedom`).
* `DoneUpdate` can report packets as relayed that have not been: exactly if the total exceeds ten and is not a multiple
  of ten, because a `Flush` of a non-empty queue does not wait for the batches started earlier
  (`LoadScriptDone.PrematureIff`).
* The consumer divides by zero exactly if there is nothing to send (`ProgressConsumer.CrashIff`).
* A successful top-up run leaves every recipient at the larger of its balance and the minimum exactly if every amount
  fits what the chain can send and no recipient shares the sender's address, unless nobody needed anything
  (`Distribution.ExactIff`). On Cosmos the code reads and sends amounts through an int64.
* The edited configuration resolves to the old network with the new wallet exactly if the chain id occurs once and the
  wallet id at most once, unless its last entry holds the generated key already
  (`GenerateWalletTheorems.EditCommutesIff`): the edit changes the first entry with an id, and resolution keeps the last.
  `TwoChainEntries` and `TwoWalletEntries` are configurations for which it does not, and `KeyOfAnotherChain` is one for
  which the command's own network differs from the edited configuration.
* The second value of `Status`, named "currently relaying" in the code, is never about a relay under way: when it can be
  read, it is the number of packets in failed attempts (`RelayQueueTheorems.StatusMeaning`).

For packets of version 1 the parser's packet record names the source and destination ports where its fields speak of
clients (`chains/cosmos/events.go:35-36`); the model follows the code. The comment above `parseIBCV1Packets` speaks of
`MsgRecvPacket`, but the code reads `send_packet` events.

Check everything with `dafny verify dfyconfig.toml` (Dafny 4.11).

## Model

| member | source | states |
|---|---|---|
| RelayQueueProtocol.InitInv | chains/network/relay_queue.go:34-51 | a new queue satisfies the inductive invariant, for any number of callers and any queue size |
| RelayQueueProtocol.StepInv | chains/network/relay_queue.go:53-177 | every step of every caller and goroutine keeps the invariant: lock ownership, order and sizes of the batches, flush copies, exact counters |
| RelayQueueProtocol.AccountingPreserved | chains/network/relay_queue.go:104-174 | the two counters stay exactly: relaysCompleted the sizes of the successful relays, currentlyRelaying those of the failed ones and of the one under way |
| RelayQueueProtocol.PacketsPreserved | chains/network/relay_queue.go:57-65 | batches and queue, in order, stay the sequence of adds; the queue stays below the threshold; every batch keeps its size |
| RelayQueueTheorems.Conservation | chains/network/relay_queue.go:53-98 | in every reachable state the multiset of packets added is queue + waiting + in flight + failed + relayed; nothing is lost or duplicated, also after a failed Flush |
| RelayQueueTheorems.FifoBatching | chains/network/relay_queue.go:57-65 | what left the queue in order, then the queue, is the sequence of adds; all batches have exactly the queue size; n adds without an emptying Flush give n / size batches and n % size queued |
| RelayQueueTheorems.RelayExclusion | chains/network/relay_queue.go:101-104 | at most one relay is between its counter updates, and no Status reads meanwhile |
| RelayQueueTheorems.ReadingIsExact | chains/network/relay_queue.go:69-76 | whoever holds both read locks sees currentlyRelaying as the packets of failed attempts and nothing else |
| RelayQueueTheorems.StatusMeaning | chains/network/relay_queue.go:69-76 | the three values that Status returns: queue length, packets in failed attempts, packets relayed; with failed and unstarted batches they add up to everything added |
| RelayQueueTheorems.WaitingFlush | chains/network/relay_queue.go:89-97 | a Flush that waits returns nil exactly if no batch ever failed, and then everything ever added has been relayed |
| RelayQueueTheorems.NoDispatchWhileWaiting | chains/network/relay_queue.go:79-92 | while a Flush waits for the errgroup nothing is added and no batch is dispatched, whatever the others do |
| RelayQueueTheorems.FailureSticks | chains/network/relay_queue.go:62-63 | after one failed batch every Flush that waits, at any later time, returns an error |
| RelayQueueTheorems.TwoNilFlushes | chains/network/relay_queue.go:78-98 | two nil flushes with no Add taking effect in between imply that every packet ever added has been relayed |
| RelayQueueTheorems.SmallQueueFlush | cmd/ibc/cmd/transfer.go:73-102 | with queue size one, as in the transfer command, every nil Flush means full completion |
| RelayQueueTheorems.GoroutineRelays | chains/network/relay_queue.go:100-177 | a goroutine that finds relayMutex free does in four protocol steps what the object's relay of a batch does |
| RelayQueueTheorems.FlushRelays | chains/network/relay_queue.go:86-88 | the relay inside a Flush of a non-empty queue does in four protocol steps what the object's does, in a queue of any callers |
| RelayQueueCalls.AddRun | chains/network/relay_queue.go:53-67 | a whole call of Add on an idle queue, from the call to its return, is a protocol run with the object's result |
| RelayQueueCalls.StatusRun | chains/network/relay_queue.go:69-76 | a whole call of Status returns the three counters of one moment and changes nothing |
| RelayQueueCalls.FlushRun | chains/network/relay_queue.go:78-98 | a whole call of Flush on a non-empty queue, with either outcome, is a protocol run with the object's result |
| RelayQueueCalls.WaitRun | chains/network/relay_queue.go:89-97 | a whole call of Flush on an empty queue, during which the remaining goroutines run, returns nil exactly if all batches succeeded |
| RelayQueueCalls.BatchesRun | chains/network/relay_queue.go:62-64 | goroutines can run whenever relayMutex is free, wherever the callers are, with the result that the object computes |
| RelayQueueProgress.QueueProgress | chains/network/relay_queue.go:53-102 | deadlock freedom of the queue: while a call has not returned, some step is possible, even one in which no relay fails |
| RelayQueueProgress.BatchProgress | chains/network/relay_queue.go:62-63 | while a batch has not returned, some step of the queue is possible |
| RelayQueueProgress.InternalWork | chains/network/relay_queue.go:53-177 | every step that the queue takes by itself uses up a natural number |
| RelayQueueProgress.RunIsBounded | chains/network/relay_queue.go:53-177 | a run has at most as many steps as work was under way at its beginning, and eleven for each call it starts |
| RelayQueueProgress.SettledMeansReturned | chains/network/relay_queue.go:53-177 | where a queue cannot go on by itself, every call that was started can return and every batch has returned |
| RelayQueueCore.StagesPartition | chains/network/relay_queue.go:100-177 | the packets that left the queue are, by size, exactly the relayed, failed, running and waiting ones |
| RelayQueueCore.AllRelayed | chains/network/relay_queue.go:90-95 | with an empty queue and no failed batch the counter equals the number of packets ever added |
| RelayerQueue.RelayerQueue.constructor | chains/network/relay_queue.go:34-51 | a new object is the empty model and valid |
| RelayerQueue.RelayerQueue.Add | chains/network/relay_queue.go:53-67 | appends, and at the queue size hands a copy of the whole queue to the errgroup and empties it; keeps validity |
| RelayerQueue.RelayerQueue.GetStatus | chains/network/relay_queue.go:69-76 | the three counters with their exact meaning |
| RelayerQueue.RelayerQueue.Relay | chains/network/relay_queue.go:100-177 | when relaying ourselves, one more call of Relayer.Relay, with the clients of the first packet and the hashes of all in order, and otherwise none; succeeds exactly if that call does or all receipts are seen in time; a failure leaves its packets in currentlyRelaying |
| RelayerQueue.RelayerQueue.RunGoroutine | chains/network/relay_queue.go:62-64 | one goroutine of the errgroup: its batch, outcome, counters and the group's error; moves no packet |
| RelayerQueue.RelayerQueue.Wait | chains/network/relay_queue.go:90 | lets every goroutine finish, relaying exactly the batches it reports, and returns nil exactly if all batches ever dispatched succeeded |
| RelayerQueue.RelayerQueue.Flush | chains/network/relay_queue.go:78-98 | relays a non-empty queue itself and keeps it on failure; waits on an empty one, and nil then means full completion |
| RelayerQueue.ObjectIsQueue | chains/network/relay_queue.go:53-177 | between calls the object is a reachable queue of the protocol: every packet added is queued, waiting in a batch, failed or relayed, in the order of Add |
| RelayerQueue.EveryRelayIsCalled | chains/network/relay_queue.go:108-118 | when relaying ourselves there are exactly as many calls of Relayer.Relay as goroutines that have run and flushes that relayed, whatever their outcomes, and every batch that has returned was the subject of one |
| RelayerQueue.RanRecorded | chains/network/relay_queue.go:62-118 | running a goroutine adds its batch, and no other, to the batches that were relayed |
| RelayerQueue.QueueRelayedRecorded | chains/network/relay_queue.go:82-118 | a Flush that relays adds its queue, and no other batch, whether it succeeds or not |
| RelayerQueue.AddedConsistent | chains/network/relay_queue.go:53-67 | Add keeps the errgroup's goroutines in step with the dispatched batches, and the counters exact |
| RelayerQueue.RanConsistent | chains/network/relay_queue.go:62-64 | running any goroutine, with either outcome, keeps the same |
| RelayerQueue.QueueRelayedConsistent | chains/network/relay_queue.go:82-88 | a Flush of a non-empty queue, with either outcome, keeps the same |
| RelayerQueue.SharedClients | chains/network/relay_queue.go:108-118 | if all packets added share one client pair, every Relayer.Relay call names the clients of every packet of its batch, with the batch's hashes in order; no batch is empty |
| RelayerQueue.HashesOf | chains/network/relay_queue.go:109-112 | the loop collects the hashes in order |
| ReceiptPolling.PollOnce | chains/network/relay_queue.go:148-160 | one round leaves exactly the packets without a receipt, in order; a failed query counts as none |
| ReceiptPolling.WaitForReceipts | chains/network/relay_queue.go:131-170 | success exactly if some round that starts in time confirms every packet; otherwise the last round's unconfirmed packets in order; every round starts within 120 minutes and it gives up only after them; at most 1440 rounds, and at least one if the clock has not run out before the first |
| ReceiptPolling.UnconfirmedPositions | chains/network/relay_queue.go:148-160 | what a round leaves is the strictly increasing list of the unconfirmed positions |
| ReceiptPolling.ClockBound | chains/network/relay_queue.go:134-162 | n rounds take at least n pauses of five seconds |
| ReceiptPolling.LongestWait | chains/network/relay_queue.go:134-166 | with five-second rounds and no receipts the loop takes exactly 1440 rounds |
| ReceiptPolling.CheapPolling | chains/network/relay_queue.go:138-166 | with monotone receipts, asking about all packets again leaves the same as asking only about those still waiting |
| ReceiptPolling.WaitingShrinks | chains/network/relay_queue.go:164 | with monotone receipts the waiting list never grows |
| Retry.WithRetry | cmd/ibc/loadscript/loadscript.go:208-219 | returns the first success, or the third error after exactly three calls |
| Retry.WorkerFollowsRetry | cmd/ibc/loadscript/loadscript.go:91-98 | the worker's steps stop where withRetry returns, with its packet or on the way to report its error |
| LoadScriptInvariants.StepControl | cmd/ibc/loadscript/loadscript.go:80-203 | every step keeps the control invariant: who is inside which method and lock, what each worker has done, how many messages were sent |
| LoadScriptMessages.StepInvariant | cmd/ibc/loadscript/loadscript.go:37-206 | every step keeps the whole invariant, with numbering, snapshots, log shape, consumer and adders |
| LoadScriptSnapshots.WorkerUpdateIsSnapshot | cmd/ibc/loadscript/loadscript.go:101-115 | the two numbers in a worker's update are the queue's length and the packets relayed at one earlier moment of the same run, when that worker held both read locks, after it counted this transfer and before anyone counted another |
| LoadScriptSnapshots.CoordinatorUpdates | cmd/ibc/loadscript/loadscript.go:153-177 | the coordinator sends two RelayingUpdates unless a transfer failed; the first has no numbers of the queue; the second shows total % 10 as queued, and as relayed what had been relayed at a moment when every worker had ended and the coordinator held both read locks |
| LoadScriptSnapshots.OtherMessages | cmd/ibc/loadscript/loadscript.go:60-200 | the numbers in all other messages; the announcement counts the transfers so far |
| LoadScriptTheorems.ScriptUsesQueue | cmd/ibc/loadscript/loadscript.go:52-104 | the queue of every run of the script is a reachable relay queue of size ten, so every theorem about those holds of it |
| LoadScriptProgress.DeadlockFreedom | cmd/ibc/loadscript/loadscript.go:80-203 | with a draining consumer, a run that cannot go on has closed the channel, delivered every message, and ended every worker and batch |
| LoadScriptProgress.StepRemaining | cmd/ibc/loadscript/loadscript.go:80-203 | every step of every thread decreases a natural-number measure |
| LoadScriptProgress.RunsAreBounded | cmd/ibc/loadscript/loadscript.go:80-203 | no run has more than 21 * workers * packets per wallet + 26 steps |
| LoadScriptDeadlock.StuckIff | cmd/ibc/cmd/script.go:230-237 | with `run` as consumer some run gets stuck on the full channel if and only if there is more than one worker and the others have at least 99 packets |
| LoadScriptDeadlock.StuckNeedsLoad | cmd/ibc/loadscript/loadscript.go:53-115 | every stuck state needs that load and a consumer that stopped |
| LoadScriptDeadlock.Exhaust | cmd/ibc/loadscript/loadscript.go:80-203 | from an abandoned channel the run without further failures goes on until nothing can move |
| LoadScriptTheorems.ChannelSafety | cmd/ibc/loadscript/loadscript.go:60-202 | no send after close and no second close; DoneUpdate only as the last message, and then without any error message; a closed channel ends with DoneUpdate or ErrorUpdate |
| LoadScriptTheorems.ClosedIsFinal | cmd/ibc/loadscript/loadscript.go:148-202 | after the close no run adds a message |
| LoadScriptTheorems.MessageBound | cmd/ibc/loadscript/loadscript.go:57-206 | at most total + 5 messages, exactly that when no worker gives up, at most total + 3 when one does |
| LoadScriptTheorems.SmallRunsNeverWait | cmd/ibc/loadscript/loadscript.go:53 | with a total of at most 95 no producer ever waits for the channel, whatever the consumer does |
| LoadScriptTheorems.OrderedProgress | cmd/ibc/loadscript/loadscript.go:101-115 | in channel order the workers' updates count 1, 2, 3, ... and never report fewer relayed packets than before |
| LoadScriptTheorems.CompleteProgress | cmd/ibc/loadscript/loadscript.go:83-133 | at the end there are total worker updates exactly if no worker gave up |
| LoadScriptTheorems.FailuresAreLocal | cmd/ibc/loadscript/loadscript.go:83-133 | a failing worker stops no other: all others send an update for each of their packets |
| LoadScriptTheorems.ConsistentSnapshots | cmd/ibc/loadscript/loadscript.go:99-115 | in every worker update relayed + queued is within the total, and exceeds the transfers counted by at most workers - 1 |
| LoadScriptTheorems.TransfersReachQueueOnce | cmd/ibc/loadscript/loadscript.go:89-99 | per worker, the packets added are its SendTransfer results, in order, each once |
| LoadScriptTheorems.RetryBound | cmd/ibc/loadscript/loadscript.go:208-219 | at most three SendTransfer calls for each packet in all |
| LoadScriptTheorems.AbandonedQueue | cmd/ibc/loadscript/loadscript.go:144-150 | when a worker gave up, the queue at close holds the successful transfers modulo ten, and the others left in full batches |
| LoadScriptTheorems.DoneMeaning | cmd/ibc/loadscript/loadscript.go:179-200 | DoneUpdate means full completion if the total is a multiple of ten, and otherwise that exactly the last total % 10 packets were relayed by the flush |
| LoadScriptTheorems.SmallTotalDone | cmd/ibc/loadscript/loadscript.go:179-200 | below ten packets DoneUpdate means full completion |
| LoadScriptDone.PrematureIff | cmd/ibc/loadscript/loadscript.go:179-200 | some run reports more packets relayed in DoneUpdate than have been if and only if the total exceeds ten and is no multiple of ten |
| LoadScriptDone.PrematureNeedsRest | cmd/ibc/loadscript/loadscript.go:179-200 | every premature DoneUpdate needs such a total |
| LoadScriptDone.PrematureRun | cmd/ibc/loadscript/loadscript.go:179-200 | for every such total there is a run that ends with a premature DoneUpdate |
| LoadScriptTheorems.QueueUntilFlush | chains/network/relay_queue.go:57-97 | in every reachable state the queue holds the adds modulo ten as long as the script's Flush has not succeeded, and nothing afterwards |
| ProgressConsumer.BarsInRange | cmd/ibc/tui/status_model.go:52-56 | after any list of messages, with any numbers in them, both bars show a percentage from 0 to 100 |
| ProgressConsumer.Consume | cmd/ibc/cmd/script.go:211-252 | reads up to the first error or end message, and panics exactly at a transfer update with total zero; otherwise the transfer bar shows the transfers of the last transfer update, and the relaying bar the relayed packets of the last update of either kind, in percent of the total; both are full after the end message and empty after an error |
| ProgressConsumer.ConsumerFollows | cmd/ibc/cmd/script.go:211-252 | in every run the load script's consumer takes no more of the channel than this loop reads, and where it has stopped it took exactly that |
| ProgressConsumer.PercentagesInRange | cmd/ibc/cmd/script.go:217-228 | with packets to send, every percentage computed from any message of any run is in 0..100 |
| ProgressConsumer.ScriptWithin | cmd/ibc/loadscript/loadscript.go:60-200 | with packets to send, every update of every run has the numbers that Consume needs to show its percentages |
| ProgressConsumer.GoDivTruncates | cmd/ibc/cmd/script.go:217-228 | the division of the percentages truncates toward zero, whatever the signs |
| ProgressConsumer.CrashIff | cmd/ibc/cmd/script.go:217 | a division by zero happens exactly if the total is zero, and then at the first message |
| Distribution.QueryAfterSend | chains/cosmos/cosmos.go:69-85 | a balance read again after a send has grown by exactly what was delivered to that address, or (on Cosmos) beyond what an int64 can hold and cannot be read |
| Distribution.TransferMoves | chains/cosmos/send.go:21-43 | a send goes through exactly if its amount's int64 is positive and the sender has it and the fee; then the sender loses both, the recipient gets the amount, no other address changes, and balances and fees are conserved over every set of addresses with both ends |
| Distribution.Int64Law | chains/cosmos/send.go:39 | the amount's int64 is the same modulo 2^64, between -2^63 and 2^63 - 1 |
| Distribution.ServeWallet | cmd/ibc/cmd/distribute.go:64-103 | one round: when it fails, and what the ledger is afterwards; a failing round changes nothing |
| Distribution.Distribute | cmd/ibc/cmd/distribute.go:63-118 | nil: no wallet failed and every one was served; error: the first wallet that fails ends the run, and exactly those before it were served |
| Distribution.EndsOnlyByRefusal | cmd/ibc/cmd/distribute.go:69-103 | without failures of the node a run ends early only where the ledger refuses |
| Distribution.AddressAfterRun | cmd/ibc/cmd/distribute.go:63-103 | a successful run tops every recipient address once, however often it occurs, and changes no other address but the sender's |
| Distribution.SenderAfterRun | cmd/ibc/cmd/distribute.go:91-103 | the sender loses the deficit and one fee for each distinct recipient address, and as many sends are made |
| Distribution.FeesAfterRun | cmd/ibc/cmd/distribute.go:100 | one fee per send |
| Distribution.RunConserves | cmd/ibc/cmd/distribute.go:63-103 | balances and fees together are conserved, whoever shares addresses |
| Distribution.SenderNeverGains | cmd/ibc/cmd/distribute.go:63-103 | the sender never gains, and loses if any other recipient was short, even where the sender is a recipient |
| Distribution.SucceedsIff | cmd/ibc/cmd/distribute.go:63-103 | with readable amounts, the sender not among the recipients, and sends that take effect when they return, the run succeeds if and only if the sender can pay for all distinct recipients together |
| Distribution.ExactIff | cmd/ibc/cmd/distribute.go:63-103 | a successful run is exact if and only if every deficit can be sent as it is and the sender's address is not shared by a recipient, unless nobody was short |
| Distribution.OversizedAmount | chains/cosmos/send.go:39 | a minimum of 2^64 + 5 on Cosmos: the run succeeds and is not exact |
| Distribution.SharedAddress | cmd/ibc/cmd/distribute.go:64-103 | a recipient at the sender's address that is short: the run succeeds and is not exact |
| Distribution.OrderIrrelevant | chains/cosmos/wallet.go:65-71 | success (with readable amounts) and the final ledger depend on the set of recipient addresses only, not on the order that map iteration gives |
| Distribution.OrderMattersToSender | chains/cosmos/wallet.go:65-71 | with the sender's address among the recipients one order succeeds and the other fails |
| Distribution.SecondRunSendsNothing | cmd/ibc/cmd/distribute.go:80-88 | after an exact run a second one sends nothing |
| Encoding.HexRoundTrip | chains/cosmos/events.go:88 | decoding what was encoded gives the data back |
| Encoding.HexDecodable | chains/cosmos/events.go:122 | exactly strings of an even number of hex digits, of either case, can be decoded |
| Encoding.HexDigits | chains/cosmos/events.go:122 | the sixteen digits in both cases, and their values |
| Encoding.HexBytes | chains/cosmos/events.go:122 | byte i is written by the digits 2i and 2i + 1, the higher first |
| Encoding.ParseUintIff | chains/cosmos/events.go:128 | exactly the non-empty strings of decimal digits whose value fits into 64 bits are read, each to its positional value |
| Encoding.ParseHeightIff | chains/cosmos/events.go:148 | exactly two such numbers with a dash between them are read as a height, the revision number first |
| Encoding.UintRoundTrip | chains/cosmos/events.go:128 | a 64-bit number is read back from its decimal form |
| Encoding.HeightRoundTrip | chains/cosmos/events.go:148 | a height with 64-bit parts is read back from its two numbers with a dash |
| CosmosEvents.DetermineVersion | chains/cosmos/events.go:66-80 | the first attribute of a message event that names a channel module decides |
| CosmosEvents.VersionIs | chains/cosmos/events.go:66-80 | the first position of a message event that holds the module ibc_channel means version 1, or ibc_channelv2 version 2 |
| CosmosEvents.NoVersion | chains/cosmos/events.go:79 | without such a position there is no version |
| CosmosEvents.VersionAppend | chains/cosmos/events.go:66-80 | of two joined lists of events the first with a version decides |
| CosmosEvents.ParseAttributes | chains/cosmos/events.go:118-166 | the inner loop assigns the fields one by one, and stops at the first attribute that cannot be read |
| CosmosEvents.LastWriteWins | chains/cosmos/events.go:118-166 | a send event parses exactly if each attribute can be read on its own, and each field is that of the last attribute with its key |
| CosmosEvents.ParseV1Packets | chains/cosmos/events.go:114-176 | one packet for each send event, in order; the first error wins; no packet is an error |
| CosmosEvents.ParseV2Packets | chains/cosmos/events.go:82-109 | one packet for each encoded packet in the send events, in order; the first error wins; no packet is an error |
| CosmosEvents.ParsePackets | chains/cosmos/events.go:16-64 | the whole parser, with the packet records of either version |
| CosmosEvents.RoundTripV1 | chains/cosmos/events.go:114-176 | any non-empty list of packets with 64-bit fields, rendered as send events with attributes in any order among any other events and attributes, is parsed back, record by record and field by field, with the ports as the two ends |
| CosmosEvents.RoundTripV2 | chains/cosmos/events.go:82-109 | the same for version 2, with the clients as the two ends, any number of packets per event, if the decoder inverts the encoder |
| CosmosEvents.ParsesIffV1 | chains/cosmos/events.go:114-176 | with version 1 the parse succeeds if and only if there is a send event and all attributes of all send events can be read |
| CosmosEvents.ParsesIffV2 | chains/cosmos/events.go:82-109 | with version 2 it succeeds if and only if the send events hold an encoded packet and each one decodes |
| CosmosEvents.FieldsV1 | chains/cosmos/events.go:28-40 | every field of the i-th record is read from the last attribute with its key in the i-th send event; the two ends are the source and destination port |
| CosmosEvents.FieldsV2 | chains/cosmos/events.go:48-60 | every field of the i-th record is that of what the i-th encoded packet decodes to; the two ends are the source and destination client |
| CosmosEvents.LastValueIs | chains/cosmos/events.go:119-166 | the last attribute with a key is the one without a later one |
| CosmosEvents.PacketCount | chains/cosmos/events.go:82-176 | the number of packets is that of the send events (version 1) or of the encoded packets in them (version 2), and positive |
| CosmosEvents.ParseAppend | chains/cosmos/events.go:16-64 | successful parses of two transactions of one version add up to the parse of the joined events |
| NetworkConfig.Chain.AddWallet | chains/ethereum/wallet.go:23-41 | stores the decoded key under the id, or fails and changes nothing; Cosmos (chains/cosmos/wallet.go:22-36) takes any hex, Ethereum a valid key with or without 0x |
| NetworkConfig.Chain.GenerateWallet | chains/cosmos/wallet.go:47-62 | stores the generated key under the id |
| NetworkConfig.Config.ToNetwork | cmd/ibc/config/config.go:109-162 | computes the resolution that the next four rows describe, or returns its first error, and creates fresh chains |
| NetworkResolution.ResolvesIff | cmd/ibc/config/config.go:116-154 | a configuration resolves if and only if every chain has a known type and a node that answers, and every wallet it lists has an entry whose last key it can read |
| NetworkResolution.ResolvedChains | cmd/ibc/config/config.go:116-156 | the network has exactly the chains of the configuration, each as its last entry describes it: the address dialled, the counterparty's client and chain id of the last entry of each client, and the key of the last entry of each listed wallet |
| NetworkResolution.ClientIs | cmd/ibc/config/config.go:138-144 | a client's counterparty is the counterparty client id and chain id of the last entry with its id |
| NetworkResolution.ResolvedConnection | chains/network/network.go:64-68 | of all entries of chains the last that has the client decides what the connection leads to |
| NetworkConfig.Network.BuildNetwork | chains/network/network.go:56-71 | of several chains with one id the last stays; the connections are all chains' clients, later ones winning |
| NetworkConfig.KeyRoundTrip | chains/ethereum/wallet.go:93-95 | a generated key is read back from its hex form by every kind of chain |
| NetworkConfig.PrefixedKey | chains/ethereum/wallet.go:24-32 | only an Ethereum chain reads a key with 0x before it, and only it insists on a valid key; a Cosmos chain (chains/cosmos/wallet.go:23-26) reads any hex as it is |
| NetworkConfig.KeysAgree | chains/ethereum/wallet.go:23-32 | two chains that can read an entry read the same key |
| GenerateWallet.GenerateWalletCmd | cmd/ibc/cmd/generate-wallet.go:43-94 | when the command goes through, and what the configuration and the network in memory are then; any refusal before the edit leaves the configuration as it was |
| GenerateWallet.EditConfig | cmd/ibc/cmd/generate-wallet.go:68-90 | the loops append the id to the first chain with the chain id, and replace the key of the first wallet with the id or append a wallet |
| GenerateWalletTheorems.EditCommutesIff | cmd/ibc/cmd/generate-wallet.go:68-90 | the edited configuration resolves to the old network with the new wallet (and the new key wherever the id was listed) if and only if the ids are unambiguous |
| GenerateWalletTheorems.MemoryMatchesIff | cmd/ibc/cmd/generate-wallet.go:57-90 | the network in memory is the one that the edited configuration resolves to if and only if, moreover, no other chain lists the id with another key |
| GenerateWalletTheorems.TwoChainEntries | cmd/ibc/cmd/generate-wallet.go:68-73 | a chain with two entries: the command goes through, and the edited configuration lacks the wallet |
| GenerateWalletTheorems.TwoWalletEntries | cmd/ibc/cmd/generate-wallet.go:75-83 | a wallet with two entries: the command goes through, and the edited configuration does not resolve to the new key |
| GenerateWalletTheorems.KeyOfAnotherChain | cmd/ibc/cmd/generate-wallet.go:57-83 | another chain lists the id with another key: memory and edited configuration differ |
| GenerateWalletTheorems.RunCommutes | cmd/ibc/cmd/generate-wallet.go:43-90 | from unique ids, any run of the command keeps the ids unique and resolves to the network with all the wallets |
| GenerateWalletTheorems.KeysAfterSet | cmd/ibc/cmd/generate-wallet.go:75-90 | a key that is set counts exactly if the wallet id has at most one entry |
| NetworkResolution.LastChainWins | chains/network/network.go:64-65 | an id resolves to the last chain with it |

## Left out

- RelayQueueProtocol.StepInv: Go hands an unlocked RWMutex to the waiting readers first; the model lets any waiting thread go next, so its runs include all of Go's.
- RelayerQueue.RelayerQueue.Wait: runs the remaining goroutines in the order they were started, each to its end; all orders and interleavings are in the protocol.
- LoadScript: the unsynchronised read of transferCompleted for the coordinator's first message is an atomic read of the current value, and the read that only a log line uses is dropped; neither takes part in the ordering theorem.
- LoadScript: there are as many source wallets as target wallets, as the callers of the load script see to.
- LoadScript: the totals and counters are unbounded integers; an overflow of Go's int is not modelled.
- LoadScript: chain names and error texts in the messages are dropped.
- ReceiptPolling.WaitForReceipts: time is a parameter that advances at least by the pause between two rounds; a round may be arbitrarily slow.
- RelayerQueue.RelayerQueue.Relay: the relayer service and the receipt queries are arbitrary outcomes; contexts, wallets and log lines are dropped.
- ProgressConsumer.Consume: the texts of the status models and the branch for an unknown update type, which no producer sends, are dropped.
- Distribution.SucceedsIff: rests on sends taking effect when they return; a Cosmos node is asked with BROADCAST_MODE_SYNC (chains/cosmos/send.go:96-113) and answers before it executes the transfer, so there a send can return nil and move nothing, and a run can succeed that the sender cannot pay for.
- Distribution.Distribute: sends take effect when they return, on both kinds of chain, as the pause after a send is meant to see to; the fee is one number per send in the same denomination (zero for another denomination), whereas gas prices vary.
- Distribution.TransferMoves: a refusal covers every way in which nothing moves, whether the original returns an error or panics on a negative coin.
- Distribution.Distribute: the checks before the loop (arguments, at least two wallets) and the length of the pause are left out.
- CosmosEvents.ParsePackets: the protobuf decoder is a parameter; which ids ibc-go gives its attribute keys is taken over as constants, and error texts are dropped.
- CosmosEvents.RoundTripV2: assumes that the decoder inverts the encoder on the packets at hand.
- NetworkConfig.Config.ToNetwork: whether a node can be reached is a parameter; an unsupported chain type, a panic in the original, is an error value; extra gas prices and contract bindings are dropped.
- NetworkConfig.Chain.GenerateWallet: key generation is a parameter; addresses, which depend on the key alone, are dropped.
- GenerateWallet.GenerateWalletCmd: reading and writing the file is one outcome, and funding the new wallet, after the configuration was saved, is left out.
- Chain access over gRPC, HTTP and contract calls, transaction building and signing, generated code, the terminal interface, command line flags, the local networks and contract deployment.
- Network.TransferWithRelay, WaitForCondition, GetEvmEvent, the beacon client and the chain specifications.
