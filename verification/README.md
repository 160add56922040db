# Verified models of the course laboratories

The repository is a set of laboratories for a course on scalable systems. This project models the programs in it whose
behaviour is a protocol or a state machine, and proves what those programs are for:

- **Replicated key-value node** (laboratory 05): `Lww`, `KvStore`, `KvCluster`, `KvProofs`, `KvGuarantees`,
  `KvSyncPass`, `KvScripts`, `KvPartition`, `KvRefinement`, `KvLimits`. `KvStore.Store` is one node's store, method by method. `KvCluster` is any
  number of nodes as a step system: each step is one section under the store's lock, one read of a field, or one event
  of a network that loses, delays and repeats messages and loses answers. `KvProofs` shows that every step keeps the
  invariant, `KvGuarantees` what follows for every run, `KvPartition` which nodes can commit, and `KvLimits` gives a run
  in which a stronger claim fails.
- **Queue, poller, function and payment table** (laboratory 15): `Sqs`, `SqsRuns`, `Poller`, `Environments`,
  `Processor`, `EffectivelyOnce`, `PollRefinement`. The last two put queue, poller, running functions and table into one
  step system and show that it does the same as the separate pieces when nothing interleaves.
- **Retrying worker and payment consumer** (laboratory 14): `Worker`, `Payment`.
- **Diagram game** (laboratory 13): `Puzzle` (the palette check), `PuzzleGame` (the attempt), `PuzzleRules` (what each
  operation does to tiles, slots and results), `PuzzleScore`.
- **Enrollment transfer** (laboratory 10): `Enrollment`.
- **Product cache** (laboratory 11): `CacheLab`.

`Basics` holds what several of them share.

Each class keeps the fields its Python class updates; its methods are proved against functions on the class's state, and
the run-level results are about the same functions. Times, random ids, the outcome of a network call and the point at
which a process dies are parameters or steps, so every result holds for all of them.

What the proofs found where code and documentation differ, or where a natural claim is too strong:

- A cp write answered 503 may stay on one peer for ever. Replicas at rest agree exactly when each rejected write
  reached all of them or none (`KvGuarantees.MixedAgreementIff`, `KvLimits.RejectedWriteMayStayOnOnePeer`).
- "Only one side of a partition commits" needs each side to be cut off from every other node, not only from the other
  side: a node can commit iff it reaches a majority, so two sides can both commit iff each reaches one, through nodes
  that both reach (`KvGuarantees.OneSideCommits`, `KvPartition.CanCommitIff`, `KvPartition.BothCanCommitIff`).
- A dead-lettered payment may have been charged: exactly when some invocation got past a record that pays its order
  (`EffectivelyOnce.DeadLetterChargedIff`, with a run in `EffectivelyOnce.DeadLetterMayBeCharged`).
- `invoke` gives its address back however it ends, unless the name lookup between the reservation and the `try` raises
  something other than an OSError; then the address stays busy for good (`Environments.AddressReturnedIff`,
  `Environments.AllReturnedIff`, `Environments.LeakedForever`).
- The payment ledger protects a message only if it carries an id, because a NULL key never collides
  (`Payment.ChargesAgainIff`, `Payment.WithoutIdChargedPerDelivery`).
- The database reset is not one transaction: the counters are wrong exactly when it stops after one to four of its
  statements (`Enrollment.InterruptedResetIff`).
- A write-through whose answer is lost after the service applied it leaves a stale clean entry, under an exact condition
  (`CacheLab.LostAnswerIff`).
- A write-back is lost whenever an eviction, a clear, or a later update of the same product (whatever its fields)
  overwrites the cache entry before a flush sends it; what then reaches the service is exact, field by field
  (`CacheLab.ServiceReceives`, `CacheLab.WriteBackArrivesIff`, `CacheLab.OverwrittenUpdateIsLost`).

## Model

| member | source | states |
|---|---|---|
| Lww.VersionOrderIsTotal | 05-distributed-systems-high-availability/app/kv_node.py:49-51 | counter first, node id as tie-break, is a strict total order, so two nodes never disagree on a winner |
| Lww.MergeAllIsPointwiseNewest | 05-distributed-systems-high-availability/app/kv_node.py:70-77 | any sequence of applies leaves, key by key, a newest write of what was there and what was given |
| Lww.ApplyOrderDoesNotMatter | 05-distributed-systems-high-availability/app/kv_node.py:70-77 | with unique versions the data depends only on the set of writes, not on order, repetition or batching |
| Lww.TiedVersionsKeepTheFirst | 05-distributed-systems-high-availability/app/kv_node.py:49-51 | unique versions are needed: of two tied records the first one applied stays |
| Lww.WinnerOfTwo | 05-distributed-systems-high-availability/app/kv_node.py:49-51 | of two records for a key the higher counter wins, among equal counters the greater node id, in either order |
| Lww.AppliedCountsChanges | 05-distributed-systems-high-availability/app/kv_node.py:316-320 | the number a replication request answers with is how many of its records changed the data |
| Lww.ReplayChangesNothing | 05-distributed-systems-high-availability/app/kv_node.py:316-320 | a replication request that arrives again changes nothing |
| KvStore.CountUntilQuorum | 05-distributed-systems-high-availability/app/kv_node.py:134-146 | the early exit returns the smaller of the quorum and one plus all positive answers, and reaches the quorum iff they suffice |
| KvStore.VotesIgnoreCompletionOrder | 05-distributed-systems-high-availability/app/kv_node.py:134-146 | the verdict is the same for every completion order of the peers |
| KvStore.Store.constructor | 05-distributed-systems-high-availability/app/kv_node.py:57-63 | a node starts empty, with an empty queue per peer, clock 0 and not ready |
| KvStore.Store.NewRecord | 05-distributed-systems-high-availability/app/kv_node.py:65-68 | the clock ticks and the record holds the value given, the new clock and the node's id; nothing else changes |
| KvStore.Store.Apply | 05-distributed-systems-high-availability/app/kv_node.py:70-77 | afterwards the key is held at this version or newer, no key goes back, and True means that the record was newer |
| KvStore.Store.Enqueue | 05-distributed-systems-high-availability/app/kv_node.py:79-89 | each target's queue then holds the key at this version or newer, other queues are untouched |
| KvStore.Store.Snapshot | 05-distributed-systems-high-availability/app/kv_node.py:91-93 | the clock and the data as they are |
| KvStore.Store.Replicate | 05-distributed-systems-high-availability/app/kv_node.py:316-320 | applies the batch in order and counts the records that were stored |
| KvStore.ReplicateIsMergeAll | 05-distributed-systems-high-availability/app/kv_node.py:316-320 | a batch is the fold of its applies on the data, moves the clock past every counter in it, and touches nothing else |
| KvStore.Store.DropDelivered | 05-distributed-systems-high-availability/app/kv_node.py:187-191 | removes from the queue exactly the entries that are still the records sent |
| KvStore.Store.SyncRound | 05-distributed-systems-high-availability/app/kv_node.py:177-192 | an uninterrupted pass empties the queue of each peer that acknowledges and leaves the others |
| KvStore.Store.WarmUp | 05-distributed-systems-high-availability/app/kv_node.py:195-209 | ends ready, at the pointwise newest of its data and every snapshot reached, with the clock those call for |
| KvStore.WarmUpIgnoresPeerOrder | 05-distributed-systems-high-availability/app/kv_node.py:195-209 | the end state, clock included, is the same for every order of the peers |
| KvStore.Store.QueueMissed | 05-distributed-systems-high-availability/app/kv_node.py:171-173 | the callbacks of a committed write queue exactly the peers that answered no |
| KvStore.Store.Put | 05-distributed-systems-high-availability/app/kv_node.py:276-314 | which of the three statuses an uninterrupted PUT gets; refused, it stores nothing; answered 200, exactly the value given is under the key, in the data and in the queue of every peer (ap) or of every peer that answered no (cp) |
| KvStore.PutOutcome | 05-distributed-systems-high-availability/app/kv_node.py:283-289 | a PUT is accepted by a ready node in ap mode, or in cp mode with more than half of the nodes |
| KvStore.PutStoresTheValue | 05-distributed-systems-high-availability/app/kv_node.py:276-314 | the whole state after an accepted PUT, record by record, when the clock covers what the node holds |
| KvStore.QuorumIsLeastMajority | 05-distributed-systems-high-availability/app/kv_node.py:37-38 | the quorum is the least number of nodes that is more than half |
| KvProofs.NextKeepsInv | 05-distributed-systems-high-availability/app/kv_node.py:54-93 | each of the nineteen kinds of step keeps the cluster invariant |
| KvProofs.RunKeepsInv | 05-distributed-systems-high-availability/app/kv_node.py:162-209 | the invariant holds in every state of every run |
| KvGuarantees.VersionsAndClocks | 05-distributed-systems-high-availability/app/kv_node.py:65-89 | in every run: no two records minted share a version, clocks bound data and queues, a node queues only its own records |
| KvGuarantees.ValuesComeFromPuts | 05-distributed-systems-high-availability/app/kv_node.py:65-68 | over every run, each value that a node holds or queues under a key is the value some PUT of the run gave for that key |
| KvGuarantees.SameVersionSameWrite | 05-distributed-systems-high-availability/app/kv_node.py:190-190 | equal versions mean the same write, which justifies the identity test |
| KvGuarantees.MintedLaterIsNewer | 05-distributed-systems-high-availability/app/kv_node.py:65-77 | a record minted at a node is strictly newer than all that the node stored at any earlier moment of the run |
| KvGuarantees.RunNeverForgets | 05-distributed-systems-high-availability/app/kv_node.py:70-77 | over any run no node's version of a key, and no clock, goes back |
| KvGuarantees.AnswersAreFinal | 05-distributed-systems-high-availability/app/kv_node.py:290-314 | a PUT answered 200 stays answered, with its write |
| KvGuarantees.ApWritesAreNeverLost | 05-distributed-systems-high-availability/app/kv_node.py:302-303 | in every run each finished ap write is at each peer, or its writer still queues it for that peer, at that version or newer |
| KvGuarantees.ApRunsConverge | 05-distributed-systems-high-availability/app/kv_node.py:177-192 | all-ap runs: with empty queues and no PUT between apply and enqueue, all nodes hold the same map, the newest record ever written to each key |
| KvGuarantees.MixedRunsKeepEveryAnsweredWrite | 05-distributed-systems-high-availability/app/kv_node.py:162-174 | nodes switching modes freely: at rest every node is at least as new as every write answered 200, late cp failures included |
| KvGuarantees.MixedAgreementIff | 05-distributed-systems-high-availability/app/kv_node.py:283-289 | at rest all replicas are equal iff each rejected cp write reached every node or none |
| KvGuarantees.CommittedIsOnAQuorum | 05-distributed-systems-high-availability/app/kv_node.py:283-301 | a cp write answered 200 is held by a quorum of distinct nodes |
| KvGuarantees.CommittedWritesAreDurable | 05-distributed-systems-high-availability/app/kv_node.py:283-301 | and it stays so in every later state, so every set of quorum size contains a node that holds it or something newer |
| KvGuarantees.QuorumsIntersect | 05-distributed-systems-high-availability/app/kv_node.py:37-38 | any two sets of quorum size share a node |
| KvGuarantees.OnlyAMajorityCommits | 05-distributed-systems-high-availability/app/kv_node.py:162-174 | a group cut off from every other node commits a cp write only if it has a quorum itself |
| KvGuarantees.OneSideCommits | 05-distributed-systems-high-availability/app/kv_node.py:162-174 | of two disjoint groups cut off from all others at most one ever commits cp writes |
| KvSyncPass.OnePassConverges | 05-distributed-systems-high-availability/app/kv_node.py:177-192 | from any reachable ap state without a PUT in progress, one acknowledged pass of every node empties every queue and makes all replicas equal and newest, whatever else is delivered meanwhile |
| KvSyncPass.PassIsPossible | 05-distributed-systems-high-availability/app/kv_node.py:177-192 | such a pass can be taken from every state that satisfies the invariant |
| KvRefinement.ApPutAlone | 05-distributed-systems-high-availability/app/kv_node.py:302-314 | the steps of an undisturbed ap PUT leave the origin as the store's own method does |
| KvRefinement.CallbacksQueueTheMissed | 05-distributed-systems-high-availability/app/kv_node.py:171-173 | the done-callbacks queue exactly the peers that answered no, in whatever order they run |
| KvRefinement.CpPutAlone | 05-distributed-systems-high-availability/app/kv_node.py:283-301 | the steps of an undisturbed cp PUT, accepted or rejected, leave the origin as the store's own method does, and the write on exactly the peers that said yes |
| KvRefinement.WarmUpAlone | 05-distributed-systems-high-availability/app/kv_node.py:195-209 | fetching a peer's snapshot and copying it step by step ends as the store's warm-up does |
| KvLimits.RejectedWriteMayStayOnOnePeer | 05-distributed-systems-high-availability/app/kv_node.py:283-289 | a run at rest in which a write answered 503 lives on one peer only |
| KvPartition.CanCommitIff | 05-distributed-systems-high-availability/app/kv_node.py:162-174 | from every reachable state of any cluster, a node can commit with the votes of a given set of nodes iff the set is a majority |
| KvPartition.BothCanCommitIff | 05-distributed-systems-high-availability/app/kv_node.py:162-174 | two nodes can both commit, each with the nodes it reaches, iff each reaches a majority, and then the two sets share a node |
| KvPartition.BridgeLetsBothSidesCommit | 05-distributed-systems-high-availability/app/kv_node.py:162-174 | the smallest case: nodes 0 and 1 cannot talk to each other and both commit through node 2 |
| Sqs.Queue.Send | 15-serverless/gateway/gateway.py:235-250 | the messages join at the end, in order, never received and visible at once |
| Sqs.Queue.Receive | 15-serverless/gateway/gateway.py:252-263 | the loop takes its batch in one pass over the messages and hides each one it takes |
| Sqs.ReceiveTakesTheFirstVisible | 15-serverless/gateway/gateway.py:252-263 | the batch is the first visible messages in insertion order up to the limit, each counted once more and hidden |
| Sqs.ReceiveChangesOnlyTheBatch | 15-serverless/gateway/gateway.py:252-263 | every other message is untouched and none moves |
| Sqs.SentCanBeReceived | 15-serverless/gateway/gateway.py:235-263 | a receive after a send, with nothing else visible, takes the first messages sent, in order |
| Sqs.Queue.Delete | 15-serverless/gateway/gateway.py:265-268 | removes the message and counts it, or does nothing when it is gone |
| Sqs.Queue.Fail | 15-serverless/gateway/gateway.py:270-280 | dead-letters the message, and answers True, iff it is queued and has used up its receives |
| Sqs.Queue.Purge | 15-serverless/gateway/gateway.py:282-288 | empties queue and dead letters and returns how many there were |
| Sqs.SendExactly | 15-serverless/gateway/gateway.py:235-250 | what is sent joins at the end, in order, never received, visible from time zero on |
| Sqs.DeleteExactly | 15-serverless/gateway/gateway.py:265-268 | deleting takes away the one message with the id and counts it, or does nothing |
| Sqs.FailExactly | 15-serverless/gateway/gateway.py:270-280 | failing moves a message that used up its receives, as it is, to the end of the dead letters, and otherwise does nothing |
| SqsRuns.MessagesAreConserved | 15-serverless/gateway/gateway.py:235-288 | in every interleaving, sent since the last purge equals queued plus deleted plus dead-lettered, and no id is in two places |
| SqsRuns.ReceivesAreApart | 15-serverless/gateway/gateway.py:252-263 | two receives of one message are at least the visibility timeout apart, whatever happens between them |
| Poller.PollOnce | 15-serverless/gateway/gateway.py:344-369 | the loop receives a batch and settles each message of it, as the function `Poll` says |
| Poller.PollSettlesTheBatch | 15-serverless/gateway/gateway.py:344-369 | of the batch, exactly the messages that a valid answer did not name are deleted and counted; of the others those on their last receive are dead-lettered, in order and as they are; everything else stays |
| Poller.EachMessageIsSettled | 15-serverless/gateway/gateway.py:344-369 | a processed message is in neither queue; another is queued below the maximum or dead-lettered at it; without a valid answer nothing is deleted |
| Poller.ExchangeSettlesTheBatch | 15-serverless/gateway/gateway.py:124-167 | from the exchange with the function to the queue: a message is deleted iff the response is 200 without a function error, its body is a batch response, and it does not name the message |
| Poller.PollKeepsReceiveCounts | 15-serverless/gateway/gateway.py:344-369 | after a poll each queued message has fewer receives than the maximum and each dead letter exactly the maximum |
| Poller.PollSpends | 15-serverless/gateway/gateway.py:344-369 | a poll that finds messages strictly reduces the receives left, an empty one keeps them |
| Poller.QueueDrains | 15-serverless/gateway/gateway.py:332-369 | without sends, polls at any times empty the queue once as many of them as receives are left were a visibility timeout apart, whatever the functions answer |
| Poller.QueueDrainsInTime | 15-serverless/gateway/gateway.py:332-369 | so a poller that comes back within a bounded gap empties it in one timeout and one gap for each receive left |
| Environments.EnvironmentPool.Addresses | 15-serverless/gateway/gateway.py:69-77 | the addresses without repetition, the ones seen first in front; a known stamp never changes |
| Environments.EnvironmentPool.TryAcquire | 15-serverless/gateway/gateway.py:88-101 | reserves the idle address seen first; AllBusy iff every address is busy, NoAddress iff there is none |
| Environments.EnvironmentPool.Release | 15-serverless/gateway/gateway.py:103-106 | frees this address only |
| Environments.EnvironmentPool.Name | 15-serverless/gateway/gateway.py:79-86 | the name is looked up once; an OSError gives the address itself, anything else leaves as an exception |
| Environments.NameExactly | 15-serverless/gateway/gateway.py:79-86 | what one lookup leaves in the names, and when it raises |
| Environments.EnvironmentPool.Invoke | 15-serverless/gateway/gateway.py:124-167 | every way out and its result; the busy set is as before unless the name lookup raised, and then exactly the reserved address stays busy; throttled only without wait when all addresses are busy |
| Environments.ResultMeans | 15-serverless/gateway/gateway.py:144-167 | success iff the response is 200 without a function error, Unhandled for any other response, ConnectionError iff the connection failed, otherwise an exception |
| Environments.InvocationAlone | 15-serverless/gateway/gateway.py:142-167 | the steps of an undisturbed invocation, with an exception at any statement, end as the method's result says and release the address iff it was named |
| Environments.RunKeepsConsistent | 15-serverless/gateway/gateway.py:88-167 | in every interleaving, with an exception possible at each statement, the busy set is the addresses of the invocations in flight and of those that ended before their `try`, and none is held twice |
| Environments.ThrottledMeansAllHeld | 15-serverless/gateway/gateway.py:128-140 | a throttle happens only when another invocation keeps each current address |
| Environments.LookExactly | 15-serverless/gateway/gateway.py:88-101 | one look at the pool: no container, a reservation, another wait, or a throttle, and exactly when |
| Environments.AddressReturnedIff | 15-serverless/gateway/gateway.py:142-159 | however an invocation ends, its address is free afterwards iff it did not end before its `try`, which happens iff the unknown name's lookup raised; the others keep theirs |
| Environments.AllReturnedIff | 15-serverless/gateway/gateway.py:142-159 | once all invocations are over, every address is free iff none ended before its `try` |
| Environments.LeakedForever | 15-serverless/gateway/gateway.py:88-106 | an address that was not given back stays busy in every later state |
| Processor.PaymentTable.ChargeOnce | 15-serverless/functions/processor/app.py:79-104 | record and charge commit together; charged iff idempotency is off or the order has no record |
| Processor.PaymentTable.Handle | 15-serverless/functions/processor/app.py:107-132 | table and answer of a whole batch: invalid payments are reported, a crash ends the call without an answer |
| Processor.ParseMeans | 15-serverless/functions/processor/app.py:48-67 | on the fields of a body: what crashes, what is a payment, and of which order and amount |
| Processor.AnswerIs | 15-serverless/functions/processor/app.py:107-132 | the handler answers iff no record crashes it, with the ids of the records that are no payment, in order |
| Processor.ChargesTheFirstPayment | 15-serverless/functions/processor/app.py:79-104 | an order without a record is charged once, by exactly the amount of the first payment of it that is reached, and remembers that message |
| Processor.OthersAreLeftAlone | 15-serverless/functions/processor/app.py:79-132 | an order that no payment of the batch names keeps its charges and its total |
| Processor.RedeliveryIsIdempotent | 15-serverless/functions/processor/app.py:84-104 | delivering any batch again, finished or crashed, changes nothing and gets the same answer |
| Processor.NewOrdersAreChargedOnce | 15-serverless/functions/processor/app.py:84-104 | a batch charges an order once more iff it reaches a payment of it and the order had no record |
| Processor.EveryDeliveryChargesWhenOff | 15-serverless/functions/processor/app.py:81-83 | without idempotency every payment that a batch reaches charges its order once more, by its amount |
| EffectivelyOnce.NextKeepsInv | 15-serverless/gateway/gateway.py:344-369 | every step of queue, poller, functions and table keeps the joint invariant |
| EffectivelyOnce.ChargedEffectivelyOnce | 15-serverless/functions/processor/app.py:79-132 | in every run an order is charged at most once, exactly when its record exists, for the amount of the message charged |
| EffectivelyOnce.DeletedMeansCharged | 15-serverless/gateway/gateway.py:344-369 | every message the poller deleted is a payment whose order was charged exactly once |
| EffectivelyOnce.ChargedByTheAmount | 15-serverless/functions/processor/app.py:79-104 | in every run the total of a charged order is the amount field of the record that its idempotency record names, which an invocation got past |
| EffectivelyOnce.ChargedByTheAmountSent | 15-serverless/functions/processor/app.py:79-104 | with the queue as the only way in, it is the amount field of the message sent under that id |
| EffectivelyOnce.DeletedStaysDeleted | 15-serverless/gateway/gateway.py:344-369 | in every run a deleted message is in neither queue, then and later, and no message is in both |
| EffectivelyOnce.NoPaymentIsLost | 15-serverless/gateway/gateway.py:235-280 | in every run without a purge each message sent is in exactly one place: queued, dead-lettered, or deleted and then charged |
| EffectivelyOnce.ReceiveCountsStayBounded | 15-serverless/gateway/gateway.py:270-280 | with one poller and sends and purges at any time, dead letters have exactly the maximum receives, queued messages fewer between polls |
| EffectivelyOnce.ChargedIffReached | 15-serverless/functions/processor/app.py:84-104 | in every run an order was charged, once, iff some invocation got past a record that pays it |
| EffectivelyOnce.DeadLetterChargedIff | 15-serverless/gateway/gateway.py:344-369 | in every run a dead-lettered payment was handed to at least the maximum of receives of invocations, and its order was charged iff some invocation got past such a record |
| EffectivelyOnce.DeadLetterMayBeCharged | 15-serverless/gateway/gateway.py:344-369 | a run in which a dead-lettered payment was charged |
| PollRefinement.AloneIsHandler | 15-serverless/functions/processor/app.py:107-132 | a function left alone computes what the handler computes |
| PollRefinement.AlonePollIsPollOnce | 15-serverless/gateway/gateway.py:344-369 | a poll left alone leaves queue and table as the poller and the handler do |
| Worker.NoOrderIsLost | 14-distributed-messaging/app/worker.py:56-76 | in every run each published order is on the queue, or was processed and acknowledged, or is a dead letter |
| Worker.AttemptsAreBounded | 14-distributed-messaging/app/worker.py:87-117 | no copy carries an attempt above three; a poison dead letter failed at least three times; only good orders count as processed |
| Worker.SmoothRunsKeepOneCopy | 14-distributed-messaging/app/worker.py:87-117 | without crashes and nacks each order is in exactly one place and a poison order fails exactly three times before it is dead-lettered |
| Worker.Channel.RetryLater | 14-distributed-messaging/app/worker.py:56-76 | confirmed: the copy is stored and the original acknowledged; not confirmed: the original goes back |
| Worker.Channel.OnMessage | 14-distributed-messaging/app/worker.py:87-117 | handling a delivery is the broker steps of its case, and counts only processed orders |
| Worker.HandlingExactly | 14-distributed-messaging/app/worker.py:87-117 | what handling a delivery leaves on the queue, among the dead letters and as done, for each kind of order, attempt and confirmation |
| Worker.DieExactly | 14-distributed-messaging/app/worker.py:87-117 | a worker that dies gives back exactly the deliveries it had not acknowledged, with the attempt they had |
| Payment.LedgerDb.ChargeMessage | 14-distributed-messaging/app/payment.py:25-37 | both rows or neither; a duplicate id and a body with a missing field leave the ledger as it was |
| Payment.ChargeWritesTheFields | 14-distributed-messaging/app/payment.py:25-37 | the row holds the order and the amount of the body and the message id; exactly when a charge, a duplicate or an abort happens |
| Payment.LedgerDb.Consume | 14-distributed-messaging/app/payment.py:54-73 | which messages are charged and acknowledged, and on which one the loop dies: no order id, the crash before or after the charge, or a new charge without an amount |
| Payment.StopsExactly | 14-distributed-messaging/app/payment.py:54-73 | on which message the consumer dies, and whether before it charged |
| Payment.DieExactly | 14-distributed-messaging/app/payment.py:54-73 | a consumer that dies gives back exactly the deliveries it had not acknowledged, as they were |
| Payment.ChargedOnce | 14-distributed-messaging/app/payment.py:25-37 | in every run of crashing consumers no id is charged twice, processed ids are the charged ids, an acknowledged message with an id has exactly one charge |
| Payment.NothingIsLost | 14-distributed-messaging/app/payment.py:54-73 | in every run each published message is on the queue or was acknowledged, and then, if it carries an id, has exactly one charge |
| Payment.ChargesAgainIff | 14-distributed-messaging/app/ledger.py:16-17 | a delivery adds its charge iff the message is complete and carries no id or a new one, and otherwise changes nothing |
| Payment.WithoutIdChargedPerDelivery | 14-distributed-messaging/app/ledger.py:16-17 | a message without an id is charged once per delivery |
| Puzzle.CountAnswers | 13-solutions-architecture/arch-builder/tools/build.py:351-353 | counts, per service, the slots it answers |
| Puzzle.CheckPalette | 13-solutions-architecture/arch-builder/tools/build.py:346-366 | reports no error iff every answer has one tile used exactly as often as it answers and every other tile is used once and has a role |
| PuzzleGame.CheckedUsesFitAnswers | 13-solutions-architecture/arch-builder/tools/build.py:354-366 | on a checked puzzle the uses of a service are its number of answers, or one |
| PuzzleGame.Uses | 13-solutions-architecture/arch-builder/app/core.js:68-72 | the uses of each service, absent or zero counting as one |
| PuzzleGame.Remaining | 13-solutions-architecture/arch-builder/app/core.js:73-77 | uses minus the slots that hold the service |
| PuzzleGame.ResetAttempt | 13-solutions-architecture/arch-builder/app/core.js:121-126 | keeps exactly the tiles on locked slots |
| PuzzleGame.SubmitAttempt | 13-solutions-architecture/arch-builder/app/core.js:138-163 | locks and scores the right open slots, records the others, and lists all of them in order |
| PuzzleGame.RetryAttempt | 13-solutions-architecture/arch-builder/app/core.js:165-175 | clears exactly the slots that are not locked and counts the attempt |
| PuzzleGame.RevealAttempt | 13-solutions-architecture/arch-builder/app/core.js:177-195 | fills every open slot with its answer for no points and ends the attempt |
| PuzzleGame.EndKeepsOk | 13-solutions-architecture/arch-builder/app/core.js:197-213 | time-up always ends the attempt, a challenge submission that counts does too |
| PuzzleRules.SubmitExactly | 13-solutions-architecture/arch-builder/app/core.js:128-163 | a submission counts iff an open slot holds a tile; it locks exactly the open slots that hold their answer, gives each open slot its result, and ends the attempt iff all are solved |
| PuzzleRules.VerdictLists | 13-solutions-architecture/arch-builder/app/core.js:138-163 | each open slot is listed as correct, wrong or empty iff it holds its answer, another tile or none |
| PuzzleRules.VerdictInOrder | 13-solutions-architecture/arch-builder/app/core.js:138-163 | each list follows the order of the slots |
| PuzzleRules.FirstTryPaysTen | 13-solutions-architecture/arch-builder/app/core.js:138-163 | a right slot in the first submission, without a hint, is locked for ten points |
| PuzzleRules.SolvedAtOnce | 13-solutions-architecture/arch-builder/app/core.js:91-163 | on a checked puzzle every answer can be placed on a new attempt, and submitting then ends it with every slot locked for ten points |
| PuzzleRules.PlaceExactly | 13-solutions-architecture/arch-builder/app/core.js:91-102 | when a tile can be placed, what the slot then holds, and which tile comes back |
| PuzzleRules.MoveExactly | 13-solutions-architecture/arch-builder/app/core.js:103-114 | when a tile can be moved, and that exactly the two slots change |
| PuzzleRules.MoveBalances | 13-solutions-architecture/arch-builder/app/core.js:103-114 | a move brings no tile onto the diagram and takes off exactly the one it returns |
| PuzzleRules.PlaceThenRemove | 13-solutions-architecture/arch-builder/app/core.js:91-120 | placing on an empty slot and taking off again changes nothing |
| PuzzleRules.ResetExactly | 13-solutions-architecture/arch-builder/app/core.js:121-126 | a reset leaves exactly the tiles on locked slots, and a second one nothing to do |
| PuzzleRules.RetryExactly | 13-solutions-architecture/arch-builder/app/core.js:165-175 | exactly the tiles and results of open slots go, and the attempt counts one more |
| PuzzleRules.OverMeansOver | 13-solutions-architecture/arch-builder/app/core.js:91-213 | an attempt that is over is changed by nothing but showing the answers |
| PuzzleRules.RevealExactly | 13-solutions-architecture/arch-builder/app/core.js:177-195 | open slots get their answer, no points and their last choice; solved ones keep their results |
| PuzzleRules.TimeUpExactly | 13-solutions-architecture/arch-builder/app/core.js:197-213 | at time-up an open slot that holds its answer gets its points, every other is shown for none |
| PuzzleRules.HintExactly | 13-solutions-architecture/arch-builder/app/core.js:256-262 | a hint counts up to three, for an open slot, in practice only |
| PuzzleGame.NextKeepsOk | 13-solutions-architecture/arch-builder/app/core.js:91-213 | every operation keeps the attempt invariant and unlocks nothing |
| PuzzleScore.RunsKeepTilesAndLocks | 13-solutions-architecture/arch-builder/app/core.js:91-213 | over every run no service is placed more often than its uses, and a locked slot holds its answer and never unlocks |
| PuzzleScore.OverUsesTilesUp | 13-solutions-architecture/arch-builder/app/core.js:177-195 | an attempt that is over shows every answer and uses each answer tile exactly up |
| PuzzleScore.TilesAreConserved | 13-solutions-architecture/arch-builder/app/core.js:73-77 | tiles left plus tiles placed always equal the total uses |
| PuzzleScore.SlotPointsBounds | 13-solutions-architecture/arch-builder/app/core.js:28-31 | between two and ten points, never more for a later submission or for more hints |
| PuzzleRules.SlotPointsTable | 13-solutions-architecture/arch-builder/app/core.js:28-31 | ten, five and two points for the first, second and any later submission, halved for each hint, never below two |
| PuzzleScore.EachSlotPays | 13-solutions-architecture/arch-builder/app/core.js:214-228 | the points are the sum over the slots of the puzzle |
| PuzzleScore.PerfectMeans | 13-solutions-architecture/arch-builder/app/core.js:229-234 | perfect iff every slot was solved in the first submission, without a hint, and nothing was revealed |
| PuzzleScore.PerfectIsPossible | 13-solutions-architecture/arch-builder/app/core.js:214-253 | that attempt is perfect and earns all slot points |
| PuzzleScore.Score | 13-solutions-architecture/arch-builder/app/core.js:214-253 | slot points, the bonus of a perfect attempt, and the time bonus |
| PuzzleScore.PerfectIsFullMarks | 13-solutions-architecture/arch-builder/app/core.js:229-234 | over every run at most ten points a slot; perfect means all of them and a fifth more, and never revealed |
| Enrollment.Database.TransferStudent | 10-databases/visualizer/server.py:233-372 | a failure at any statement, or any outcome but a commit, restores the state exactly; the transfer took place iff the COMMIT did, also when its acknowledgement was lost |
| Enrollment.TransferExactly | 10-databases/visualizer/server.py:233-372 | a transfer commits iff both courses exist and the student is in the first and not already in the second; then exactly the row and the two counters change; each other outcome and when |
| Enrollment.MovedIffCommitted | 10-databases/visualizer/server.py:262-344 | with a failure at any statement, the row and the counters move iff the transfer can be made and the COMMIT took place |
| Enrollment.TransferKeepsCounters | 10-databases/visualizer/server.py:262-344 | a transfer keeps each counter equal to its rows and the total number of rows, also between a course and itself |
| Enrollment.Database.Reset | 10-databases/visualizer/server.py:519-548 | runs the reset statements in order, each committing by itself |
| Enrollment.ResetRestoresTheSeed | 10-databases/visualizer/server.py:519-532 | a full reset restores the seed data from any counters and rows while the original courses and students exist |
| Enrollment.CountersAlwaysMatch | 10-databases/visualizer/server.py:233-372 | over any run of transfers and resets each counter equals its number of rows and the total stays ten |
| Enrollment.InterruptedResetIff | 10-databases/visualizer/server.py:519-548 | a reset cut short leaves the counters right iff it stopped before its first statement or after its fifth |
| CacheLab.KeyRoundTrip | 11-caching/python/cache_lab.py:203-204 | the flush recovers every product id from its key |
| CacheLab.CachedStore.GetProduct | 11-caching/python/cache_lab.py:72-82 | a hit returns the cached entry, a miss fetches and stores the product, an unknown product stores nothing |
| CacheLab.CachedStore.UpdateProduct | 11-caching/python/cache_lab.py:152-160 | service and cache both hold the merged product, or nothing changes |
| CacheLab.CachedStore.UpdateProductAsync | 11-caching/python/cache_lab.py:185-189 | only the cache changes, and the key becomes dirty |
| CacheLab.CachedStore.FlushDirty | 11-caching/python/cache_lab.py:192-207 | sends the dirty entries in order up to the first failed PUT, which the service may have applied |
| CacheLab.ReadsAgree | 11-caching/python/cache_lab.py:72-131 | over every run a read returns the cached entry, else the product, which is then cached, else nothing; unless the key is dirty the service has every field returned |
| CacheLab.WriteThenRead | 11-caching/python/cache_lab.py:152-189 | after a write-through that succeeded a read returns the merged product, after a write-back its body |
| CacheLab.CleanEntriesAgree | 11-caching/python/cache_lab.py:72-207 | over every run, answers of a flush lost or not, an entry that is not dirty agrees with the service on all its fields |
| CacheLab.FlushOutcome | 11-caching/python/cache_lab.py:192-207 | a completed flush leaves no dirty key and the service with every cached field; a failed one leaves exactly the failed key and those behind it |
| CacheLab.WritesKeep | 11-caching/backend/app.py:40-53 | the field-wise merge of the service keeps the other entries in agreement |
| CacheLab.LostAnswerIff | 11-caching/python/cache_lab.py:152-160 | after a PUT that was applied but whose answer was lost, agreement holds iff the key is dirty, not cached, or unchanged in its cached fields |
| CacheLab.ServiceReceives | 11-caching/python/cache_lab.py:152-207 | over every run a product is what it was, merged in order with exactly the accepted write-throughs and the write-backs that a flush sent before their entry was overwritten |
| CacheLab.WriteBackArrivesIff | 11-caching/python/cache_lab.py:185-207 | for any operations between a write-back and the next completed flush: the product that results, and an iff for when the service has all fields of the write-back |
| CacheLab.OverwrittenUpdateIsLost | 11-caching/python/cache_lab.py:185-207 | an eviction, a clear, a second write-back or a write-through right after a write-back loses all of it |

## Left out

- HTTP servers, sockets, DNS, JSON encoding, threads, logging and timing scripts of all laboratories: steps stand for the sections that run under a lock, and a request that fails is a step of its own.
- A crash and restart of a key-value node in the cluster results: memory and clock are lost, so those results are about runs without crashes. Warm-up is modelled, as a method and as steps.
- Reads of the key-value node: in cp mode they probe a majority and then read local data, so no ordering between a cp read and a write elsewhere is claimed.
- Node ids as strings: the cluster only compares them, so a node is named by the rank of its id.
- KvCluster lets a batch be applied in any order and any number of times, lets a callback run late, and does not limit a node to one sync exchange at a time: the real node does less, so every result also holds for it.
- Sqs and EffectivelyOnce take new message ids as input and require them to be unused, as random UUIDs are; a poller that raises in the middle of a batch is not modelled.
- Processor takes the body after JSON decoding and the amount after its conversion to a decimal number.
- EffectivelyOnce has idempotency on; the mode without it appears only in Processor.
- Environments: a release that itself fails.
- Worker: the parsing of a body (`parse_order`), of which the model takes the result, the broker's own limit on redeliveries, transient messages, and a producer that sets the attempt header itself.
- Payment: the mode in which the broker acknowledges automatically, and amounts that are not numbers, on which the consumer dies after the charge.
- PuzzleGame: elapsed time, the hint texts, shuffling, saved state and routes; names that collide with properties of every JavaScript object.
- Enrollment: concurrent transactions inside MySQL, statements on other tables, and the other tabs of the visualizer.
- CacheLab: the runs take a write-through whose answer is lost as refused (`LostAnswerIff` is about the other case), concurrent access during a flush, keys that are not of the form `product:` plus an id, and a read-through whose fetch function reads something else than the product of its key.
- The remaining laboratories, the other-language copies of the cache programs, infrastructure code, slides and browser interfaces: they add no protocol.
