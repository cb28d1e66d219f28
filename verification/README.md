# COSICoin: a verified model

COSICoin is a small network of validators that agree on blocks with Bracha's reliable broadcast,
sign every message with a fresh Lamport key, identify blocks by a Merkle root under SHA-256, and
check that a block spends existing outputs once. This project models those four parts in Dafny
and proves what they are for. `dafny verify dfyconfig.toml` checks everything.

## How the files fit together

**Reliable broadcast.** `BrachaRound` is one protocol round as a function of the node's counters,
for every order in which the unordered maps may be iterated. `Network` puts n validators and their
queues together: a run is any sequence of proposals, faulty injections, transfers, rounds, restarts
and pick-ups of delivered blocks. `Invariants`, `Faults`, `Agreement`, `Totality` and `Termination`
prove the distributed theorems by induction over runs. `Schedules` and `Disagreement` build the runs
that break agreement wherever it can break, so that its condition on n and f is exact; `Redelivery`
does the same for delivering a block twice. `NodeSpec` is the full state of one node as a value, `Node` is
the class with the program's fields and loops, proved against `NodeSpec`, and
`NodeSpec.NodeRefinesWork` shows that one pass of its loop is one step of the network model.
`NodeRuns` follows one node through its whole life, `NodeHistory` says what its store and its outbox hold
in terms of the messages it accepted and the counters it had, `StoredContents` what it may have stored, and `Composition` joins n nodes by their queues and shows every run of them to be a run of the
network model, so that agreement holds of the nodes' own accepted blocks.

The program's exact numbers are kept: an ECHO quorum is `(n + f + 1) / 2` by integer division,
amplification is at `f + 1`, delivery at strictly more than `2f + 1`, a delivering node leaves its
loop, and a round delivers at most one block. The counters count messages, not senders, so the
theorems name as an assumption what the program does not enforce: a faulty validator gets at most one
ECHO and one READY per block through to each correct validator (`FaultyOnce`). Further assumptions
are named where they are used: at most one SEND reaches each correct validator (`OneSend`), or
SENDs come from the leader only (`OnlyLeaderSends`).

**Keys.** `Lamport` is key generation, signing and verifying; `KeyChain` is the chain that the
messages of one validator form; `Draws` reads the random bits back from the signatures, so that a key
can be seen to serve one message only; `Comms` is the queues that carry the messages.

**Hashing.** `Fips180` states SHA-256 as FIPS 180-4 does (sections 3.2, 4.1.2, 4.2.2, 5.1.1, 5.2.1,
6.2.2). `Sha256` is the unrolled compression function and `Hasher` the streaming class, both proved
equal to the standard. `Merkle` holds for any hash function; binding is stated as "equal, or these two
of the very texts that were hashed collide". `Contents` binds transactions to header IDs by conditions that a
node can check alone. `Sha256Instance` puts the real hash in place of an arbitrary one.

**Ledger.** `Ledger` and `Conservation` are the spending checks and what they preserve; `Blocks` is
headers and blocks; `Texts` says what can be read back from the texts that are hashed for transactions,
signatures and headers; `BlockBuilding` and `Validator` are the leader's block building.

Inputs that come from outside are parameters: random bits (`coins`), the text form of a key
(`keyText`), the batches a node drains, and the iteration order of unordered maps.

## Where the code decides

- The comment on the message maps speaks of lists of node IDs; the code keeps counters, and so does the model.
- `Block::verify` does not compare the header's Merkle root with the transactions. What validators
  agree on is the header ID, and a node keeps the first block that came under an ID. Two nodes store
  transactions with the same digests under one ID, or a collision is named, if each of them checks that
  the root is the transactions' own, that their digests are distinct, and that no transaction's text
  is 128 bytes long, and if no block is empty or all predecessors' digests are equally long
  (`StoredContents.StoredContentsAgree`). Each condition is needed: without it two nodes can deliver one
  ID with different transactions (`StoredContents.OwnRootIsNeeded`, `DistinctDigestsAreNeeded`,
  `SplitRuleIsNeeded`), or one ID has different contents under some hash although none of the texts
  hashed collide (`Contents.LongTextsAreNeeded`).
- `getDigest` yields 64 characters and a signature covers the first 32 of them
  (`Blocks.BlockSignatureExactness`).
- Totals are compared in a 32-bit `int`. That is harmless exactly when the totals of each transaction
  agree above their low 32 bits (`Conservation.HighWordsDecide`); `Conservation.ValueFromOverflow` is an
  accepted block where they do not.
- A node that restarts can deliver a block again, if and only if n is at least 4f + 4
  (`Redelivery.OnceExactly`).
- Integer division makes the ECHO quorum too small for even n + f: two quorums need not share a
  correct validator (`Faults.QuorumsMeetExactly`). Agreement on what is declared ready still holds if
  f is 0 or n is at most f + 1, and fails for all other even n + f (`Disagreement.AgreementExactly`);
  agreement on what is delivered holds also for n up to 2f + 1, where nothing is delivered, and fails
  for all other even n + f with f above 0 (`Disagreement.DeliveryAgreementExactly`).
- With f silent validators, nothing is ever delivered when n is at most 3f + 1
  (`Totality.TooFewToDeliver`): the usual bound of 3f + 1 is one too small for the delivery threshold.
- `CreateBlk` does not check that the inputs of one transaction are distinct, and `Block::verify` does.
  The leader's block can fail (`BlockBuilding.SpendsTwice`); it is safe to build from a pool, in any
  order and any selection, if and only if no pooled transaction that its sender can spend names an
  input twice (`BlockBuilding.SafePoolExactly`).
- The number of queues is kept in eight bits, and an address listed twice has one queue.
- Decoding a key checks the length of its first half twice; the second half is then read to the same
  length, so a decoded key is complete.
- In the padding, the branch that would put the 1 bit into the second block cannot be reached, because
  the buffer is never full there.

## Model

| member | source | states |
|---|---|---|
| Agreement.CorrectValidatorsAgree | lib/bracha/node.cc:126-170 | In every run with `FaultyOnce` and `OneSend`, if n+f is odd, or f is 0, or n is at most f+1, no two correct validators send READY for, or deliver, different blocks |
| Agreement.CommittedWasProposed | lib/bracha/node.cc:90-169 | In every run with a correct leader, n > f, `FaultyOnce` and `OnlyLeaderSends`, whatever a correct validator sends READY for or delivers was proposed by the leader, through amplification too |
| Agreement.DeliveriesArePaidFor | lib/bracha/node.cc:104-168 | Over any run and any restarts, (2f+2) times the deliveries of a block plus its current READY count is at most the READYs received for it |
| Agreement.DeliveredAtMostOnce | lib/bracha/node.cc:141-168 | With `FaultyOnce` and n at most 4f+3, no validator delivers a block twice, however often the protocol is restarted |
| Redelivery.OnceExactly | lib/bracha/node.cc:141-168 | For all n and f: no run of any configuration within `FaultyOnce`, restarts included, makes a correct validator deliver a block twice, if and only if n is at most 4f+3 |
| Redelivery.DeliverTwice | lib/bracha/node.cc:141-168 | With n at least 4f+4 and nobody faulty, a validator delivers a block on 2f+2 READYs, restarts, and delivers it again on the others |
| Disagreement.AgreementExactly | lib/bracha/node.cc:126-170 | For all n and f: no run of any configuration within `FaultyOnce` and `OneSend` makes two correct validators send READY for or deliver different blocks, if and only if n+f is odd, or f is 0, or n is at most f+1 |
| Disagreement.DeliveryAgreementExactly | lib/bracha/node.cc:126-170 | For all n and f: within the same fault model no two correct validators ever deliver different blocks, if and only if n+f is odd, or f is 0, or n is at most 2f+1 |
| Disagreement.WinBoth | lib/bracha/node.cc:136-146 | For any two blocks, a faulty leader and f-1 others get an ECHO quorum for each out of one half of the correct validators |
| Disagreement.DeliverBoth | lib/bracha/node.cc:148-169 | With n at least 2f+2 amplification then carries both blocks past 2f+1, and one validator delivers each |
| Disagreement.NobodyDelivers | lib/bracha/node.cc:155 | With `FaultyOnce` and n at most 2f+1 no correct validator ever delivers |
| Faults.QuorumsMeetExactly | lib/bracha/node.cc:142 | Any two ECHO quorums share a correct validator if and only if n+f is odd |
| Faults.FreshReady | lib/bracha/node.cc:141-152 | With `FaultyOnce`, a READY that is new in a round has counted ECHOs for a quorum, or a correct validator that sent it before |
| Totality.DeliveredByOneThenByAll | lib/bracha/node.cc:8-34 | With `FaultyOnce`, n at least 3f+2 and correct READYs for a verifying block h only: once one correct validator has delivered h, every quiescent state has every correct validator delivered, although delivered ones stop echoing |
| Totality.TotalityOfOneBlock | lib/bracha/node.cc:148-169 | Totality with `FaultyOnce` and n at least 3f+2, when every message names one verifying block |
| Totality.TotalityFromAgreement | lib/bracha/node.cc:126-170 | Totality with any number of blocks in play, for the n and f of agreement, with `FaultyOnce`, `OneSend` and n at least 3f+2, for a block that verifies everywhere |
| Totality.ProposedIsDelivered | lib/bracha/node.cc:37-202 | Validity, with `FaultyOnce`, `OnlyLeaderSends` and n at least 3f+2: the one block a correct leader has proposed, if it verifies at every correct validator, has been delivered by all of them in every quiescent state, whatever else the faulty validators echo and declare themselves ready for |
| Totality.TooFewToDeliver | lib/bracha/node.cc:155 | With f silent validators and n at most 3f+1, no run delivers anything |
| Termination.NetworkComesToRest | lib/bracha/node.cc:37-39 | Left alone, the network makes at most as many steps as the measure of its state: every transfer and every round that drains messages uses some of it up |
| Termination.EveryRunIsBounded | lib/bracha/node.cc:37-39 | Every state has a bound on how many transfers and rounds can follow, whatever the schedule |
| Termination.MovesAreBounded | lib/bracha/node.cc:37-181 | In every run, restarts and pick-ups included, the steps that move or drain messages number at most 4n(n+1) for each proposal and injection |
| Termination.WorkDrops | lib/bracha/node.cc:136-181 | A round broadcasts no more than the messages it consumed and the blocks it marked pay for |
| Termination.RestIsQuiescence | lib/bracha/node.cc:8-34 | A reachable state with no step left has every correct validator drained, or stopped after delivering |
| Termination.AtRestEveryoneHasDelivered | lib/bracha/node.cc:8-202 | Under the same assumptions, when the network has come to rest every correct validator has delivered the leader's block |
| Invariants.InvAlways | lib/bracha/node.cc:37-170 | In every reachable state a correct validator's counters and deliveries are covered by the messages received, one for one until its first delivery of a block; each READY is marked, each ECHO answers a SEND, and no threshold is left unanswered before its first delivery |
| Invariants.DrainEffect | lib/bracha/node.cc:90-115 | A batch raises each counter by the number of accepted messages of that kind and block, and touches nothing else |
| Invariants.CountIsSenders | lib/bracha/node.cc:97-109 | When each sender's message came once, the number of messages is the number of distinct senders |
| BrachaRound.RoundMeaning | lib/bracha/node.cc:126-170 | For every iteration order: which messages a round sends, why each READY is sent, that no ECHO quorum stays unanswered, and that it delivers one counter above 2f+1 or there is none |
| BrachaRound.ReadyPassEffect | lib/bracha/node.cc:148-169 | The READY loop delivers the first block in its order whose counter is above 2f+1, and acts on no later block |
| BrachaRound.EchoPassEffect | lib/bracha/node.cc:141-146 | The ECHO loop marks exactly the blocks that have a quorum |
| BrachaRound.RoundCount | lib/bracha/node.cc:136-152 | A round sends one message for its SEND and one for each newly marked block |
| Network.HistStep | lib/comms/client.cc:79-128 | What travels between two validators changes by exactly what is sent, whatever else happens |
| Network.FifoStep | lib/comms/client.cc:79-128 | Every step keeps all queues first-in first-out, without loss, duplication or reordering |
| NodeSpec.NodeRefinesWork | lib/bracha/node.cc:25-170 | One pass of a node's loop is one step of the network model, in state and in outgoing messages, when its inbox shows every accepted message and every one from a correct validator. Assumed: which messages of correct validators are accepted depends on the block ID, and a faulty validator's accepted message has an ID that verifies; its other messages are unrestricted |
| NodeSpec.ReceiveRefinesDrain | lib/bracha/node.cc:37-116 | Under the same assumption a node counts a batch exactly as the network model drains an inbox; a faulty validator's rejected message might as well not have been sent |
| NodeSpec.ContentsAreJudgedById | lib/bracha/node.cc:51-68 | The assumption follows if correct validators' signatures pass and their contents verify exactly if their IDs do; faulty ones may send several contents under one ID |
| NodeSpec.BatchCountsAccepted | lib/bracha/node.cc:49-115 | A batch does to the counters what its accepted messages do; rejected ones leave them alone |
| NodeSpec.KeysOfBatch | lib/bracha/node.cc:230-231 | Which keys a node holds depends on the messages it processed, not on which it accepted |
| NodeSpec.ReceiveKeepsInv | lib/bracha/node.cc:49-115 | Every message, accepted or not, keeps the store invariant |
| NodeSpec.HalfwayKeepsInv | lib/bracha/node.cc:126-170 | The store invariant holds at every point of a round |
| NodeSpec.OutboxShowsPackets | lib/bracha/node.cc:136-181 | A round's outgoing messages carry the stored blocks of exactly the protocol's block IDs, in its order |
| NodeSpec.WorkDelivers | lib/bracha/node.cc:154-168 | A pass that keeps running delivers nothing; one that stops delivers the one block voted for |
| NodeRuns.StoreInvAlways | lib/bracha/node.cc:58-115 | The store invariant holds at every moment of every life of a node |
| NodeRuns.StoreAnswersForEverything | lib/bracha/node.cc:58-168 | Every hash counted, marked or accepted is stored with a finalized block of that header ID that passed verification on admission and one record per accepted message; no round asks for a block that is not stored |
| NodeRuns.RoundSpeaksOfStored | lib/bracha/node.cc:136-166 | Whatever the iteration order, a round broadcasts and remembers stored blocks only |
| StoredContents.StoredContentsAgree | lib/bracha/node.cc:58-88 | Two nodes store the same header and transaction digests under one ID, or two of the very texts hashed for it collide, if each finds its block sound: own root, distinct digests, no text of 128 bytes; and if no block is empty or the predecessors are equally long |
| StoredContents.OwnRootIsNeeded | lib/blockchain/block.cc:112-134 | Without the check of the root, two nodes can deliver any header ID with different transactions |
| StoredContents.DistinctDigestsAreNeeded | lib/blockchain/header.cc:42-44 | With own roots but repeated digests, two nodes can deliver one ID with three transactions and with four |
| StoredContents.SplitRuleIsNeeded | lib/blockchain/header.cc:59-61 | With own roots but no rule for the split, two nodes can deliver one ID with no transactions and with one |
| StoredContents.DeliversContents | lib/bracha/node.cc:49-168 | With any ledger, a new node can deliver any header with any contents that verify |
| Composition.EveryStoryIsARun | lib/bracha/node.cc:8-202 | Every run of n nodes joined by first-in first-out queues, with forged messages from faulty ones, is a run of the network model with the same counters and traffic, if what each node drains is judged by block ID |
| Composition.AcceptedBlocksAgree | lib/bracha/node.cc:154-167 | So, for the n and f of agreement and within the same fault model, no two correct nodes accept different block hashes |
| Composition.TurnRefinesWork | lib/bracha/node.cc:25-170 | A turn of a node on its batch is the round of the network model that has drained the same messages |
| BrachaNode.Node.constructor | include/bracha/node.h:30-38 | A new node has empty counters and stores and one key pair ready |
| BrachaNode.Node.SetUTXOlists | include/bracha/node.h:110-113 | Replaces the ledger to verify against and nothing else |
| BrachaNode.Node.ClearUTXOlists | include/bracha/node.h:118 | Empties the list of outputs and nothing else |
| BrachaNode.Node.CheckBlockSig | lib/bracha/node.cc:216-236 | Accepts if no key is known or the signature verifies under the last announced one; the newly announced key is stored either way |
| BrachaNode.Node.ReceiveMessage | lib/bracha/node.cc:42-115 | The node's whole new state after one message, on every branch |
| BrachaNode.Node.SaveBlock | lib/bracha/node.cc:71-88 | The first block under an ID is kept, and each message adds its record |
| NodeHistory.AcceptedWhen | lib/bracha/node.cc:49-69 | A message is accepted if and only if its sender is unknown or its signature verifies under the sender's last announced key, and its ID was verified before or its transactions pass now |
| NodeHistory.StoreIsHistory | lib/bracha/node.cc:71-88 | In every reachable state a stored block is that of the first message accepted for its ID, and its records are those of exactly the accepted messages for the ID, in order, each with its signature, announced key, sender and round |
| NodeHistory.RecordsAre | lib/bracha/node.cc:71-83 | One record for each accepted message of an ID, holding what the message said |
| BrachaNode.Node.Count | lib/bracha/node.cc:90-114 | Counts a message of each kind as the protocol does |
| NodeHistory.TalliesCount | lib/bracha/node.cc:96-110 | A counter rises by the number of ECHOs, or READYs, for its hash |
| NodeHistory.LastSendCounts | lib/bracha/node.cc:91-95 | Of several SENDs in a batch the last one is answered |
| BrachaNode.Node.UpdateRecvMessages | lib/bracha/node.cc:37-116 | The loop over a batch has the effect of its messages one by one, after forgetting the last SEND |
| BrachaNode.Node.SignBlock | lib/bracha/node.cc:204-214 | The block carries a signature with the current key, the one drawn last before, and announces the next, whose secrets read back as the bits drawn now; the program's own assertion about it holds; keys advance even if signing fails |
| BrachaNode.Node.BroadcastMessage | lib/bracha/node.cc:172-181 | One signed copy goes out, or an exception leaves everything but the keys unchanged |
| BrachaNode.Node.Propose | lib/bracha/node.cc:197-202 | The leader's SEND, as one broadcast |
| BrachaNode.Node.AnswerSend | lib/bracha/node.cc:136-139 | One ECHO for the batch's SEND, which is then forgotten |
| BrachaNode.Node.VisitEchoes | lib/bracha/node.cc:141-146 | The loop over the ECHO map is the protocol's ECHO pass in some order of its keys |
| BrachaNode.Node.VisitReadies | lib/bracha/node.cc:148-169 | The loop over the READY map, with its early exit, is the protocol's READY pass in some order of its keys |
| BrachaNode.Node.AcceptBlock | lib/bracha/node.cc:155-167 | Delivery stops the node, erases the block's counters and appends it to the accepted blocks |
| BrachaNode.Node.BroadcastRound | lib/bracha/node.cc:126-170 | A round's new counters and outgoing messages are those of the protocol round, for some iteration order |
| NodeHistory.RoundOutbox | lib/bracha/node.cc:136-181 | Each message of a round, in any iteration order: the stored block of its own ID with nothing changed but signer, signature and next key, signed with the next key in turn; an ECHO carries 1 and answers the SEND, a READY was never sent before and carries 2 exactly if the ECHO quorum was there, else 3 on f + 1 READYs |
| NodeHistory.RoundsAreJustified | lib/bracha/node.cc:136-152 | The same of the protocol's packets: which READYs carry 2 and which 3 |
| BrachaNode.Node.RunTask | lib/bracha/node.cc:25-34 | One pass of the loop: a batch, then a round |
| BrachaNode.Node.RunProtocol | lib/bracha/node.cc:8-23 | However many batches come, the loop ends with at most one more delivered block, and stops only by delivering one |
| BrachaNode.Node.GetConsensusBlocks | lib/bracha/node.cc:247-258 | The accepted blocks, each finalized, under its own ID and with one record per accepted message; erasing also stops the node |
| BrachaNode.Node.GetReceivedBlock | lib/bracha/node.cc:238-245 | The stored block, or an empty one |
| KeyChain.SentIsAChain | lib/bracha/node.cc:204-214 | Every run of signings by a new node is a chain: each message is signed with the key announced before, and numbers are skipped only by failed signings |
| Draws.KeyIsItsDraw | lib/signature/hash.cc:79-94 | Every secret of key i of a node reads back as the bits drawn for its place of key i |
| Draws.DifferentDrawsDifferentKeys | lib/signature/hash.cc:79-94 | Two keys of a node for which different bits were drawn are different |
| Draws.SignatureShowsDraws | lib/bracha/node.cc:204-214 | Each place of a message's signature reads back as the bits drawn for that place of its key, chosen by the digest's bit; each place of the announced key hashes what was drawn for the next |
| Draws.SentShowsDraws | lib/bracha/node.cc:204-214 | So for every run of signings by a new node, with key numbers that only increase |
| Draws.LivesShowDraws | lib/bracha/node.cc:172-214 | And for everything a node broadcasts in any life |
| Draws.NoKeyTwice | lib/bracha/node.cc:204-214 | Two messages of a life are signed with the same private key if and only if the bits drawn for their key numbers were the same; the numbers are different |
| NodeRuns.LivesAreChains | lib/bracha/node.cc:172-214 | The outbox of every life of a node is such a chain: each message is signed with its numbered key, in increasing order |
| NodeRuns.LivesAreSignings | lib/bracha/node.cc:136-214 | What a node has sent at any moment of its life is what some list of signings sends |
| KeyChain.AcceptedExactly | lib/bracha/node.cc:216-236 | A genuine message is accepted if and only if it is the first of its sender or the key held agrees with its own where its digest looks |
| KeyChain.OnlyGapsAreRejected | lib/bracha/node.cc:216-236 | A genuine message fails its check only if its sender's message processed just before is not its immediate predecessor |
| KeyChain.ReceptionResynchronises | lib/bracha/node.cc:204-236 | The same from end to end, for any run of signings and any reception with gaps, through the encoding: a message fails only after a gap in the reception, or after a failed signing |
| KeyChain.WithoutFailuresOnlyGapsReject | lib/bracha/node.cc:204-236 | If no signing failed, only a gap in the reception makes a message fail |
| KeyChain.RejectionsAtMostGaps | lib/bracha/node.cc:216-236 | A sender's rejected messages never outnumber the gaps in its reception, however senders interleave |
| KeyChain.LosslessIsAccepted | lib/bracha/node.cc:216-236 | If no message of some senders is lost, none of theirs is ever rejected, whatever others send |
| KeyChain.LosslessBatch | lib/bracha/node.cc:37-56 | So in every batch of such a reception the messages of these senders pass their check |
| KeyChain.LosslessBatchIsJudgedById | lib/bracha/node.cc:37-68 | And so, without losses from correct validators, the assumption of the network refinement holds of every batch whose contents are judged by ID |
| KeyChain.VerifiesUnder | lib/signature/hash.cc:120-142 | A signature verifies under exactly those keys that agree with the right one where the message looks |
| KeyChain.KeyHeld | lib/bracha/node.cc:223-231 | A receiver holds the key announced by the last message of each validator, and no other |
| Comms.Channel | lib/comms/client.cc:79-128 | However sending, carrying and collecting interleave, what was collected, what waits at the receiver and what waits at the sender make up what was sent, in order, each message as often as the receiver is listed; what arrives has the kind, round, sender, header, transactions, signer, signature and next key of what was sent |
| Comms.ValidatorClient.constructor | lib/comms/client.cc:138-148 | One empty queue for each address among the first, as many as the number of servers modulo 256 |
| Comms.ListedOnce | lib/comms/client.cc:82-87 | With distinct addresses a message reaches each server once |
| Comms.ValidatorClient.Broadcast | lib/comms/client.cc:79-94 | The message is appended to every server's queue, once for each time it is listed |
| Comms.ValidatorClient.SendToLeader | lib/comms/client.cc:96-104 | The message is appended to the leader's queue only |
| Comms.ValidatorClient.TakeNext | lib/comms/client.cc:112-123 | A sender thread takes the oldest message of its own queue only |
| Comms.ChatService.GetMessages | lib/comms/server.cc:28-41 | Everything queued is appended in order, the queue is left empty, and the result says whether there was anything |
| Comms.ChatService.NewConsensusMessages | lib/comms/server.cc:43-46 | True exactly when something is queued |
| Comms.CallDataTalk.Proceed | lib/comms/server.cc:86-120 | A handler queues its message exactly once, and hands over to a new waiting handler before it finishes |
| Comms.WireIsFromWire | include/blockchain/message.h:33-46 | What arrives is finalized, announces a complete key and carries no collected signatures |
| Lamport.BitsetToString | lib/signature/hash.cc:5-15 | Packs bits into bytes, least significant first |
| Lamport.StringToBitset | lib/signature/hash.cc:17-27 | Unpacks bytes into bits, with zeros past the end |
| Lamport.BitsOfTextOf | lib/signature/hash.cc:5-27 | Bitset to string and back is the identity |
| Lamport.TextOfBitsOf | lib/signature/hash.cc:5-27 | String to bitset and back is the string, zero-extended to 32 bytes |
| Lamport.Signature.KeyGen | lib/signature/hash.cc:79-94 | The new pair is made of the drawn bits and forgets the old one |
| Lamport.GeneratedMatches | lib/signature/hash.cc:79-94 | A generated public key holds the hashes of 256 pairs of 32-byte secrets |
| Lamport.Sign | lib/signature/hash.cc:96-118 | Reveals one secret per bit of the cropped message; nothing for a malformed key |
| Lamport.Verify | lib/signature/hash.cc:120-142 | -1 for a malformed key or signature, else 1 exactly when every revealed secret hashes to the half its bit selects |
| Lamport.VerifiesExactly | lib/signature/hash.cc:96-142 | A signature on one message verifies for another exactly when they differ only where the halves of the public key agree |
| Lamport.LamportExactness | lib/signature/hash.cc:96-142 | If the halves differ everywhere: exactly when the first 32 bytes of both messages, zero-extended, are equal |
| Lamport.OwnSignatureVerifies | lib/signature/hash.cc:96-142 | A message's own signature always verifies |
| Lamport.PackedByMask | lib/signature/hash.cc:5-15 | Bit 8i + j of a bitset is bit j of byte i, by its mask |
| Lamport.UnpackedByMask | lib/signature/hash.cc:17-27 | Unpacking reads the same bits |
| Lamport.SignedByMask | lib/signature/hash.cc:96-118 | Place k of a signature is the second secret if the message has bit k, the first otherwise |
| Lamport.VerdictByMask | lib/signature/hash.cc:120-142 | Verification succeeds if and only if each revealed secret hashes to the half that the message's bit selects |
| Lamport.VerdictCases | lib/signature/hash.cc:120-142 | -1 exactly for a key or signature of the wrong size; otherwise 1 or 0 |
| Lamport.FirstBytesDecide | lib/signature/hash.cc:96-142 | If the halves differ everywhere, a signature is good for another message if and only if bytes 0 to 31 agree, missing ones counted as 0 |
| Lamport.SecretsAreDraws | lib/signature/hash.cc:79-94 | Every generated secret reads back as the bits drawn for its place |
| Lamport.DifferentDrawsDiffer | lib/signature/hash.cc:79-94 | Different draws make different private keys |
| Sha256.F1Is | lib/signature/sha256.cc:72-76 | The first helper is the sum of two functions of section 4.1.2 of FIPS 180-4 |
| Sha256.F2Is | lib/signature/sha256.cc:78-82 | So is the second, whose majority is written differently |
| Sha256.StatementsAreStep | lib/signature/sha256.cc:112-115 | Four statements of the unrolled loop are one step of section 6.2.2, up to renaming registers |
| Sha256.SwapLoads | lib/signature/sha256.cc:57-69 | A little-endian load followed by the byte swap reads a big-endian word |
| Sha256.EightRounds | lib/signature/sha256.cc:111-143 | Eight unrolled rounds with rotated register names are eight steps |
| Sha256.EightAreSteps | lib/signature/sha256.cc:111-424 | A group with its row of constants advances the 64-step loop by eight |
| Sha256.ExtendSchedule | lib/signature/sha256.cc:179-184 | Extending the schedule eight words at a time yields the schedule of section 6.2.2 |
| Sha256.CompressBlock | lib/signature/sha256.cc:86-434 | For every chaining value and block, the unrolled function is the standard's |
| Fips180.ZeroBitsIsLeast | lib/signature/sha256.cc:481-494 | The number of padding zeros is the least one that section 5.1.1 allows |
| Fips180.LengthFieldIsExact | lib/signature/sha256.cc:511-528 | Below 2^61 bytes the 64-bit length field holds the exact length in bits |
| Hasher.SHA256.Reset | lib/signature/sha256.cc:22-50 | Back to the empty message |
| Hasher.SHA256.Add | lib/signature/sha256.cc:437-471 | Pieces of any size extend the message hashed so far; the buffer is never left full |
| Hasher.SHA256.Pad | lib/signature/sha256.cc:474-528 | The tail in the buffer, with the one or two blocks written, is the tail with the padding of section 5.1.1; no index leaves the buffers |
| Hasher.SHA256.ProcessBuffer | lib/signature/sha256.cc:474-535 | The blocks processed, after the full ones before, make up exactly the padded message; only bytes past the buffered ones are overwritten |
| Hasher.SHA256.GetHashBytes | lib/signature/sha256.cc:556-575 | The standard's digest of everything added, and the hash words are as before |
| Hasher.SHA256.GetHash | lib/signature/sha256.cc:538-553 | The same as 64 hexadecimal characters: each pair of characters denotes its byte of the digest |
| Hasher.SHA256.Call | lib/signature/sha256.cc:578-588 | Hashes one text, whatever was added before; the text denotes the digest |
| Hasher.Hash | lib/signature/hash.cc:46-51 | The program's hash denotes the SHA-256 digest in hexadecimal |
| Hasher.Session | lib/signature/sha256.cc:437-575 | Streaming equals one-shot, for any pieces and any questions in between |
| Hasher.HexIsInjective | lib/signature/sha256.cc:538-553 | Different digests print differently |
| Hasher.HexDenotes | lib/signature/sha256.cc:544-552 | The text is made of the sixteen hexadecimal characters, and its characters 2i and 2i + 1 denote byte i |
| Fips180.RegsBytesReadBack | lib/signature/sha256.cc:556-575 | Bytes 4i to 4i + 3 of the digest are word i of the hash value |
| Fips180.WordBytesRoundTrip | lib/signature/sha256.cc:556-575 | Writing a word and reading it in big-endian order is the identity |
| Fips180.BigEndianWordBytes | lib/signature/sha256.cc:57-69 | A word read from four bytes has the first of them as its most significant byte |
| Hasher.PaddedTail | lib/signature/sha256.cc:474-535 | The padded tail is one block, or two when fewer than nine bytes are free |
| Hasher.LengthField | lib/signature/sha256.cc:511-528 | The length field is right even though the byte counter wraps |
| Merkle.MerkleRoot | lib/blockchain/header.cc:37-56 | The loop over levels, with odd duplication, ends with the root |
| Merkle.BottomUpIsTopDown | lib/blockchain/header.cc:37-56 | For every non-empty list the loop computes the tree that splits at the largest power of two and lifts a short right subtree |
| Merkle.TopDownOfNextLevel | lib/blockchain/header.cc:41-55 | Hashing one level does not change the tree seen from the top |
| Merkle.RootBinds | lib/blockchain/header.cc:37-56 | Equally long digest lists with one root are equal, or two of the very texts hashed collide |
| Merkle.DistinctRootBinds | lib/blockchain/header.cc:37-56 | Lists of distinct digests of any lengths with one root are equal, or two of the very texts hashed collide, or a leaf of one tree is a node inside the other |
| Merkle.RepeatedLastDigest | lib/blockchain/header.cc:42-44 | Lists of different lengths can share a root: an odd list and the same with its last digest repeated |
| Blocks.CalculateMerkleRoot | lib/blockchain/header.cc:23-57 | The root over the transactions' digests; the empty text without transactions |
| Blocks.GetTxDigest | lib/blockchain/transaction.cc:124-135 | The hash of a text that holds the number, the inputs and the outputs in decimal (what the text holds: `Texts.TextReadsBack`) |
| Blocks.DecimalRoundTrip | lib/blockchain/transaction.cc:125-133 | The decimal text of a number denotes that number and has no leading zero |
| Texts.TextReadsBack | lib/blockchain/transaction.cc:124-135 | The text of a transaction is as long as all fields have digits, and each field, in the order number, inputs, outputs, reads back at the offset given by the digits before it |
| Texts.LayoutBindsText | lib/blockchain/transaction.cc:124-135 | Two transactions with as many inputs and outputs, digit counts that agree field by field, and one text are equal in number, inputs and outputs |
| Texts.LayoutBindsDigest | lib/blockchain/transaction.cc:124-135 | So two of one layout and one digest are equal in these, or their two texts collide |
| Texts.HeaderTextReadsBack | lib/blockchain/header.cc:59-61 | The header ID is the hash of the predecessor's digest followed by the root |
| Texts.SmallRoots | lib/blockchain/header.cc:23-57 | The root of none, one, two and three transactions, written out |
| Blocks.HeaderIdBinds | lib/blockchain/header.cc:59-61 | Equal header IDs over equally many transactions mean the same predecessor and transaction digests, or two of the very texts hashed for the IDs collide |
| Contents.SoundContentsAgree | lib/blockchain/header.cc:23-61 | Two sound blocks with one ID have the same predecessor and the same transaction digests, however many, or two of the very texts hashed collide |
| Contents.RepetitionHidesLength | lib/blockchain/header.cc:42-44 | Every odd list of more than one transaction has the root of the list with its last transaction repeated |
| Contents.LongTextsAreNeeded | lib/blockchain/header.cc:37-56 | Under some hash one transaction with a long text and two others have one root, with distinct digests and no collision among the texts hashed |
| Sha256Instance.BlockIdsBind | lib/blockchain/header.cc:23-61 | With the program's own hash: or two of the texts hashed for the IDs collide under SHA-256 itself |
| Blocks.Block.AddTransaction | lib/blockchain/block.cc:95-101 | Appends to a mutable block; an exception leaves a finalized one unchanged |
| Blocks.Block.Finalize | lib/blockchain/block.cc:104-110 | Freezes the transactions with their root in the header, once |
| Blocks.Block.Verify | lib/blockchain/block.cc:112-134 | True exactly for blocks of spendable transactions with no input twice |
| Blocks.Block.VerifyConsistent | lib/blockchain/block.cc:136-147 | True exactly when no transaction of the block shares an input with the new one |
| Blocks.Block.Sign | lib/blockchain/block.cc:229-241 | The block signed with this key; on an exception, which fields have changed |
| Blocks.Block.GetDigest | lib/blockchain/block.cc:303-313 | A digest of header, signer and next key (what it binds: `Texts.DigestBinds`); exactly when each of the two exceptions is thrown |
| Blocks.Block.VerifySignature | lib/blockchain/block.cc:315-318 | True exactly when the signature verifies for the block's digest |
| Blocks.Block.RemoveSignatures | lib/blockchain/block.cc:320-325 | Clears all signing data and nothing else |
| Blocks.SignedBlockVerifies | lib/bracha/node.cc:212-213 | A signed block verifies under the public half of its key |
| Blocks.BlockSignatureExactness | lib/blockchain/block.cc:229-241 | A signature made for one block is good for another exactly when their digests agree in the first 32 characters |
| Blocks.SignedBlockIs | lib/blockchain/block.cc:229-241 | Signing changes the signer, the announced key and the signature, and nothing else; the signature is for the block as it is then |
| Texts.SignedTextReadsBack | lib/blockchain/block.cc:303-313 | The text that is signed holds 64 characters of header ID, then the signer's number, then the announced key if there is one |
| Texts.DigestBinds | lib/blockchain/block.cc:303-313 | If key texts start with a non-digit, two blocks with one digest have the same header ID, signer and announced key text, or their two signed texts collide |
| Texts.GenuineSignatureBinds | lib/blockchain/block.cc:229-241 | A genuine signature that is good for another block means the same header ID, signer and key text, or hashes of the two signed texts that agree in the first 32 characters |
| Ledger.InputOrder | include/blockchain/input.h:29-45 | The order on inputs is strict and identifies exactly equal inputs, so a set of them merges nothing else |
| Ledger.AddToWraps | lib/blockchain/transaction.cc:14-28 | Adding 64-bit values to a 32-bit total keeps the sum modulo 2^32 |
| Ledger.TotalOutput | lib/blockchain/transaction.cc:14-17 | The 32-bit total is the true total modulo 2^32 |
| Ledger.TotalInput | lib/blockchain/transaction.cc:20-36 | Fails exactly when some input names no entry; otherwise the 32-bit total of the first entries named |
| Ledger.CheckSpendingConditions | lib/blockchain/transaction.cc:5-59 | True exactly for a transaction without inputs and outputs, or one with inputs that each name an entry, totals equal modulo 2^32, and known receivers only |
| Ledger.SpentIsTheFirstNamed | lib/blockchain/transaction.cc:20-36 | What an input spends is worth the first entry with its transaction number and output index |
| Ledger.EveryOutputCounts | lib/blockchain/transaction.cc:14-17 | The total of outputs counts each of them once, with its value, wherever it stands |
| Conservation.EveryEntryCounts | include/blockchain/utxo.h:94-96 | The worth of a list counts each entry once, with its value, wherever it stands |
| Ledger.AcceptedPaysKnownWallets | lib/blockchain/transaction.cc:43-58 | Every output of every transaction of an accepted block goes to a known wallet |
| Ledger.AcceptedSpendsEntries | lib/blockchain/transaction.cc:20-36 | Every input of an accepted block names an entry by its own transaction number and output index |
| Ledger.VerifyTransactions | lib/blockchain/block.cc:112-134 | The set and the counter detect exactly the blocks that use an input twice |
| Ledger.VerifyTxConsist | lib/blockchain/block.cc:136-147 | True exactly when no input is shared |
| Ledger.DistinctBySize | lib/blockchain/block.cc:128-131 | A sequence has no repetition exactly when its set is as large |
| Ledger.UTXOlist.Add | include/blockchain/utxo.h:94-96 | Appends one entry |
| Ledger.UTXOlist.Clear | include/blockchain/utxo.h:101-103 | Leaves the list empty |
| Ledger.UTXOlist.Index | include/blockchain/utxo.h:117-125 | The first entry an input spends, which has the input's transaction number and output index; -1 exactly when there is none |
| Ledger.UTXOlist.Erase | include/blockchain/utxo.h:127-129 | Removes one entry and keeps the order of the others |
| Conservation.BlockConservation | lib/blockchain/block.cc:112-134 | With all totals below 2^32, an accepted block's outputs are worth exactly the pairwise distinct entries it spends, at most the whole list |
| Conservation.AcceptedBlockBalance | lib/blockchain/block.cc:112-134 | Any accepted block spends pairwise distinct entries, and its outputs differ from them by a multiple of 2^32 |
| Conservation.ConservesExactly | lib/blockchain/transaction.cc:14-42 | An accepted block conserves value if and only if the overflows of its totals cancel |
| Conservation.HighWordsDecide | lib/blockchain/transaction.cc:14-42 | Value is conserved transaction by transaction through an accepted block if and only if the two totals of each agree above their low 32 bits |
| Conservation.ValueFromOverflow | lib/blockchain/transaction.cc:14-42 | An accepted block whose output is worth 2^32 more than the whole list |
| Conservation.DistinctInputsDistinctPositions | lib/blockchain/transaction.cc:23-31 | Different inputs never find the same entry |
| Cryptowallet.Validator.CreateBlk | lib/cryptowallet/validator.cc:84-128 | The pool is emptied into a finalized block, newest first; the empty pool and the finalized block are handled as the program does |
| Cryptowallet.Validator.ProposeNext | lib/cryptowallet/validator.cc:246-260 | On a non-empty pool a fresh block takes the pool and goes out signed as a SEND: finalized under its own root, acceptable to the node if the pool is safe and the lists are joined, every omitted transaction for a reason; on an empty pool nothing happens |
| Cryptowallet.Validator.InitializeCoins | lib/cryptowallet/validator.cc:12-31 | Every wallet gets its coin, and the node gets all of them in one list |
| BlockBuilding.BuiltBlockPasses | lib/cryptowallet/validator.cc:84-128 | If the node's list joins the wallets' lists, the built block passes verification if and only if each included transaction has pairwise distinct inputs |
| BlockBuilding.SafePoolExactly | lib/cryptowallet/validator.cc:92-122 | A pool has no spendable transaction with a repeated input, if and only if every block built from its transactions, in any order and selection, passes verification |
| BlockBuilding.SafePoolPasses | lib/cryptowallet/validator.cc:84-128 | So the block built from such a pool passes |
| BlockBuilding.UnsafeNewestFails | lib/cryptowallet/validator.cc:92-122 | If the newest pooled transaction can be spent and repeats an input, the built block fails verification |
| BlockBuilding.SpendsTwice | lib/cryptowallet/validator.cc:92-122 | A pool whose one transaction spends the same entry twice: it is built into the block, and the block fails |
| BlockBuilding.LeftOutForAReason | lib/cryptowallet/validator.cc:92-122 | Every omitted transaction fails its spending conditions or shares an input with one in the block |
| BlockBuilding.BuildIsGreedy | lib/cryptowallet/validator.cc:92-122 | Exactly which pooled transactions are in the block and in what order: from the newest on, each one that its sender can spend and that shares no input with a newer one picked or with what the block had |
| BlockBuilding.BuildTakesFromPool | lib/cryptowallet/validator.cc:92-122 | Everything in the block comes from the pool, each as often as it was there at most |
| BlockBuilding.BuildNeverShares | lib/blockchain/block.cc:136-147 | No two transactions of the block share an input |
| BlockBuilding.StillJoined | lib/cryptowallet/validator.cc:97-98 | Looking up unknown senders adds no outputs: the lists are as joined after building as before |
| BlockBuilding.FirstCoinsJoin | lib/cryptowallet/validator.cc:16-24 | After the first coins, the node's list joins the wallets' lists with unique outpoints |
| BlockBuilding.WalletGetsItsCoins | lib/cryptowallet/validator.cc:16-24 | Every wallet keeps what it had and gets one coin of the given value, for itself, each time it is listed |
| BlockBuilding.FirstCoinsAreWorth | lib/cryptowallet/validator.cc:16-24 | The first coins are worth their value times the number of wallets |
| BlockBuilding.DistinctInputs | lib/blockchain/block.cc:112-147 | The whole-block check is the check within each transaction plus the pairwise check made while building |

## Left out

- gRPC, completion queues, protobuf encoding, threads, mutexes and sleeps: a broadcast, a transfer, a drain and a round are atomic steps, and calls succeed. The network model has one queue for each pair of validators, so it takes addresses to be distinct.
- The second sender thread of an address listed twice, whose queue nobody can reach.
- `Comms.ValidatorClient.Broadcast`: requires a queue for every server; without one, from 256 servers on, the program has no defined behaviour.
- `Validator::OnAgreeBlk`, which takes positions from a stale copy, erases by them in the live list and adds no new outputs; nothing is claimed about the ledger after a block is applied.
- Transactions and signatures as JSON, settings and database files: the text of a key is a parameter, and decoding is represented by what it guarantees of a received block.
- Injectivity of the transaction digest, which concatenates decimals without separators: it binds transactions of one layout only (`Texts.LayoutBindsDigest`).
- That a recorded validator signature verifies under the key recorded with it: the record holds the key announced by the message itself.
- SENDs of faulty validators other than the leader, and impersonation: the program does not tie a SEND to the leader, so the theorems that need it assume it.
- `FaultNode`, whose implemented behaviour is to send nothing: in the network model a faulty validator may inject anything, including nothing.
- The pick-up of delivered blocks while a node is running, in the network model. A round on an empty inbox stands there for a batch of which every message was rejected.
- `Validator::OnRecvTx`, `UpdateKeys`, `EventHandler`, wallets, demo and example programs.
- The FPGA path in `lib/interf` and `verilog_code`.
- Random number generation: the bits of each key pair are a parameter.
- `BrachaNode.Node`: it writes its broadcasts to an outbox; `Comms` carries them on for one pair of validators, and `Composition` joins node states, not objects.
- `Composition.EveryStoryIsARun`: stories in which a node judges two contents of correct validators under one block ID differently are not covered; the program does nothing to exclude them.
- `BrachaNode.Node.AcceptBlock`: the program reads the delivered hash after erasing its map entry; the model uses a copy made before.
- `BrachaNode.Node.BroadcastRound`: exists for the orders the loops happened to take; the lemmas about rounds hold for all orders.
- `Hasher.SHA256`: the eight hash words are one record, and the two raw-byte `operator()` overloads are one method.
- `Header` and the blocks kept in a node's maps are values, because the program copies them; only a block being built, verified or signed is an object.
- `Ledger.VerifyTransactions`: the counter of inputs is unbounded, where the program's is a 32-bit `int`; they differ from 2^31 inputs in one block on.
- Message counters are unbounded, where the program's are 64-bit.
- `Validator` identifies the leader by a flag of its node; the class `LeaderNode` is part of `Node`.
- Block IDs other than the header ID, comparison operators on blocks and transactions, and printing.
