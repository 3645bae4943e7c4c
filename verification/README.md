# A verified model of the peer-to-peer node

This project models the parts of a peer-to-peer node that are hardest to get right and proves what
they promise, in Dafny 4.11. `dafny verify dfyconfig.toml` checks everything.

Each part has three layers: the handlers as functions on values, classes whose methods do the same
work in place and are proved equal to those functions, and a machine whose runs are arbitrary
sequences of handler calls over a network that delays, reorders, loses or repeats messages. Main
results speak about all runs of these machines.

- **Chord ring** (`Circle`, `ChordNode`, `ChordGraph`, `ChordNetwork`, `ChordConvergence`,
  `ChordFairness`, `ChordLookup`, `ChordFingers`, `ChordKv`, `ChordRest`, `ChordRequests`, `ChordGaps`). From
  two nodes initialised with each other, under any interleaving of joins, Stabilize rounds, notifies, transfers, lookups and
  timeouts: whoever can be reached clockwise without overshooting stays reachable, pointer changes are
  bounded, a state at rest is exactly the ideal ring, and every run in which all nodes keep completing
  Stabilize rounds gets there. At rest all lookups name the owner if and only if every node has its
  successor among its fingers; FixFinger calls in any order bring that about and then make every finger
  correct, after which a lookup takes at most ChordBits relays. Carried out message by message, a lookup
  leads to exactly those replies, and whoever joins gets the member that follows it most closely as its
  successor. Put and Get then answer as one map in
  every run if and only if no key transfer in flight brings its receiver a key that it owns and every
  insert in flight goes to its key's owner.
- **Paxos and its clock** (`Tlc`, `TlcRuns`, `PaxosPeer`, `PaxosNetwork`, `PaxosProposals`,
  `PaxosLearning`, `PaxosAgreement`, `PaxosGaps`). Local safety holds in every run. What a proposer
  proposes, when a peer decides and where its clock stands are told exactly from the events of the run. Agreement on values, blocks and chains holds in every run in which each
  propose rests on promises for its own ID and each decision counts accepts of one ID from distinct
  acceptors (a good run). The code checks neither, and two concrete runs of three peers, with every
  message handed over in the order of its origin, show that each of the two demands is needed even if
  the other is met.
- **Gossip and data sharing** (`Gossip`, `Messager`, `Search`, `Chunks`). Logs are prefixes of their
  origin's log and every rumor is processed once and in order; anti-entropy delivers ten missing
  rumors a round until none is missing; a search stays within its budget in the whole network;
  upload followed by a local download gives the data back, exactly when it does.
- **Ledger** (`Ledger`, `ContractRuns`, `Mining`, `Minting`, `LedgerChain`, `Accounts`, `WorldState`,
  `BlockChain`). The
  exact conditions, told from the state before, under which an execution conserves the sum of balances
  modulo 2^64 and exactly, a contract call goes through, and a rejected one leaves no trace; the exact
  nonce after any transactions and when an old one verifies again; that an account whose owner signs
  nothing can only be paid; that a contract runs the code it was created with; replay of a mined block
  and of a whole chain; chain traversal.

## Where the code falls short of its promises

- A remote lookup that reaches the key's owner sends a second reply, because the first case of the
  callback does not return (chord/callback.go:22-34); the second reply is wrong if the key is the
  owner's own identifier. Only Join can send such a request. `ChordLookup.RepliesExactly` gives the
  exact count, on every ideal ring and whatever the fingers.
- A ring at rest is not enough for lookups: fingers start empty, and with three or more nodes a node
  without its successor among its fingers answers the key right after its successor wrongly
  (chord/chord.go:130-146). `ChordGaps.RestAloneAnswersWrongly` is a state reached from the founding pair
  by one join and stabilization; `ChordRest.RestLooksUpRightIff` is the exact condition.
- A key transfer is written into the store whatever is there (chord/callback.go:150-156). The pointers can
  be at rest with a transfer still in flight: until it arrives its keys read as absent, and when it
  arrives it overwrites newer Puts. `ChordGaps.LateTransferOverwrites` is a reachable state;
  `ChordRest.RestServesPutAndGetIff` is the exact condition, and `ChordRest.RestSendsNoKeys` says that at rest
  no new transfer is sent.
- The proposer does not compare the ID of a promise with its own (peer/impl/consensus.go:488-500), and
  the learner groups accepts by value across IDs (peer/impl/consensus.go:325-331). Either breaks
  agreement: `PaxosGaps.StalePromisesBreakAgreement`, `PaxosGaps.MixedAcceptsBreakAgreement`.
- A contract call that fails part-way is rejected but keeps its first effects
  (blockchain/miner/execute.go:171-236), so a block mined after it is not reproduced by replay and is
  refused by other miners: `Mining.PartialFailureBreaksReplay`. `ContractRuns.RejectedIsUnchangedIff` says
  exactly which calls leave a trace, `Mining.FirstFailureDecides` what that means for a block.
- Creating a contract on an existing address destroys that account's balance
  (blockchain/miner/execute.go:249-268): `Ledger.ExecuteConserves` has the exact condition. It also
  resets that account's nonce, so that an old transaction of it takes effect again:
  `LedgerChain.ReplacedSenderRepeats`.
- A negative transfer value passes verification (blockchain/miner/verify.go:56-60) and is taken from the
  receiver, who has signed nothing: `Ledger.NegativeTransferSteals`; verification covers the debit if and
  only if the value is not negative (`Ledger.VerifiedIsCoveredIff`).
- Nothing checks a contract's payments: one beyond the payer's balance wraps around, and a verified call
  makes 2^64 coins out of none (blockchain/miner/execute.go:171-180): `Minting.ContractMints`.
  `Minting.ExactIff` is the exact condition.
- A contract call whose assumptions fail is accepted without raising a nonce, and so verifies again:
  `Ledger.VerifiesAgainIff`.
- The block daemon replays a block without verifying its transactions (blockchain/miner/daemon.go:155-161),
  so a block that holds one payment twice is appended and pays twice: `LedgerChain.BlockDaemonPaysTwice`.
  Without contract calls replay lets none take effect twice if and only if no effective one occurs twice
  (`LedgerChain.ReplayedOnceIff`); the blocks a miner could build are those in which each transaction
  verifies and is accepted in its turn (`LedgerChain.MinableIff`).
- An empty upload cannot be downloaded, and neither can a blob one of whose chunks is the concatenation
  of its own chunk hashes: `Chunks.RoundTrip`.
- Append panics on a block that names the end as its parent but has an old number
  (blockchain/block/blockchain.go:207-210); TryAppend refuses the same block.

## Modelling decisions

- A handler is one atomic step; locks and channel capacities are gone. Where an operation waits for a
  reply, it is split into the request and its continuation. Timeouts are steps that may happen at any
  time.
- Chord nodes, Paxos peers and gossip nodes are named by their identifiers, which are distinct; a Chord
  identifier stands for the address that hashes to it. Every Chord node joins once, through a member,
  and nobody leaves. A node has at most one Stabilize request outstanding.
- Paxos values are identified by their unique ID. Messages carry their sender, and a propose carries
  the promises it rests on; no handler reads them. A promise is handed over at most once, which gossip
  guarantees; every other message any number of times. The block a learner builds reads its chain in
  the same step.
- Every invariant used as a hypothesis is established and kept by every step: by the machine's initial
  states for Chord (`ChordNetwork.FoundedInv`) and Paxos (`PaxosNetwork.InitialInv`), and for Put and Get
  by FixFinger calls on a reachable ring at rest, exactly if its messages in flight are in place
  (`ChordRest.RestServesPutAndGetIff`).
- Hashes are parameters assumed free of collisions on the contents at hand; a block's predecessor
  stands for its hash, and comparing state hashes compares states.
- Random choices (the order of map iteration, the lucky neighbour, the shuffle) are arbitrary choices.
- Balances and nonces are 64-bit with explicit wrap-around; sequence numbers, steps and proposal IDs
  are unbounded. What contract code means is a parameter: parties, a test and a list of actions, with
  transfer amounts already converted to integers. An account's storage is a map inside the account
  object.
- Amounts of goods are exact real numbers. The program keeps them as float64 and adds and subtracts with
  rounding (blockchain/miner/execute.go:196-229), so that the laws about goods hold of it where these
  operations are exact, for example for integers of magnitude at most 2^53.

## Model

| member | source | states |
|---|---|---|
| Circle.BetweenIsDistance | chord/util.go:23-35 | the wrap-around interval tests are comparisons of clockwise distances, both ways, also when the interval wraps |
| Circle.DistAdds | chord/util.go:27-35 | distances add up along the circle unless the second leg overshoots |
| Circle.DistRoundTrip | chord/util.go:27-35 | going from one identifier to another and back is one full turn |
| ChordNode.ScanFindsHighest | chord/chord.go:91-105 | the scan returns the finger of highest index strictly between the node and the key, and the node itself only if no finger is |
| ChordNode.RelayIsFinger | chord/chord.go:91-146 | a lookup is only ever relayed to a finger |
| ChordNode.HandOverIsExact | chord/callback.go:129-147 | replacing a known predecessor p by n moves exactly the keys in (p, n] into the message, splits the store without loss, and keeps the node's keys inside its interval |
| ChordNode.FingerTable.Insert | chord/fingerTable.go:23-32 | writes one finger in range, refuses any other index |
| ChordNode.FingerTable.Load | chord/fingerTable.go:34-43 | reads one finger in range, refuses any other index |
| ChordNode.ChordStorage.FindBetweenRightInclude | chord/storage.go:24-34 | the loop collects exactly the keys in the interval |
| ChordNode.ChordStorage.DeleteBetweenRightInclude | chord/storage.go:36-43 | the loop deletes exactly the keys in the interval |
| ChordNode.Chord.ClosestPreceding | chord/chord.go:91-105 | the loop over the finger table returns the highest finger strictly between, and says when there is none |
| ChordNode.Chord.FindSuccessor | chord/chord.go:108-146 | the cases in their order decide as the routing function does |
| ChordNode.Chord.FindSuccessorCallback | chord/callback.go:10-95 | what a remote lookup makes the node send, including the case that does not return |
| ChordNode.Chord.FinishJoin | chord/chord.go:196-205 | a join reply sets the successor unless it names the node itself |
| ChordNode.Chord.Init | chord/chord.go:207-214 | fills successor and predecessor only where they are empty |
| ChordNode.InitOnlyFills | chord/chord.go:207-214 | a second Init changes nothing, and no pointer that a node has is overwritten |
| ChordNode.Chord.FinishStabilize | chord/chord.go:227-253 | adopts the successor's predecessor if it lies strictly between, and notifies the successor it then has |
| ChordNode.Chord.TransferKey | chord/chord.go:378-391 | the keys of the interval leave the store and are the message |
| ChordNode.Chord.NotifyCallback | chord/callback.go:129-147 | replaces the predecessor if it is unknown or further away, and hands keys over only if it was known |
| ChordNode.Chord.TransferKeyCallback | chord/callback.go:150-156 | the loop adds every transferred key to the store |
| ChordNode.Chord.FinishFixFinger | chord/chord.go:259-272 | writes the looked-up node at the fix pointer and advances it modulo the table size |
| ChordGraph.ReachesTransitive | chord/chord.go:215-257 | clockwise reachability without overshooting composes where distances allow |
| ChordGraph.JoinKeepsReaches | chord/chord.go:196-205 | a joining node's new link keeps every such path |
| ChordGraph.AdoptKeepsReaches | chord/chord.go:232-235 | shortening a successor link to a node that reaches the old successor keeps every such path |
| ChordGraph.SettledIsOrdered | chord/chord.go:215-257 | if every successor points back and the founders reach each other, the links are one ordered ring with mutual predecessors |
| ChordNetwork.StepKeepsPaths | chord/chord.go:196-257 | every step keeps, for all x and y, that following successors from x reaches y without overshooting, and a new link respects the relation |
| ChordNetwork.StepKeepsInv | chord/chord.go:196-272 | every handler step keeps the invariant: recorded predecessors, replies and notifies in flight respect reachability |
| ChordNetwork.FoundedInv | chord/chord.go:207-214 | the mutual Init of two nodes establishes the invariant |
| ChordNetwork.RunKeepsInv | chord/callback.go:10-162 | the invariant holds throughout every run |
| ChordNetwork.ReachabilityIsForever | chord/chord.go:215-257 | in every run, reachability once gained is kept for ever |
| ChordNetwork.NotifyMovesKeys | chord/callback.go:129-147 | a key a notify takes out of a store is in its transfer message |
| ChordNetwork.StepKeepsKey | chord/callback.go:129-162 | no step makes a key vanish from stores plus messages in flight |
| ChordNetwork.KeysAreForever | chord/callback.go:129-162 | over every run, a key once held is held ever after |
| ChordConvergence.RestIffIdeal | chord/chord.go:215-257 | under the invariant no Stabilize round would change a pointer if and only if the pointers are the ideal ring over all joined nodes |
| ChordConvergence.ReachableRestIffIdeal | chord/chord.go:215-257 | the same for every state some run from the founding pair reaches |
| ChordConvergence.IdealIsStable | chord/callback.go:129-147 | on the ideal ring nothing but the completion of a join changes a pointer |
| ChordConvergence.StepPays | chord/chord.go:215-257 | each pointer change lowers a sum of clockwise distances by at least one; only a join raises it |
| ChordConvergence.ChangesAreBounded | chord/chord.go:215-257 | in every run the number of pointer changes is paid for by the potential and the joins |
| ChordConvergence.FoundedChangesAreBounded | chord/chord.go:196-257 | from the founding pair at most 2 * size changes for the pair and for each join |
| ChordConvergence.RoundMakesProgress | chord/chord.go:215-257 | a Stabilize round that is not idle can be run to its end and lowers the potential |
| ChordConvergence.StabilizationConverges | chord/daemon.go:13-22 | from every reachable state stabilization steps alone can reach the ideal ring |
| ChordFairness.QuietFairIsIdeal | chord/chord.go:215-257 | if every joined node completes a Stabilize round and no pointer changes meanwhile, whatever else happens, the ring is ideal |
| ChordFairness.IdealLasts | chord/callback.go:129-147 | over every run in which no join is begun or completed the ring stays ideal |
| ChordFairness.FairRunsConverge | chord/daemon.go:13-22 | every run without joins in which all nodes complete more rounds than the potential has units ends in the ideal ring, under any interleaving with lookups, losses, timeouts and stale messages |
| ChordFairness.FoundedFairRunsConverge | chord/daemon.go:13-22 | after any run from the founding pair, more fair rounds than 2 * size for the pair and for each join end at rest in the ideal ring |
| ChordFairness.FairRunsExist | chord/daemon.go:13-22 | from every state of every run there are fair runs of any length |
| ChordLookup.OwnsIffOwner | chord/chord.go:115-119 | on an ideal ring the ownership test holds at exactly the node that follows the key most closely |
| ChordLookup.OneReply | chord/callback.go:19-93 | if every node has its successor among its fingers, a request at a node that is not the owner yields exactly one reply, naming the owner, whatever the other fingers are |
| ChordLookup.RepliesExactly | chord/callback.go:19-93 | exactly which replies a request yields at any node of an ideal ring: two at the owner and one elsewhere, whatever the fingers, the second wrong if the key is the owner's identifier; all others name the owner if every node has its successor among its fingers |
| ChordLookup.LookupIsOwner | chord/chord.go:108-146 | if every node of an ideal ring has its successor among its fingers, wherever in the table, every lookup names the owner, and a remote one gets a single reply |
| ChordLookup.RelayJumps | chord/chord.go:91-105 | with correct fingers a relay jumps at least the largest power of two that fits and not past the key's predecessor |
| ChordLookup.HopsBelow | chord/chord.go:91-146 | each relay brings the distance to the key's predecessor below the next lower power of two |
| ChordLookup.HopsAreLogarithmic | chord/chord.go:91-146 | on an ideal ring with correct fingers a lookup is relayed at most ChordBits times |
| ChordFingers.BlindNodeAnswers | chord/chord.go:91-146 | with three or more nodes, a node without its successor among its fingers answers the key right after its successor locally and wrongly |
| ChordFingers.LookupsAreRightIff | chord/chord.go:91-146 | on an ideal ring of three or more nodes, whose fingers are any members or empty, all lookups from all nodes for all keys name the owner if and only if every node has its successor among its fingers |
| ChordFingers.PairIsRight | chord/chord.go:108-146 | two nodes answer every lookup rightly whatever their fingers |
| ChordFingers.FirstFingerLookup | chord/chord.go:259-272 | the lookup of finger 0 is answered with the successor whatever the fingers are |
| ChordFingers.PassMakesRoutable | chord/chord.go:259-272 | any ideal ring, tables empty or wrong, has every successor as finger 0 after one call per node whose pointer is at 0 and ChordBits calls per other node, in any order |
| ChordFingers.PassCorrects | chord/chord.go:259-272 | once nodes have their successor first, each call makes one more finger of its node correct, up to all, whoever else calls in between |
| ChordFingers.TwoPassesCorrectAll | chord/daemon.go:24-32 | from any fingers, a pass that finds the successors and a pass of ChordBits calls per node make every finger of every node correct |
| ChordFingers.FixAllCorrects | chord/chord.go:259-272 | ChordBits consecutive calls make all fingers of a node correct, from an empty table as well, if the other nodes have their successors |
| ChordKv.StepRefines | chord/chord.go:279-342 | if all messages in flight are in order, every step of Put, Get, their messages and late key transfers is a step of one global map |
| ChordKv.RunRefines | chord/callback.go:150-178 | in every run from there the ring's stores and answers are those of one global map |
| ChordKv.LateTransferShows | chord/callback.go:150-156 | a transfer in flight of a key that its receiver owns makes some run of Put and Get answer otherwise than the map |
| ChordKv.AnswersAsMapIff | chord/callback.go:150-178 | a ring with right lookups answers as the map it stores, in every run, if and only if inserts and questions in flight go to their key's owner and no transfer brings its receiver a key it owns |
| ChordRest.RestIsIdealRing | chord/chord.go:215-257 | a reachable network at rest is an ideal ring in the sense of the lookups |
| ChordRest.RestIsReady | chord/chord.go:215-272 | its finger tables have ChordBits entries that are members or empty, and a pointer inside, so FixFinger calls can be made |
| ChordRest.RestLooksUpRightIff | chord/chord.go:108-146 | at rest with three or more nodes all lookups are right if and only if every node has its successor among its fingers |
| ChordRest.RestBecomesCorrect | chord/daemon.go:24-32 | at rest two passes of FixFinger calls in any order make every finger correct |
| ChordRest.RestServesPutAndGetIff | chord/chord.go:279-342 | at rest, after the FixFinger calls that find the successors and with everything in flight still arriving, Put and Get answer as the one map the stores represent, in every run, if and only if no transfer in flight brings its receiver a key it owns and inserts go to the owner |
| ChordRest.RestSendsNoKeys | chord/callback.go:129-147 | at rest no step but the completion of a join sends a transfer, and each delivery makes them fewer |
| ChordRequests.RequestRuns | chord/callback.go:10-95 | on every ideal ring a request handled wherever it goes leads to exactly the replies of the lookup, each sent to who asked, and changes nothing else |
| ChordRequests.JoinFindsSuccessor | chord/chord.go:196-205 | whoever joins through whichever member of a ring with right lookups: its request leads to one or two replies, all to it and all naming the member that follows it most closely, and any of them makes that member its successor |
| ChordRequests.NewcomerIsUnknown | chord/chord.go:196-205 | in every reachable network no request of, and no reply to, a node that has not begun to join is in flight |
| ChordRequests.JoinIsRight | chord/chord.go:196-205 | whatever else happens after a join has begun, as long as the members stay the same and their lookups right, every reply to the newcomer names the member that follows it most closely |
| ChordRequests.FixFingerRuns | chord/chord.go:259-272 | a FixFinger call with its request handled and its first reply used does what the call does in one piece |
| ChordRequests.PutIsPut | chord/chord.go:323-342 | a Put of the network to the node its lookup names is a Put of the ring that the map is about |
| ChordRequests.InsertIsDelivery | chord/callback.go:158-162 | the arrival of an insert is its delivery on that ring, key and value |
| ChordRequests.TransferIsDelivery | chord/callback.go:150-156 | the arrival of a transfer is its delivery on that ring, all keys and values |
| ChordGaps.RestAloneAnswersWrongly | chord/chord.go:130-146 | a reachable network at rest, without FixFinger calls yet, that answers a lookup with a node that does not own the key |
| ChordGaps.LateTransferOverwrites | chord/callback.go:150-156 | a reachable network at rest whose transfer in flight makes a key appear without a Put, and overwrites a newer Put at the owner |
| Tlc.CatchUpKeeps | peer/impl/consensus.go:131-204 | catching up applies consecutive steps once each, shrinks the pending map, and stops at a step short of the threshold |
| Tlc.ReceiveKeeps | peer/impl/consensus.go:211-255 | every message leaves one block per passed step, taken from that step's messages, and no complete step waiting |
| Tlc.ChainsArePrefixes | peer/impl/consensus.go:131-204 | with one block per step any two chains are prefixes of one another |
| Tlc.PeersAgreeOnPrefix | peer/impl/consensus.go:211-255 | for any two message sequences in any order, if they hold one block per step then one chain is a prefix of the other |
| TlcRuns.ClockIsExact | peer/impl/consensus.go:131-255 | after any messages in any order the clock is at the least step for which fewer than a threshold came, keeps the messages for it and later steps, and has applied for each earlier step the block that filled it if the step was awaited and the first one otherwise |
| TlcRuns.OrderDoesNotMatter | peer/impl/consensus.go:211-255 | equally many messages for every step lead to the same step, whatever their order |
| PaxosPeer.MultiPaxos.PrepareCallback | peer/impl/consensus.go:600-628 | promises exactly a higher ID of the current step and reports what was accepted |
| PaxosPeer.MultiPaxos.ProposeCallback | peer/impl/consensus.go:669-697 | accepts exactly the promised ID of the current step |
| PaxosPeer.MultiPaxos.PromiseCallback | peer/impl/consensus.go:711-743 | queues a promise of the current step in phase one, whatever its ID |
| PaxosPeer.MultiPaxos.Propose | peer/impl/consensus.go:367-392 | starts phase one unless a proposal is under way |
| PaxosPeer.MultiPaxos.LoopTurn | peer/impl/consensus.go:484-515 | one turn of the promise loop: a promise raises the value to propose, the timer raises the ID |
| PaxosPeer.MultiPaxos.LoopEnd | peer/impl/consensus.go:516-543 | prepares again if the timer fired, otherwise proposes the value of the highest accepted ID |
| PaxosPeer.MultiPaxos.PhaseTwoEnd | peer/impl/consensus.go:563-597 | the learner's signal ends the proposal, the timer starts it again with the next ID |
| PaxosPeer.MultiPaxos.AcceptCallback | peer/impl/consensus.go:309-364 | counts accepts per value and decides once at the threshold, with a block on top of the last one |
| PaxosPeer.MultiPaxos.AdvanceClock | peer/impl/consensus.go:403-429 | the next step starts with all Paxos state reset |
| PaxosPeer.MultiPaxos.OnTlcReached | peer/impl/consensus.go:131-204 | the recursion applies the block and catches up, and terminates |
| PaxosPeer.MultiPaxos.TlcMessage | peer/impl/consensus.go:211-255 | one iteration of the daemon |
| PaxosNetwork.DeliverPrepareKeeps | peer/impl/consensus.go:600-628 | a promise keeps the acceptor's word: it reports every earlier accept and is the only one for its ID |
| PaxosNetwork.DeliverProposeKeeps | peer/impl/consensus.go:669-697 | an accept never undercuts a promise |
| PaxosNetwork.TakeKeeps | peer/impl/consensus.go:488-500 | taking a promise keeps the highest accepted ID seen and its proposed value |
| PaxosNetwork.ProposesOnce | peer/impl/consensus.go:525-543 | in a good run no propose repeats the ID of an earlier one |
| PaxosNetwork.DecidedIsChosen | peer/impl/consensus.go:325-331 | a count of one ID from distinct acceptors decides a value a threshold accepted |
| PaxosNetwork.QuorumsMeet | peer/impl/consensus.go:484-487 | two thresholds of peers share a peer |
| PaxosNetwork.StepKeepsInv | peer/impl/consensus.go:434-789 | every event keeps the invariant of peers and messages, with the good part in good runs |
| PaxosNetwork.InitialInv | peer/impl/consensus.go:403-429 | fresh peers 1..n and an empty wire satisfy the invariant |
| PaxosNetwork.RunKeepsInv | peer/impl/consensus.go:434-815 | the invariant holds throughout every run |
| PaxosAgreement.PromisedNeverFalls | peer/impl/consensus.go:611-628 | over every run no acceptor's promised or accepted ID falls within a step |
| PaxosAgreement.LocalSafety | peer/impl/consensus.go:403-412 | in every state of every run: accepted ID at most promised ID, no proposal ID shared by two peers, one promise content per acceptor and ID |
| PaxosAgreement.PromisesOnce | peer/impl/consensus.go:600-628 | once a prepare has been answered with a promise, no later prepare for that ID in that step is answered, in whatever run |
| PaxosAgreement.TimeoutTakesNextOwnId | peer/impl/consensus.go:509-589 | a timeout takes the next larger ID that belongs to the same peer |
| PaxosAgreement.LaterProposesFollow | peer/impl/consensus.go:488-500 | once a value is chosen every propose with at least its ID carries it |
| PaxosAgreement.ChosenIsUnique | peer/impl/consensus.go:434-598 | at most one value is chosen in a step |
| PaxosAgreement.OneBlockPerStep | peer/impl/consensus.go:257-301 | at most one block is announced in a step |
| PaxosAgreement.Agreement | peer/impl/consensus.go:434-789 | in every good run all decisions of a step are one block, every chain is linked, and chains are prefixes of one another |
| PaxosAgreement.OnlyProposedValues | peer/impl/consensus.go:434-598 | in every run every decided or chained value was put forward by some proposer |
| PaxosProposals.RunFollows | peer/impl/consensus.go:434-598 | in every state of every run a round is about its peer's last StartPropose in that step, and the value to propose is that one if no promise taken in the attempt reported an accept, otherwise one reported with the highest ID, whatever timeouts came between |
| PaxosProposals.ProposesFollow | peer/impl/consensus.go:488-543 | every propose on the wire was sent so |
| PaxosProposals.PhasesAreRight | peer/impl/consensus.go:367-598 | in every run the phase says where the proposal stands, and the learner signals only decisions |
| PaxosProposals.ChannelKeeps | peer/impl/consensus.go:711-743 | in every run the promises of a step handed to a peer in phase one are those it has taken followed by those in its channel, in order |
| PaxosLearning.ClockOfRun | peer/impl/consensus.go:131-255 | in every run a peer's clock is what the TLC messages handed to it make of it |
| PaxosLearning.StepOfRun | peer/impl/consensus.go:211-255 | in every run a peer is at the least step for which it was handed fewer than a threshold of TLC messages |
| PaxosLearning.AcceptIsLearned | peer/impl/consensus.go:309-364 | an accept announces a decision exactly if it completes the first threshold of accepts for one value |
| PaxosLearning.DecisionEndsWaiting | peer/impl/consensus.go:563-597 | the accept that settles the step lets a waiting proposer end its proposal and start another |
| PaxosLearning.DecidedIff | peer/impl/consensus.go:309-364 | in every run a peer has decided its step if and only if a threshold of the accepts of that step handed to it are for one value |
| PaxosLearning.AcceptorOfRun | peer/impl/consensus.go:600-697 | in every run an acceptor has promised the highest ID of its step prepared with it, and has accepted the last propose that came with the ID it had then promised |
| PaxosGaps.OrderedIsRun | peer/impl/handler.go:32-66 | a run that hands over every origin's messages in order, each once, is a run of the network |
| PaxosGaps.StalePromisesBreakAgreement | peer/impl/consensus.go:488-500 | a run in order, with sound decisions and one stale promise, decides two blocks in a step |
| PaxosGaps.MixedAcceptsBreakAgreement | peer/impl/consensus.go:325-331 | a run in order, with sound proposes and one decision across IDs, decides two blocks in a step |
| Gossip.HearOneFollows | peer/impl/handler.go:32-66 | an accepted rumor continues the log as its origin wrote it |
| Gossip.LogsOnlyGrow | peer/impl/handler.go:32-66 | no list of rumors shortens or changes a log |
| Gossip.StepKeepsInv | peer/impl/messaging.go:225-238 | telling, hearing and repairing keep the invariant, and nothing told is changed |
| Gossip.GossipSafety | peer/impl/handler.go:32-89 | in every run every log is a prefix of its origin's log, rumor i sits at index i - 1, and exactly the log has been processed, in order |
| Gossip.ToldIsTold | peer/impl/messaging.go:225-238 | in every run the log of an origin is what it was asked to tell, message by message |
| Gossip.ProcessedAsTold | peer/impl/handler.go:32-89 | in every run the messages of an origin that a node has processed are the first ones the origin was asked to tell, in order |
| Gossip.ToldIsHeard | peer/impl/messaging.go:225-238 | a rumor just told is on its way, and a node that had all before it has all once it hears it |
| Gossip.HearPadding | peer/impl/handler.go:32-66 | zero-valued rumors are never accepted |
| Gossip.AntiEntropyProgress | peer/impl/handler.go:157-213 | a receiver with the reported view accepts exactly the first ten missing rumors, or all of them, for every order of the origins |
| Gossip.RoundsCloseGaps | peer/impl/handler.go:142-213 | every round of status and reply lowers the number of missing rumors by ten, down to none |
| Gossip.AntiEntropyCompletes | peer/impl/handler.go:142-213 | a tenth as many rounds as rumors are missing bring every log up to the sender's |
| Messager.Messager.AddPeer | peer/impl/messaging.go:430-445 | neighbours stay distinct and exclude the node; routes are set for exactly the given addresses |
| Messager.ExceptKeeps | peer/impl/messaging.go:534-551 | exactly the neighbours that are not excepted are kept, as often as before |
| Messager.ExceptKeepsOrder | peer/impl/messaging.go:534-551 | what is kept is in the order it was |
| Messager.Messager.GetNeisExcept | peer/impl/messaging.go:534-551 | exactly the other neighbours, in order and distinct |
| Messager.Messager.Broadcast | peer/impl/messaging.go:225-238 | the new rumor has the next number and is appended to the own log |
| Messager.Messager.RumorsMsgCallback | peer/impl/handler.go:25-89 | the loop accepts rumors as the specification does and reports whether any was new |
| Messager.Messager.Compare | peer/impl/handler.go:156-190 | the two loops find exactly the missing rumors per origin, and whether the other is ahead anywhere |
| Messager.Messager.StatusMsgCallback | peer/impl/handler.go:142-213 | rumors are sent if and only if something is missing, and are the ten-entry reply for some order; otherwise a status if the other is ahead |
| Search.Shuffle | peer/impl/utils.go:18-22 | the shuffle permutes the first entries among themselves |
| Search.EvenShares | peer/impl/utils.go:29-39 | everybody gets the share but one lucky neighbour, who gets at least it, and the total is the budget |
| Search.BudgetAllocation | peer/impl/utils.go:9-41 | distinct neighbours get at least one each and together exactly the budget; which of them, and how much at least |
| Search.SearchNode.SearchRequestCallback | peer/impl/handler.go:388-418 | a request is forwarded once, with a split of the decremented budget among all but the relay and the origin |
| Search.StepKeepsInv | peer/impl/handler.go:394-420 | handling a request keeps requests sent plus what open ones may spend within the budget |
| Search.FloodIsBounded | peer/impl/handler.go:394-420 | a search with budget b causes at most b requests network-wide, none with budget zero, under any loss, repetition and order |
| Search.FloodSpendsExactly | peer/impl/handler.go:394-420 | if nothing is lost and every forwarding node has somebody to forward to, requests sent plus what open ones may spend are exactly the budget, all the time |
| Search.ForwardsAway | peer/impl/handler.go:408-418 | what a node forwards goes to its neighbours, but neither to the origin nor back to where the request came from |
| Search.NeverGoesHome | peer/impl/handler.go:394-420 | in every run no request goes to the origin of the search |
| Chunks.HexInjective | peer/impl/mod.go:751-752 | hexadecimal keys are equal only for equal hashes |
| Chunks.CutIsExact | peer/impl/mod.go:744-798 | chunks concatenate to the data; all but the last are full and the last is not empty |
| Chunks.CutIsUnique | peer/impl/mod.go:744-798 | full chunks and a shorter rest are the only way to cut the data |
| Chunks.SplitJoin | peer/impl/mod.go:713-800 | splitting a metafile gives the joined keys back, except that no keys come back as one empty key |
| Chunks.StoredChunk | peer/impl/mod.go:811-815 | under a chunk's key an upload leaves the chunk, unless the metafile has the same key |
| Chunks.RoundTrip | peer/impl/mod.go:704-817 | a local download of an upload gives the data back if and only if there are any and no chunk is the concatenation of the chunk hashes |
| Chunks.DataNode.ReadChunks | peer/impl/mod.go:744-798 | for every pattern of partial reads the loop produces the chunks of the data |
| Chunks.DataNode.Upload | peer/impl/mod.go:730-817 | stores exactly the chunks and the metafile and returns its key; a failed read changes nothing |
| Chunks.DataNode.Download | peer/impl/mod.go:704-726 | the loop gives the concatenated chunks or fails at the first that is missing |
| Ledger.ExecuteConserves | blockchain/miner/execute.go:21-95 | an execution, accepted or not, keeps the sum of balances modulo 2^64 if and only if it does not create a contract on an account with money |
| Ledger.CoveredIsExact | blockchain/miner/execute.go:63-245 | if every debit is covered, no account with money is replaced and the supply is below 2^64, an execution keeps the sum exactly, self-transfers and aliased parties included |
| Ledger.VerifiedIsCoveredIff | blockchain/miner/verify.go:56-60 | verification covers the debit of a transfer if and only if the value is not negative |
| Ledger.NegativeTransferSteals | blockchain/miner/verify.go:56-60 | a verified transfer of -9 signed by the sender moves 9 from the receiver to the sender |
| Ledger.NonceLaw | blockchain/miner/execute.go:47-268 | an accepted transaction raises its sender's nonce by one and no other; a rejected or idle one raises none; a replaced account starts at zero |
| Ledger.VerifiesAgainIff | blockchain/miner/verify.go:42-54 | a verified and accepted transaction verifies again if and only if it was a contract call whose assumptions failed, or its sender's first one replacing the sender's own account |
| Ledger.TransferArrivesIff | blockchain/miner/execute.go:63-95 | a verified transfer between two accounts moves exactly its value, whatever its sign, if and only if the receiver has what a negative value takes |
| Ledger.ContractPaymentArrives | blockchain/miner/execute.go:171-180 | a buyer pays from proposer to acceptor, a seller the other way, in full |
| Ledger.ActionsConserveGoods | blockchain/miner/execute.go:171-236 | a contract carried out to the end conserves every product between its parties, in exact arithmetic (float64 in the program) |
| Ledger.SendMovesGoods | blockchain/miner/execute.go:180-233 | a completed send moves exactly its quantity, never more than is held, and no other product, in exact arithmetic (float64 in the program) |
| Ledger.OthersAreUntouched | blockchain/miner/execute.go:21-269 | no execution changes an account that is not a party to it |
| ContractRuns.CarriesOutIff | blockchain/miner/execute.go:171-236 | the actions of a contract all go through if and only if each finds, told from the state before the call and what earlier actions move, a giver with enough and a taker without text; then balances and holdings have changed by exactly what was paid and sent |
| ContractRuns.CancelsOutIff | blockchain/miner/execute.go:171-236 | actions that went through leave the state as it was if and only if payments cancel modulo 2^64 and every product sent was sent back to parties that had it |
| ContractRuns.NoTraceIff | blockchain/miner/execute.go:171-236 | a contract that fails part-way leaves the state alone if and only if the actions before the failing one cancel out and that one fails at its giver or has nothing to give |
| ContractRuns.ContractAcceptedIff | blockchain/miner/execute.go:121-245 | a call that asks for actions is accepted if and only if their guards hold in turn |
| ContractRuns.RejectedIsUnchangedIff | blockchain/miner/execute.go:21-245 | a rejected transaction of any kind leaves the state alone if and only if the guards on the state before say so |
| Mining.ReplayIsExact | blockchain/miner/daemon.go:16-55 | replaying a mined block from its parent's state gives the block's state if no contract call met holdings that make it fail part-way with a trace |
| Mining.FirstFailureDecides | blockchain/miner/daemon.go:155-167 | at the first call that fails part-way, replay is exact if and only if the guards on the holdings then say it leaves no trace |
| Mining.NoContractIsClean | blockchain/miner/daemon.go:16-33 | runs without contract calls leave no trace of rejections |
| Mining.AcceptedInOrder | blockchain/miner/daemon.go:30-33 | a block holds a subsequence of the transactions that came |
| Accounts.AcceptedAreSigned | blockchain/miner/verify.go:26-40 | every transaction a miner takes into a block came to it and is signed by its sender |
| Accounts.UnsignedOnlyReceives | blockchain/miner/verify.go:26-60 | over every mining run of transactions its owner did not sign, an account that is no contract party and is not replaced keeps nonce, storage and code, and its balance grows by what the accepted transfers pay to it, modulo 2^64 |
| Accounts.WrittenIsRead | blockchain/miner/execute.go:47-61 | an entry an account writes is read back along every history until it is written again, the account is replaced, or a contract deals with it |
| Accounts.CreatedStartsEmpty | blockchain/miner/execute.go:249-269 | a created contract has balance and nonce zero and no entries, along every history until one is written or a contract deals with it |
| Accounts.ContractAddress | blockchain/account/address.go:30-46 | the hexadecimal form of an address is a contract's exactly if its first four bytes are zero |
| Accounts.CallsRunCreatedCode | blockchain/miner/execute.go:121-150 | along every history a call of a contract asks for what the code of its creation means, by its acceptor only, whatever code the call carries, until another contract is created in its place |
| Mining.SupplyIsForever | blockchain/miner/execute.go:21-95 | over every sequence of executions the sum of balances is the same modulo 2^64 |
| Mining.SupplyIsExactForever | blockchain/miner/execute.go:21-245 | over every sequence of executions with every debit covered, no money buried and a supply below 2^64, the sum of balances is exactly the same |
| Minting.ExactIff | blockchain/miner/execute.go:63-268 | with a supply below 2^64 an execution of any kind, accepted or not, keeps the sum of balances exactly if and only if the net payment of what it carries out is covered by the payer, or its negative by the payee, modulo 2^64, and no money is buried |
| Minting.ExactForever | blockchain/miner/execute.go:21-268 | over every sequence of executions that each meet that condition the sum is exactly the same |
| Minting.FirstChangeDecides | blockchain/miner/execute.go:21-268 | the first execution of a sequence that does not meet it is the first to change the sum |
| Minting.ContractMints | blockchain/miner/execute.go:171-180 | a verified and accepted contract call that makes 2^64 coins out of none |
| Mining.PartialFailureBreaksReplay | blockchain/miner/daemon.go:163-167 | a contract call that pays and fails, followed by an accepted write: the block with the write claims a state its replay does not give, and is refused |
| LedgerChain.StateIsReplay | blockchain/miner/daemon.go:155-176 | along every chain grown by accepted replays the last state is the replay of all transactions since the first block |
| LedgerChain.SupplyAlongChain | blockchain/miner/daemon.go:155-176 | the supply of the last block is that of the first modulo 2^64, and exactly if every debit was covered |
| LedgerChain.ReplayHasHistory | blockchain/miner/daemon.go:155-161 | every replay goes through a history: the states before each transaction, which the following statements are about |
| LedgerChain.NonceCounts | blockchain/miner/execute.go:47-268 | after any transactions a nonce is what the account began with plus the number of its effective transactions since, wrapped around at 2^64, counted from its last replacement |
| LedgerChain.VerifiesLaterIff | blockchain/miner/verify.go:42-60 | a verified transaction verifies again at a later place if and only if its sender covers it then and the count of effective ones since is a multiple of 2^64, or is the transaction's nonce if the sender was replaced |
| LedgerChain.NothingTwice | blockchain/miner/verify.go:42-54 | within 2^64 transactions a verified transaction that took effect verifies at no later place, unless its sender is replaced |
| LedgerChain.ReplacedVerifiesIff | blockchain/miner/execute.go:249-268 | right after its sender is replaced, a transaction verifies if and only if the sender signed it, its nonce is 0 and its value is not positive |
| LedgerChain.ReplacedSenderRepeats | blockchain/miner/execute.go:249-268 | after a contract is created in the sender's place, the sender's first transaction verifies and takes effect again |
| LedgerChain.MinedIsVerified | blockchain/miner/daemon.go:16-33 | the transactions of a mined block verify one after the other on its parent's state, if the run was clean |
| LedgerChain.RepeatsTakeEffect | blockchain/miner/daemon.go:155-161 | in replay a transaction that took effect and calls no contract takes effect wherever it occurs again |
| LedgerChain.ReplayedOnceIff | blockchain/miner/daemon.go:155-161 | along a chain without contract calls no transaction takes effect twice if and only if no effective one occurs twice |
| LedgerChain.MinableIff | blockchain/miner/daemon.go:16-55 | a miner takes all of a sequence of transactions into its block if and only if each verifies and is accepted in its turn, and then replay accepts that block |
| LedgerChain.BlockDaemonPaysTwice | blockchain/miner/daemon.go:155-161 | a block with one payment twice is accepted by replay and pays twice, although the second does not verify |
| WorldState.State.Copy | blockchain/account/state.go:21-28 | a new account object with the same contents |
| WorldState.WorldKV.Copy | blockchain/storage/simple.go:63-73 | a copy in depth: new objects throughout, the same accounts |
| WorldState.Miner.DoValueTransfer | blockchain/miner/execute.go:63-95 | the in-place transfer on shared account objects is the specified one, also from an account to itself |
| WorldState.Miner.DoSetStorage | blockchain/miner/execute.go:47-61 | the in-place storage write is the specified one |
| WorldState.Miner.DoCreateContract | blockchain/miner/execute.go:249-269 | the in-place contract creation is the specified one |
| WorldState.Miner.DoSend | blockchain/miner/execute.go:180-233 | goods move in place; a failing second half leaves the first half done |
| WorldState.Miner.DoActions | blockchain/miner/execute.go:171-236 | the loop stops at the first failing action with the earlier ones done |
| WorldState.Miner.DoContract | blockchain/miner/execute.go:121-245 | the checks in their order, then the actions, then the nonce |
| WorldState.Miner.ExecuteTxn | blockchain/miner/execute.go:21-45 | dispatch on the target and the type as specified |
| WorldState.Miner.VerifyTxn | blockchain/miner/verify.go:42-60 | signer, nonce and balance checks as specified, reading only |
| WorldState.Miner.MineOn | blockchain/miner/daemon.go:16-55 | mines on a fresh copy up to a block's worth of transactions and changes nothing that existed before |
| WorldState.Miner.ReplayOn | blockchain/miner/daemon.go:155-161 | replays on a fresh copy and changes nothing that existed before |
| BlockChain.ExtendKeepsChain | blockchain/block/blockchain.go:203-217 | a block with the next number on top of the end keeps numbers consecutive along parent links |
| BlockChain.BlockChain.constructor | blockchain/block/blockchain.go:29-32 | a genesis with number 0 is a chain |
| BlockChain.BlockChain.GetBlock | blockchain/block/blockchain.go:34-56 | returns the block with the number or an error, and never reaches its panic |
| BlockChain.BlockChain.Len | blockchain/block/blockchain.go:73-83 | the count along the links is the end's number plus one |
| BlockChain.BlockChain.HasTxn | blockchain/block/blockchain.go:116-136 | found if and only if some block holds it, with the distance to the newest such block |
| BlockChain.BlockChain.TryAppend | blockchain/block/blockchain.go:139-178 | exactly when a block could be appended, is too new or is refused; it never panics |
| BlockChain.BlockChain.Append | blockchain/block/blockchain.go:180-220 | exactly when a block is appended, is too new, or makes the program panic; the invariant is kept |

## Left out

- Sockets, UDP, registries, marshalling, logging, the HTTP, GUI and CLI layers and all JavaScript: plumbing.
- Signatures, the hash functions and the proof-of-work search: abstract or free of collisions.
- Routing-table updates on accepted rumors and the choice of a neighbour to forward to: they do not bear on the logs.
- Acknowledgements and their retransmission timers: the wire already repeats and loses anything.
- Remote downloads with back-off, the catalog, search replies and name resolution: table look-ups and retries around the parts modelled here.
- OverWrite and the catch-up of miners: it takes a lock its inner Append takes again.
- Contract lexing and parsing, state display and reflection: a contract is its parties, a test and an action list.
- Wallet synchronisation, the attacker flag and the unfinished Merkle store.
- Put and Get while nodes join: the map is claimed for a ring at rest; before that only conservation of keys is.
- Key ownership while a node's predecessor is unknown: the code transfers nothing then; only conservation is claimed.
- Liveness of Paxos: no claim that a proposal is ever decided.
- WorldState.WorldKV.Copy: an account's storage is a map field of the account object, so sharing of storage objects between accounts is not expressed.
- PaxosAgreement.Agreement: the two demands are sufficient and each is shown necessary by a run, but a run that violates them may still agree, so the statement goes one way.
- Mining.ReplayIsExact: later rejections could cancel the trace of earlier ones, so the if-and-only-if is stated at the first one (Mining.FirstFailureDecides).
- Ledger.SendMovesGoods: float64 rounding is not modelled; amounts are real numbers, which is what the program computes for integers of magnitude at most 2^53.
- Ledger.ActionsConserveGoods: the same limit; ContractRuns.CarriesOutIff, ContractRuns.CancelsOutIff and ContractRuns.NoTraceIff read the holdings in exact arithmetic as well.
- ChordFairness.FairRunsConverge: that nodes keep completing rounds is its hypothesis; timers and message delays that bring it about are not modelled.

