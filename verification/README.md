# tss-svc: a verified model

The threshold-signature service lets a group of parties agree on which deposit to pay out, who signs
it and what exactly is signed. This project models that logic in Dafny and proves what holds over all
inputs, all message schedules and all runs.

- **Reliable broadcast** (`Messages`, `Broadcaster`, `Network`, `Agreement`, `Decisions`, `Runs`,
  `Disagreement`, `Stall`, `Standstill`, `Traffic`, `Completion`, `Exactness`, `Inbox`). `Broadcaster`
  holds one party, as functions and as the class that updates its fields. `Network` is the whole group as a step system: code-following
  parties propose or join on an opening message and then run the code, faulty ones send anything whose
  code-following signatures were really produced (symbolic, unforgeable signatures). `Reached(w, n)` says
  that state `n` is reached by some run.
- **Consensus** (`Proposals`, `Consensus`, `Leader`, `Committee`): proposer, acceptors, signer selection,
  leader, and all of them together on top of the two broadcasts.
- **UTXO wallet** (`Coins`, `Withdrawal`, `Consolidation`): in-place arrangement, greedy input
  selection, fee shifting, and the rebuild by which other parties check a proposal.
- **Deposits and sessions** (`Deposits`, `Sessions`): the deposits table with the signing loop and all
  other writers interleaved; session identifiers and the session map.
- **Parsing and amounts** (`Text`, `Memo`, `Amounts`): the OP_RETURN memo and decimal rescaling.

`Wrappers` and `Collections` hold the option type and facts about lists and sets that several modules use.

## What the broadcast does and does not guarantee

With `f` faulty and `k` code-following parties and `R` relay rounds, in runs in which every broadcast of a
code-following party is taken by every other one (the service sets `R = f + k - T`, with threshold `T`):

| statement | holds | fails |
|---|---|---|
| if every code-following party ends with one value, the values agree | `f < R` | |
| any two code-following parties that end with one value agree | exactly if `k <= 1`, or `f < R` and (`k = 2` or `f <= 2` or `f + 2 <= R`), `SinglesExact` | `f = R - 1 >= 3`, `k >= 3`: `TwoDecisions`; `f >= R`, `k >= 2`: `OverrunDecisions` |
| all code-following parties accept the same values | exactly if `k <= 1`, or `f < R` and `f <= 1`, `SameValuesExact` | `f >= 2`, `k >= 2`, `R >= 3`: `ValuesDiffer`; `f >= R`, `k >= 2`: `OverrunDecisions` |
| one party decides on a value exactly when every other decides on that value | exactly if `k <= 1`, `f = 0`, `f + k < R`, or `f = 1` and (`R = 2`, or `R = 3` and `k >= 3`), `AlikeExact` | `2 <= k < R <= f + k`: `LoneDecision`; `k >= R >= 4`, `f >= 1`: `StandstillDecision`; `R = 3`, `f >= 2`, `k >= 2`: `ValuesDiffer`; `f >= R`, `k >= 2`: `OverrunDecisions` |
| without faults everybody decides on the origin's value | exactly if `R <= 3` and the group has at least `R` members, `DeliveryExact` | `R >= 4`: `NobodyDecides`; smaller groups: `SmallGroup` |
| everybody decides on the value of a code-following origin | `R <= 3` and `k >= R`, for any `f`: `HonestOriginDelivery` | |

The service's documentation promises that the parties of a reliable broadcast end with the same
message. The code keeps only the first message per (sender, round), folds all rounds into one window
and decides locally, so it does so within the bounds above; every failure is a lemma that builds the run,
with every deciding party joined. These runs also show that the hypotheses can be met together.

An acceptor stores the value of the opening message it joined on, not the value its broadcast accepted.
The two are the same if that opening message is of this session and validly signed (`StoredIsAccepted`);
`StoredMayDiffer` and `ForeignMayDiffer` show that each part of the condition is needed.

The checks of UTXO proposals do not reject a repeated input. `AcceptedIsHonest` and `VerifiedIsExact`
say what holds in general and that a proposal spends each coin once exactly when its inputs are distinct;
`RepeatAccepted` and `RepeatVerified` say that whatever is built from copies of one coin is accepted by a party
that has the coin once, and the two `RepeatUncovered`, for any fee estimate, when it then pays out more than the
coin is worth.

Two smaller differences between documentation and code, where the model follows the code: the proposer
picks T signers beside itself, not T including itself, and it draws seeded positions in a list whose order
is that of a map traversal, so the picked set is not determined by the session and the answers.

## Model

| member | source | states |
|---|---|---|
| Messages.SignFieldsInjective | internal/p2p/broadcast/reliable.go:74-92 | the field list that is hashed determines session, value and all previous signatures; the parity of the field count tells a nil value from a hash |
| Messages.ChainFieldsInjective | internal/p2p/broadcast/reliable.go:84-89 | the signer and signature fields of a chain determine the chain |
| Broadcaster.ExtendedChainValid | internal/p2p/broadcast/reliable.go:262-286 | a party's own extension of a valid chain is again a valid chain that ends at that party |
| Broadcaster.OpeningChainValid | internal/p2p/broadcast/reliable.go:167-180 | the opening message of a member of the group passes every party's validation |
| Broadcaster.ReliableBroadcaster.constructor | internal/p2p/broadcast/reliable.go:126-161 | a new broadcaster has one relay round more than the faults it tolerates, counts itself in the group, and has accepted nothing |
| Broadcaster.ReliableBroadcaster.Broadcast | internal/p2p/broadcast/reliable.go:163-193 | the origin accepts its own value, sends one opening message, then handles and relays whatever arrives in order; delivered means one accepted value and a full chain |
| Broadcaster.ReliableBroadcaster.EnsureValid | internal/p2p/broadcast/reliable.go:195-202 | joining takes the opening's sender as origin and handles what was already queued, the opening and what follows, in that order |
| Broadcaster.ReliableBroadcaster.StartRounds | internal/p2p/broadcast/reliable.go:214-242 | the loop refines the message-by-message specification, both in its state and in what it sends |
| Broadcaster.ReliableBroadcaster.ProcessMsg | internal/p2p/broadcast/reliable.go:244-286 | an invalid chain changes nothing; a valid one is accepted, counted with the party's own signature, and relayed unless already signed or in the last round |
| Broadcaster.ReliableBroadcaster.AddToValuesSet | internal/p2p/broadcast/reliable.go:303-316 | a value is recorded once per hash, the first one stays, and nothing else changes |
| Broadcaster.ReliableBroadcaster.DecideValid | internal/p2p/broadcast/reliable.go:288-301 | valid exactly with one accepted value and a chain long enough |
| Broadcaster.ReliableBroadcaster.ValidateSignatures | internal/p2p/broadcast/reliable.go:328-373 | the backward loop accepts exactly chains of Round+1 distinct members from the origin to the sender in which every signature covers its whole prefix, and reports whether the party itself signed |
| Network.RunKeeps | internal/p2p/broadcast/reliable.go:163-316 | every run, with any faulty behaviour and any schedule, keeps the group invariant: what code-following parties sent is an opening or a relay of something they processed, every signature of theirs was produced by them, every accepted value is backed by a processed chain, every final chain by a long enough one, and nobody takes a message before joining |
| Agreement.ChainIntegrity | internal/p2p/broadcast/reliable.go:163-286 | in every reachable state each message of a code-following party carries Round+1 valid signatures of distinct members from origin to sender, is never of round R, is of round 0 exactly for the origin, and its value is accepted by its sender |
| Agreement.AcceptedExactly | internal/p2p/broadcast/reliable.go:163-316 | in every reachable state a party has accepted exactly the value it proposed and those of the valid chains it took, and is final exactly if one of them has, with itself, at least R signers, or it proposed with R = 1 |
| Agreement.SentExactly | internal/p2p/broadcast/reliable.go:163-286 | in every reachable state a party has sent exactly its opening and its continuation, by its own signature, of every valid chain it took without being a signer, except in the round before the last |
| Agreement.SignerSent | internal/p2p/broadcast/reliable.go:328-373 | a code-following signer anywhere in a valid chain itself sent that chain: same session and value, the round of its position, and the same signatures before its own |
| Agreement.Validity | internal/p2p/broadcast/reliable.go:163-193 | with a code-following origin, for any number of faulty parties and any schedule, no code-following party ever accepts a value other than the broadcast one |
| Agreement.HonestSigner | internal/p2p/broadcast/reliable.go:134-136 | among the first f+1 signers of any valid chain with more signers than faulty parties, one follows the code |
| Agreement.Agreement | internal/p2p/broadcast/reliable.go:214-316 | with fewer than R faulty parties and all code-following broadcasts delivered, if every code-following party ends with exactly one value, all these values have the same hash, and are equal unless that hash is empty |
| Agreement.Carrier | internal/p2p/broadcast/reliable.go:244-286 | whatever a code-following party accepted was broadcast by a code-following party in a round not beyond the number of faults |
| Proposals.EmptyKeyDiffers | internal/p2p/broadcast/reliable.go:303-316 | the exception is needed: nil and an empty hash share a key, and one party can decide on nil while another decides on a value with an empty hash |
| Decisions.SameValues | internal/p2p/broadcast/reliable.go:214-316 | for every R, with at most one faulty party all code-following parties accept the same values |
| Decisions.SameDecision | internal/p2p/broadcast/reliable.go:214-316 | any two code-following parties decide alike, on the same value: with no fault and every R, with one fault and R = 2, with one fault, R = 3 and three code-following parties, or when the group is too small to decide |
| Decisions.OneFaultAlike | internal/p2p/broadcast/reliable.go:214-316 | with one fault and R = 2, or R = 3 and at least three code-following parties, any two of them accept the same values and decide alike, whether the origin is faulty or not |
| Decisions.FaultFreeAlike | internal/p2p/broadcast/reliable.go:214-316 | without faults and for every R, when one party decides all do, on the same value |
| Decisions.SetsMeet | internal/p2p/broadcast/reliable.go:214-316 | for all tolerated numbers of faulty and code-following parties and every R, whatever one code-following party accepted, it shares an accepted value with every other one |
| Decisions.SinglesAgree | internal/p2p/broadcast/reliable.go:214-316 | for all tolerated numbers and every R (with two code-following parties, any f < R), any two code-following parties that each hold one value hold the same, whatever the others hold |
| Decisions.FaultFreeDelivery | internal/p2p/broadcast/reliable.go:182-301 | without faults, with everything delivered and 1 <= R <= 3, every party including the origin ends with exactly the origin's value, and decides on it exactly if the group has at least R members |
| Decisions.HonestOriginDelivery | internal/p2p/broadcast/reliable.go:182-301 | with a code-following origin, 1 <= R <= 3 and at least R code-following parties, each of them decides on exactly the origin's value, however many others are faulty |
| Decisions.SmallGroup | internal/p2p/broadcast/reliable.go:252-301 | in a group with fewer members than relay rounds nobody ever decides, whoever is faulty |
| Disagreement.TwoDecisions | internal/p2p/broadcast/reliable.go:233-239 | for every R >= 4, R-1 faulty parties and any number of code-following ones from three on, some run with everything delivered lets two code-following parties, both joined, decide on different values |
| Disagreement.OverrunDecisions | internal/p2p/broadcast/reliable.go:134-136 | with at least R faulty parties two others, among any number, can be made to decide on any two values |
| Disagreement.SinglesExact | internal/p2p/broadcast/reliable.go:214-316 | for all numbers of faulty and code-following parties and all R: parties with single values agree in every such group and run if and only if the numbers are tolerated |
| Exactness.LoneDecision | internal/p2p/broadcast/reliable.go:288-301 | for every R >= 3, every group of at least R members with two to R-1 code-following ones has a run with everything delivered in which the code-following origin decides and no other code-following party does |
| Standstill.Stops | internal/p2p/broadcast/reliable.go:233-271 | for every R >= 4 and at least R code-following parties some run fills every slot of all their broadcasts, sends a chain one signature short and leaves nobody final |
| Exactness.StandstillDecision | internal/p2p/broadcast/reliable.go:233-301 | for every R >= 4, every group with a faulty member and at least R code-following ones, the origin among them, has such a run too |
| Exactness.ValuesDiffer | internal/p2p/broadcast/reliable.go:233-239 | for every R >= 3 two faulty parties and any number of others from two on suffice for a run with everything delivered in which one code-following party accepts a value that another does not; with R = 3 the other decides and it does not |
| Exactness.SameValuesExact | internal/p2p/broadcast/reliable.go:214-316 | for all numbers of faulty and code-following parties and all R: code-following parties accept the same values in every such group and run if and only if there is one of them, or at most one fault and fewer than R |
| Exactness.AlikeExact | internal/p2p/broadcast/reliable.go:214-316 | for all numbers of faulty and code-following parties and all R: code-following parties decide alike in every such group and run if and only if there is one of them, no fault, fewer members than R, or one fault with R = 2, or with R = 3 and at least three of them |
| Stall.NobodyDecides | internal/p2p/broadcast/reliable.go:233-271 | for every R >= 4 and every fault-free group some run delivers everything and nobody decides |
| Completion.CanFinish | internal/p2p/broadcast/reliable.go:214-286 | with any faults, every run in which all code-following parties have started can go on, after finitely many deliveries, until all their broadcasts are delivered, and keeps what every delivery keeps |
| Completion.DeliveryExact | internal/p2p/broadcast/reliable.go:182-301 | without faults, full delivery makes everybody decide if and only if R <= 3 and the group has at least R members |
| Traffic.RelayBound | internal/p2p/broadcast/reliable.go:233-271 | in every reachable state a party has relayed at most (n-1)*R messages, and the origin has sent at most its opening |
| Traffic.FaultFreeTraffic | internal/p2p/broadcast/reliable.go:214-286 | a fault-free run of any length sends at most 1 + (n-1)^2 * R messages |
| Inbox.Channels.Receive | internal/tss/session/consensus/consensus.go:111-185 | a request is accepted exactly if it is of this session, from a peer and an acceptance or a readable proposal or sign-start; it lands in exactly one channel in order of arrival: openings and acceptances in the party's loop, later rounds in their own broadcast; others change nothing |
| Inbox.OnlyPeersLater | internal/tss/session/consensus/consensus.go:120-178 | what a broadcast takes from its channel comes from a peer and is no opening; no accepted request is lost or doubled |
| Proposals.FaultBound | internal/tss/common.go:25-28 | with the relay rounds derived from the threshold, the fault bound of the broadcast results holds exactly when T+1 parties follow the code |
| Proposals.StoredIsProposed | internal/tss/session/consensus/acceptor.go:69-103 | under a code-following proposer everybody who joins joins on the proposed data, for any faults and schedule |
| Proposals.StoredIsAccepted | internal/tss/session/consensus/acceptor.go:74-103 | an acceptor whose broadcast decided stores the accepted value if the opening message it joined on is of this session and validly signed |
| Proposals.StoredAgrees | internal/tss/session/consensus/acceptor.go:64-107 | for all tolerated fault counts, two acceptors that decide and joined on good openings store the same data even under a faulty proposer |
| Proposals.StoredMayDiffer | internal/tss/session/consensus/acceptor.go:74-103 | a valid signature is needed: a faulty proposer can make a party decide on one value and store the value of a badly signed opening |
| Proposals.ForeignMayDiffer | internal/tss/session/consensus/acceptor.go:74-103 | the right session is needed: an opening validly signed for another session is dropped by the receive loop and its value is still stored |
| Consensus.Acceptors | internal/tss/session/consensus/proposer.go:112-122 | lists exactly the accepting parties, each once, in whatever order the map is walked |
| Consensus.GetSignersSet | internal/tss/session/consensus/proposer.go:98-110 | whatever the generator draws, keeps exactly T distinct candidates, or all of them if there are fewer: those left by deleting at the drawn positions in turn |
| Consensus.AnyoneSelected | internal/tss/session/consensus/proposer.go:98-110 | no choice is excluded: every set of candidates is what some draws leave |
| Consensus.Proposer.Collect | internal/tss/session/consensus/proposer.go:74-93 | records each party's first readable answer and nothing else |
| Consensus.FirstAnswerIs | internal/tss/session/consensus/proposer.go:74-93 | that answer is the one in the party's first readable acceptance message, and there is none exactly if it sent none |
| Consensus.Proposer.Propose | internal/tss/session/consensus/proposer.go:14-96 | signers are exactly T distinct peers whose first answer was acceptance; the announced list is these and the proposer, T+1 distinct members; each failure has its own cause, and "too few" means that no T parties accepted |
| Consensus.Party.HandleProposal | internal/tss/session/consensus/acceptor.go:64-107 | the outcome of every branch: unreadable, not delivered, nothing to sign, rejected with a negative answer, stored with a positive one |
| Consensus.Party.HandleSignStart | internal/tss/session/consensus/acceptor.go:109-165 | signers are the listed parties without the local one, for lists of distinct known parties that name it; nothing is set otherwise |
| Consensus.GoodListIs | internal/tss/session/consensus/acceptor.go:132-160 | the check of the list passes exactly if it has as many different members as entries, all of them the local party or its peers |
| Consensus.Party.Accept | internal/tss/session/consensus/acceptor.go:14-62 | the loop refines the message-by-message specification for any message sequence |
| Consensus.AcceptorRuns | internal/tss/session/consensus/acceptor.go:14-165 | over any message sequence a party ends with signers exactly when the proposer's first proposal was delivered, verified and not nil and the proposer's next sign-start was delivered and names it among distinct known parties, and they are that list without itself; it answers at most once, positively exactly when it stores the data, and stores exactly the first proposal if that is delivered, verified and not nil |
| Consensus.AcceptorErrors | internal/tss/session/consensus/acceptor.go:14-165 | over any message sequence, which message causes each error and when there is none: a timeout exactly if no proposal came or one was stored and no sign-start followed, a rejection and a negative answer exactly if the first proposal was delivered, not nil and not verified, and data without an error exactly if the answer was sent and the next sign-start is delivered with a list of distinct known parties |
| Committee.StoredByRun | internal/tss/session/consensus/acceptor.go:14-107 | data stored in a run on top of a reached broadcast is the value joined on, the broadcast decided, and the mechanism accepted it |
| Committee.StoredIsBroadcast | internal/tss/session/consensus/acceptor.go:64-107 | under a code-following proposer an acceptor's run stores nothing but the proposed data, and it is the one value its broadcast accepted |
| Committee.StoredAlike | internal/tss/session/consensus/acceptor.go:64-107 | for all tolerated fault counts the runs of two acceptors that joined on good openings store the same data even under a faulty proposer |
| Committee.ProposalStored | internal/tss/session/consensus/acceptor.go:64-107 | with a code-following proposer, R <= 3 and at least R code-following parties, an acceptor that reads the proposal and accepts its data stores and acknowledges exactly what was proposed |
| Consensus.SameCommittee | internal/tss/signer.go:56-71 | every member of an announced list hands the same sorted list to the signing protocol |
| Consensus.OneCommittee | internal/tss/session/consensus/acceptor.go:129-164 | over any run, a party that handles the announced list and knows its members gets signers exactly if it is named; a party that gets signers arrives with itself at the announced list, in the same order; a party that is not named gets none |
| Committee.CommitteeOfBoth | internal/tss/session/consensus/proposer.go:45-73 | from the proposer's run and any acceptor's run over the sign-start broadcast: the announced committee has T+1 distinct members, whoever gets signers is one of them and computes exactly these members in the proposer's order; an acceptor that stored the data, knows the members and reads the sign-start gets signers exactly if it is a member and that broadcast decided for it |
| Committee.CommitteeForms | internal/tss/session/consensus/acceptor.go:109-165 | with a code-following proposer, R <= 3 and at least R code-following parties, every named acceptor that stored the data, knows the members and reads the sign-start ends with the other T members in the proposer's order, whoever is faulty |
| Committee.StoredIsPending | internal/tss/session/signing/consensus.go:58-88 | an acceptor stores data only for a deposit whose row has not left PENDING |
| Committee.WithdrawalAgreed | internal/bridge/withdrawal/utxo.go:74-195 | end to end: with R <= 3 and at least R code-following parties, what one of them builds as proposer for a deposit is stored and acknowledged by every other that has the deposit and the spent coins, whoever is faulty |
| Leader.SortAllParties | internal/tss/session/leader.go:25-35 | fills the list with all peers and the local party and sorts it |
| Leader.SameOrder | internal/tss/session/leader.go:25-35 | two lists of the same parties with distinct keys sort alike |
| Leader.LeaderAgreement | internal/tss/session/leader.go:18-35 | every member, from its own view in any peer order, builds the same list and finds the same leader, a member, for every session |
| Leader.LeaderRank | internal/tss/session/leader.go:18-23 | the leader is the member with as many members of smaller key as the session's draw modulo the group size |
| Coins.ArrangeOutputs | internal/bridge/chain/utxo/utils/output_arranger.go:13-27 | rearranges the caller's own list largest first, as a permutation, and leaves an arranged list as it is |
| Coins.InputSource.Fetch | internal/bridge/chain/utxo/helper/btc/btc.go:227-261 | after any sequence of targets the source holds the shortest prefix reaching the largest of them, its total is the prefix sum and its lists stay aligned; it answers unless a coin does not decode |
| Coins.DrawnIsHighest | internal/bridge/chain/utxo/helper/btc/btc.go:235-260 | any sequence of targets leaves the source where its largest target alone would |
| Coins.ShortestPrefix | internal/bridge/chain/utxo/helper/btc/btc.go:236-257 | no shorter prefix reaches the target, all drawn coins decode, it stops short only at the end or at a coin that does not decode, and the target is reached whenever the readable coins suffice |
| Coins.ReachInPrefix | internal/bridge/chain/utxo/helper/btc/btc.go:235-260 | replaying a satisfied target on just the drawn coins draws the same ones |
| Coins.ReplayInPrefix | internal/bridge/chain/utxo/helper/btc/btc.go:235-260 | replaying any sequence of satisfied targets on just the drawn coins gives the same answer at every step |
| Withdrawal.EstimateFeeOrDefault | internal/bridge/chain/utxo/client/transaction.go:41-54 | the rate is the allowed one nearest to the estimate, and the lowest allowed one without an estimate |
| Withdrawal.SelectReplays | internal/bridge/chain/utxo/helper/btc/btc.go:183-207 | authoring again from exactly the selected coins makes the same selection and the same change |
| Withdrawal.SelectionExact | internal/bridge/chain/utxo/helper/btc/btc.go:195-261 | authoring is the input source asked for one target after the other: it selects exactly the coins drawn when the author stops asking, and fails exactly if a target cannot be met or the author gives up |
| Withdrawal.AuthoredExact | internal/bridge/chain/utxo/helper/btc/btc.go:183-207 | the authored transaction spends a prefix of the arranged coins on which the author decided, has the given outputs and exactly the change decided on, to the change address, and the miner gets exactly the rest, which is not negative |
| Withdrawal.FeeConserves | internal/bridge/withdrawal/utxo.go:216-262 | the receiver pays exactly the estimated fee unless that leaves dust: with change the fee goes to the change output; without, a change output is added exactly if what the inputs leave beyond the amount is no dust, and the fee is then the estimate with it; on every path outputs stay at most inputs, an existing change output never loses, the miner fee is kept when change existed and is the with-change estimate when change is added; inputs are untouched |
| Withdrawal.AuthoredTx.SubtractFeeFromWithdrawal | internal/bridge/withdrawal/utxo.go:216-262 | the in-place update, working on a copy while it tries a change output, refines the fee shift that `FeeConserves` determines case by case |
| Withdrawal.FormSignatureHashes | internal/bridge/withdrawal/utxo.go:197-214 | hash i is that of input i with the script and amount of the coin it spends, or the whole call fails |
| Withdrawal.MapUnspent | internal/bridge/chain/utxo/utils/utils.go:31-38 | the loop builds the outpoint index in which later entries win |
| Withdrawal.MappedFacts | internal/bridge/chain/utxo/utils/utils.go:31-38 | the index holds wallet coins under their own outpoints, all of them, and with unique outpoints each coin is found |
| Withdrawal.LastIsFound | internal/bridge/chain/utxo/utils/utils.go:31-38 | of several entries with one outpoint the last is found |
| Withdrawal.FindUsedInputs | internal/bridge/chain/utxo/utils/utils.go:40-62 | finds the coin of every input in input order, and fails exactly when one is unknown |
| Withdrawal.RebuiltFrom | internal/bridge/withdrawal/utxo.go:150-170 | building from a wallet spends a prefix of its arrangement, and building again from the spent coins alone gives the same transaction |
| Withdrawal.Int64Exact | internal/bridge/withdrawal/utxo.go:83 | the amount is taken modulo 64 bits into the signed range, so amounts of 63 bits are kept |
| Withdrawal.FormedIsHonest | internal/bridge/withdrawal/utxo.go:74-127 | a proposal is formed exactly if amount and addresses parse, the wallet funds it and every input can be hashed; it names the deposit and the rate, spends a prefix of the arranged wallet and pays receiver, bridge and miner as an accepted one must |
| Withdrawal.ProposalAccepted | internal/bridge/withdrawal/utxo.go:74-195 | completeness: whatever a proposer builds, every party that knows the deposit and has the spent coins with unique outpoints accepts |
| Withdrawal.AcceptedIsHonest | internal/bridge/withdrawal/utxo.go:129-195 | soundness: an accepted transaction spends the checker's own wallet coins, those on which the author decided; the receiver gets the amount less exactly the estimated fee, and the whole amount only if that, or that with a change output added, would be dust; the bridge gets exactly the author's change and the fee, or what the inputs leave; the miner gets exactly the rest; nobody else is paid, the rate is allowed, and each hash is that of the coin its input spends; coins are counted once, and the wallet covers the outputs, exactly when no input is repeated |
| Withdrawal.RepeatAccepted | internal/bridge/chain/utxo/utils/utils.go:40-62 | for every helper, whatever is built from copies of one coin is accepted by a party whose whole wallet is that coin |
| Withdrawal.RepeatUncovered | internal/bridge/chain/utxo/utils/utils.go:40-62 | the condition is needed: whatever the fee estimate, a coin worth more than twice the highest fee of two inputs and two outputs has an accepted proposal that lists it twice and pays out more than it is worth |
| Consolidation.CollectInputs | internal/tss/session/resharing/utxo/consensus.go:103-112 | collects all inputs and their exact total, or reports that one does not decode |
| Consolidation.ConsolidateOutputs | internal/tss/session/resharing/utxo/consensus.go:94-145 | arranges the caller's list in place and builds from that same arrangement, so inputs and hashes line up |
| Consolidation.ConsolidationExact | internal/tss/session/resharing/utxo/consensus.go:94-145 | outputs plus estimated fee equal the coins spent to the unit, the outputs are equal except for less than one unit per output more in the first, every output is at least dust, and hash i is that of the coin spent by input i |
| Consolidation.ConsolidatedWhen | internal/tss/session/resharing/utxo/consensus.go:94-145 | it succeeds exactly if all coins decode, what they leave after the fee is enough for every output to be at least dust, and every input can be hashed |
| Consolidation.FormProposalData | internal/tss/session/resharing/utxo/consensus.go:66-92 | proposes exactly when the wallet is large enough and consolidation succeeds, and then its result |
| Consolidation.VerifyProposedData | internal/tss/session/resharing/utxo/consensus.go:147-188 | accepts exactly the transactions and hashes that consolidating their own inputs gives |
| Consolidation.ConsolidationAccepted | internal/tss/session/resharing/utxo/consensus.go:66-188 | completeness: any party with the proposer's coins and unique outpoints rebuilds the same transaction and hashes, however its sort treats equal amounts |
| Consolidation.VerifiedIsExact | internal/tss/session/resharing/utxo/consensus.go:147-188 | soundness: an accepted consolidation spends the checker's own wallet coins, pays only the new wallet, in the configured number of outputs of at least dust, equal except for the remainder in the first, and loses only the estimated fee; coins are counted once, and the wallet covers the outputs, exactly when no input is repeated |
| Consolidation.RepeatVerified | internal/tss/session/resharing/utxo/consensus.go:153-164 | for every helper, what consolidating enough copies of one coin builds is accepted by a party whose whole wallet is that coin; outputs plus estimated fee are all the copies, so the wallet covers the outputs exactly if the fee is at least the copies after the first |
| Consolidation.RepeatUncovered | internal/tss/session/resharing/utxo/consensus.go:153-164 | the condition is needed: whatever the fee estimate, if it is less than the copies after the first and leaves outputs above dust, an accepted proposal lists copies of one coin and pays out more than it is worth |
| Deposits.DepositsQ.Insert | internal/db/postgres/deposits.go:54-91 | adds exactly one row at the end, with the given columns, not submitted and without hash, signature and data, unless the identifier is taken; identifiers stay unique |
| Deposits.DepositsQ.InsertProcessedDeposit | internal/db/postgres/deposits.go:227-266 | adds exactly one row at the end, with the given columns, processed, submitted and distributed, unless the identifier is taken; identifiers stay unique |
| Deposits.DepositsQ.Get | internal/db/postgres/deposits.go:93-101 | finds a row of the identifier, nothing exactly when there is none |
| Deposits.DepositsQ.GetWithSelector | internal/db/postgres/deposits.go:111-120 | finds the matching row with the least serial number, nothing exactly when no row matches; it meets every given criterion |
| Deposits.DepositsQ.UpdateStatus | internal/db/postgres/deposits.go:143-149 | writes the status of that row only |
| Deposits.DepositsQ.UpdateProcessed | internal/db/postgres/deposits.go:151-169 | marks that row processed, stores each field that is given in its own column and keeps the others and every other column and row |
| Deposits.DepositsQ.UpdateWithdrawalDetails | internal/db/postgres/deposits.go:132-141 | marks that row processed and submitted, with exactly the given hash and signature, and keeps every other column and row |
| Deposits.DepositsQ.UpdateSubmittedStatus | internal/db/postgres/deposits.go:171-177 | writes the submitted flag of that row only |
| Deposits.DepositsQ.UpdateDistributedStatus | internal/db/postgres/deposits.go:179-185 | writes the distributed flag of that row only |
| Deposits.SigningSession.FormProposalData | internal/tss/session/signing/consensus.go:41-56 | proposes the data formed for the row with the least serial number among those pending, distributed and withdrawn on this chain, nothing exactly when there is none, and fails exactly when forming the data does |
| Deposits.SigningSession.VerifyProposedData | internal/tss/session/signing/consensus.go:58-88 | accepts exactly if the deposit's row is pending, or is missing and could be fetched, and the proposal is valid for that row or fetched deposit, which is then stored; every call is a run of the loop's steps |
| Deposits.SigningSession.RunSession | internal/tss/session/signing/evm/session.go:174-257 | the row is PROCESSING while it is signed, with all else as before; then it is PROCESSED with exactly that signature, or FAILED, with all other columns and rows as before; it is a run of the loop's steps that enters signing once |
| Deposits.NeverPendingAgain | internal/db/postgres/deposits.go:54-185 | over any run of the loop and all other writers, a row that has left PENDING never returns to it and never disappears |
| Deposits.AtMostOnce | internal/tss/session/signing/evm/session.go:118-204 | over any such run, with sessions given up or the service restarted in any phase, the signing phase is entered at most once per deposit identifier, and entered deposits are never pending again |
| Text.JoinSplit | internal/bridge/chain/utxo/client/deposit.go:247-256 | joining the parts with the separator restores the text |
| Text.SplitLast | internal/bridge/chain/utxo/client/deposit.go:247-256 | the last part is what follows the last separator, the others are the parts of what precedes it |
| Text.ParseOfDecimal | internal/tss/session/common.go:59-66 | parsing recovers every printed 64-bit number |
| Text.ParseExact | internal/tss/session/common.go:59-66 | parsing gives a number exactly for an optional sign and digits within 64 bits, and it is the number written |
| Sessions.IncrementExact | internal/tss/session/common.go:80-96 | incrementing a printed identifier gives the next one exactly for underscore-free chains below the 64-bit maximum |
| Sessions.IncrementIs | internal/tss/session/common.go:84-96 | what incrementing gives for every chain and number: unchanged for chains with an underscore, the next number otherwise, the smallest after the largest |
| Sessions.IdentifierInjective | internal/tss/session/common.go:80-82 | no two (chain, number) pairs share an identifier, for any chain names |
| Sessions.SessionIdRead | internal/tss/session/common.go:59-66 | the number is recovered for every underscore-free chain; otherwise the text after the chain's first underscore is read in its place |
| Sessions.SessionManager.Add | internal/p2p/session_manager.go:43-49 | holds a new chain's session under its current identifier beside all others |
| Sessions.SessionManager.Get | internal/p2p/session_manager.go:51-60 | finds the session whose current identifier is asked for, nothing exactly when there is none |
| Sessions.SessionManager.OnIdChange | internal/p2p/session_manager.go:73-84 | moves one session to its new key and touches no other; an unknown key changes nothing |
| Sessions.Session.IncrementSessionId | internal/tss/session/signing/evm/session.go:263-268 | after an id change the manager still holds the same sessions, each under its current identifier |
| Sessions.HeldExactlyOnce | internal/p2p/session_manager.go:43-84 | with storing and notifying as separate interleaved steps of any number of sessions, each session is held exactly once, under the identifier it last notified |
| Memo.DecodesLayout | internal/bridge/chain/utxo/client/deposit.go:202-235 | decoding reads back every memo of the documented layout |
| Memo.OnlyLayoutDecodes | internal/bridge/chain/utxo/client/deposit.go:202-235 | whatever decodes as version 2 has that layout, and re-encoding gives the same bytes |
| Memo.DecodesPair | internal/bridge/chain/utxo/client/deposit.go:246-273 | version 1 recovers address and separator-free chain even when the address holds separators, without referral; the address is encoded exactly if it has 71 bytes and plain otherwise |
| Memo.OnlyPairsDecode | internal/bridge/chain/utxo/client/deposit.go:246-273 | whatever decodes as version 1 is a non-empty address and a non-empty separator-free chain id around the last separator, with that meaning |
| Memo.FallbackExact | internal/bridge/chain/utxo/client/deposit.go:177-200 | a version 1 memo is read as version 1 (same chain, address bytes and address encoding) exactly when its bytes are not shaped like version 2 |
| Memo.TextIsV1 | internal/bridge/chain/utxo/client/deposit.go:177-235 | a memo whose bytes are all at least 7 never parses as version 2 |
| Memo.EncoderUnique | pkg/encoding/encoder.go:27-44 | a known encoding type is the only type byte of its encoder, in the order of the encoding list |
| Amounts.TransformAmount | internal/bridge/deposit/fetcher.go:123-141 | the digit-by-digit loop is multiplication or floor division by a power of ten |
| Amounts.ViaExact | internal/bridge/deposit/fetcher.go:123-141 | rescaling through intermediate decimals equals rescaling directly for all amounts exactly when the intermediate is not below both ends |
| Amounts.UpThenDown | internal/bridge/deposit/fetcher.go:123-141 | raising the decimals and lowering them again is the identity |
| Amounts.DownThenUp | internal/bridge/deposit/fetcher.go:123-141 | lowering and raising again loses at least nothing and less than one unit of the coarser scale |
| Amounts.GetWithdrawalAmount | internal/bridge/deposit/fetcher.go:102-121 | withdrawal plus commission is the rescaled deposit, the minimum is respected, and the call fails only for a failed commission or too small an amount |

## Left out

- Wall-clock windows: a run says which messages were taken, and a party takes none before it joins; "delivered before the window closes" is a hypothesis of the agreement results.
- Channel capacities, goroutine scheduling inside one party, and the atomicity of single database statements.
- Negative round numbers, on which the broadcast code panics; rounds are natural numbers.
- Several broadcasts in one session: the request type is not part of the signed fields, so the results are about one broadcaster instance per session.
- Failing signing calls inside a broadcast: signing always succeeds.
- ECDSA, SHA-256, gob, protobuf and bech32: signatures and hashes are symbolic, encodings are injective, addresses are their text.
- Broadcaster.ReliableBroadcaster.AddToValuesSet: a nil value and a value with an empty hash share a key, as in the code; `Agreement` therefore speaks of keys.
- Leader.SortAllParties: the library sort is an insertion sort by key; only its sorted result matters because keys are distinct.
- Consensus.GetSignersSet: works on values; that the code deletes in place from the slice it was given is not modelled.
- Consensus.Party.HandleSignStart: an empty party list is an error named `Panicked`, because the code then allocates with a negative capacity; text that is not an address counts as an unknown party.
- Withdrawal.AuthoredExact: btcwallet's authoring is a caller of the input source with a stated contract: it asks again only for more than it has, and builds outputs and change within its inputs.
- Withdrawal.ProposalAccepted: coin amounts are satoshis instead of floats, transaction ids are in canonical form, and a coin is unreadable when either its hash or its script fails to decode.
- Consolidation.ConsolidateOutputs: needs at least one output, because the code divides by the output count; `MaxInputsCount` is not enforced by the code and nothing is proved from it.
- Deposits.DepositsQ.InsertProcessedDeposit: columns that no decision depends on are one field, so lower-casing the receiver and the tokens is not modelled.
- Deposits.AtMostOnce: is about the loop of one chain, with the EVM loop as representative; other chains' loops are writers of the table, and their error exits differ.
- A final PROCESSED status: status writes are unconditional, so a late failure can overwrite it; only PENDING is never returned to.
- Sessions.HeldExactlyOnce: is about signing sessions of distinct chains; key generation, resharing and distribution sessions keep their identifiers.
- Memo.DecodesLayout: the text encoders are names for their encoding; that hex, base58 and base64 are injective is not modelled.
- Memo.FallbackExact: compares address bytes and encodings, not the address texts they give.
- Amounts.GetWithdrawalAmount: the commission is computed by the core library and is a parameter.
- The Bitcoin Cash helper, a twin of the Bitcoin one; the EVM, TON, Solana and Zano clients and constructors; key generation and signing; gRPC, HTTP, TLS, vault, configuration and logging.
