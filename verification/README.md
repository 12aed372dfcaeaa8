# Model of a small blockchain database

This project models five parts of the repository and proves what they are for: leader election, the BA\*
agreement with its sortition, the chain with its Merkle trees and catch-up, the transaction pools, and the
cache with its per-table index. `dafny verify dfyconfig.toml` checks all of it.

The queues of the two pools are the same code on two transaction types and share one model. Objects whose
methods update fields are classes; the linked lists of pools and caches are linked nodes. Each
class method is tied to a function on values, and the properties are lemmas about those functions: protocol
runs are sequences of steps, and what is claimed of runs is claimed of every sequence. In `Raft` the steps are
those of nodes and messages, in `Consensus` a node finishing a count on whatever ballots reached it, in
`Replicas` arrivals, packing and deliveries, in `Tiers` reads and blocks, in `TableIndex` tables and blocks.

| file | what it holds |
|---|---|
| Raft.dfy, Leaders.dfy | leader election: node, cluster machine, safety; who can be elected, and exactly when two can |
| Voting.dfy, Messages.dfy, Agreement.dfy, Consensus.dfy, VoteKeys.dfy | vote counting, which messages weigh, one node's BA\* run, agreement across nodes, the vote store |
| Reductions.dfy, Decisions.dfy, DecisionRuns.dfy | exactly when reduction leaves one block, and when decisions agree |
| Finality.dfy, FinalRuns.dfy | exactly when final consensus excludes other decisions |
| Binomial.dfy, Sortition.dfy | the memoised binomial, interval search, priorities, acceptance of proposals |
| Merkle.dfy, MerkleBinding.dfy | construction and paths, when two lists have one root |
| Chain.dfy, Sync.dfy | block store, iterator, rounds and seeds, conversion and catch-up |
| LinkedLists.dfy, TxQueue.dfy, Pool.dfy, Replicas.dfy | sentinel lists, the sorted queue, packing, keeper and follower |
| Scan.dfy, TableIndex.dfy, Lru.dfy, Tiers.dfy, Cache.dfy, Evictions.dfy | the reference scan, the per-table index, the recency lists, the four-tier lookup, the lookup under arbitrary evictions |
| Bytes.dfy, SetSums.dfy, Folds.dfy, Wrappers.dfy | byte encodings, sums over sets, folded predicates, results |

Where the code departs from its comments or from the paper it follows, the model does what the code does: the
third stage of a binary pass does not advance the step; a count with votes below the threshold is no timeout;
the walk by round stops at round 1; an index entry is removed at its third access; a list may hold maxSize + 1
entries. The one exception is the unlinking line of the two toTail methods, modelled both as meant and as
written. Rows that begin with "limit" state, by
example or by an equivalence, where a promise ends.

## Model

| member | source | states |
|---|---|---|
| Raft.ElectionSafety | Raft/raft.go:164-199 | for every membership and every interleaving of candidacies and votes (test and write apart), late or lost requests and replies, election timeouts, confirmations and heartbeats, in which no node tests while another test of its own is pending and no heartbeat times out: at most one node is leader, and every node that believes in a leader believes in that one |
| Leaders.OneLeaderIff | Raft/raft.go:140-235 | for every cluster, and every choice of nodes that may lapse (test for a vote over another pending vote, test over a pending candidacy or for one over a pending vote, run into a heartbeat timeout): no run ever has two leaders if and only if no node may lapse, or there is one node, or there are two and one of them neither tests over a candidacy nor times out |
| Raft.RunKeepsInv | Raft/raft.go:140-199 | the invariant behind it (each voter bound by one ballot, each counter equal to own vote plus distinct counted ballots, each believed leader a real one, each pending test still true) holds after every such run |
| Raft.StepKeepsInv | Raft/raft.go:140-199 | every single step of such a run keeps the invariant behind election safety |
| Raft.AtMostOneLeader | Raft/raft.go:182-197 | two winners would share a voter, because each has a majority |
| Raft.NeverCountedTwice | Raft/raft.go:177-182 | a vote counted for one candidate is never, then or later, counted for another, and a counter is the own vote plus the peers counted |
| Raft.RunKeepsBallots | Raft/rpc.go:93-103 | a vote once granted stays granted to the same candidate through every such run |
| Raft.KnownLeaderStays | Raft/rpc.go:62-91 | in every such run a node that knows the leader goes on knowing the same one |
| Raft.LeaderSilences | Raft/rpc.go:62-91 | a node that has heard of a leader neither stands nor votes nor wins; a confirmation takes back vote and candidacy, a heartbeat nothing, and a heartbeat timeout makes the node as free as at the start |
| Raft.TermCounts | Raft/raft.go:140-162 | over any run a node's term grows by exactly its own candidacies |
| Leaders.ElectableIffPeers | Raft/raft.go:164-199 | a node can be elected by some run if and only if the cluster has at least two members |
| Leaders.PeersSuffice | Raft/raft.go:164-199 | with two or more members a concrete run elects any chosen node |
| Leaders.LoneNodeNeverLeads | Raft/raft.go:174-197 | a cluster of one never elects itself: the winning test runs only on a reply |
| Leaders.InterleavedVotesElectTwo | Raft/rpc.go:93-103 | limit, in every cluster of three or more: one node that tests a vote request while another of its votes waits to be written is enough for two leaders |
| Leaders.StaleCandidacyElectsTwo | Raft/raft.go:140-162 | limit, in every cluster of three or more: so is one node that votes between the test and the writes of its own candidacy |
| Leaders.HeartTimeoutAllowsTwo | Raft/raft.go:220-235 | limit, in every cluster of three or more: so is one node that has had a heartbeat and runs into the timeout, which forgets its vote and its leader |
| Raft.RaftNode.constructor | Raft/raft.go:37-54 | a new node is in the fresh state the machine boots from |
| Raft.RaftNode.BecomeCandidate | Raft/raft.go:140-162 | stands exactly if follower, leaderless and not yet voting, stated on the fields; the new fields are those of the machine step |
| Raft.RaftNode.OnReply | Raft/raft.go:177-197 | one turn of the election loop is the machine step that takes a reply; true exactly if the counted votes reach a majority and no leader is known |
| Raft.RaftNode.ReDefault | Raft/raft.go:118-122 | the reset of vote, votedFor and state used by timeouts and confirmations |
| Raft.RaftNode.AnswerVoteRequest | Raft/rpc.go:93-103 | grants exactly if no vote given and no leader known; the new fields are those of the machine step |
| Raft.RaftNode.ConfirmationLeader | Raft/rpc.go:73-91 | accepts the leader, resets the election fields, and leaves the accounting flag on exactly the entries with the leader's address |
| Raft.RaftNode.HeartBeatResponse | Raft/rpc.go:62-71 | records leader and time and nothing else |
| Raft.RaftNode.HeartTimeoutDetection | Raft/raft.go:220-235 | ends the epoch exactly after heartBeatTimeout seconds of silence |
| Voting.CountVotes | algorand/algorand.go:455-495 | the counting loop returns the outcome specified over the ballots: timeout, quorum for a hash, neither, or a crash on a hash shorter than its 32-bit index; a hash it returns was voted for by a signed message on the tail with sub-users |
| Messages.QuorumNeedsMessages | algorand/algorand.go:523-545 | a quorum comes from messages: one signed and on the tail is for the hash, and the keys of such messages that share its first four bytes weigh the threshold |
| Messages.MessagesDecide | algorand/algorand.go:455-545 | when no key contradicts itself and hashes are told apart: a quorum is for a hash whose signed messages on the tail come from keys of the threshold weight, and without one no hash has that |
| Messages.MessagesMakeQuorum | algorand/algorand.go:455-545 | messages for one hash make a quorum for it if and only if the keys of the signed ones on the tail weigh the threshold |
| Messages.OthersChangeNothing | algorand/algorand.go:523-545 | unsigned messages, those on another chain and those without sub-users change nothing |
| Messages.TwoMessages | algorand/algorand.go:523-545 | two signed votes of different keys pass a threshold of two on their own chain and nothing on another |
| Voting.CountsAreDistinctWeights | algorand/algorand.go:474-485 | each key counts once: a counter is the summed weight of the distinct keys whose first usable ballot has that index |
| Voting.QuorumHasWeight | algorand/algorand.go:487-488 | a returned hash was voted for and distinct keys of at least the threshold weight stand behind its index |
| Voting.QuorumNeedsWeight | algorand/algorand.go:474-488 | whatever the ballots claim, up to a bound on each key, a quorum needs keys whose bounds add up to the threshold |
| Voting.WeightGivesQuorum | algorand/algorand.go:487-488 | an index that reaches the threshold makes the count return some hash |
| Voting.OutcomeMeaning | algorand/algorand.go:464-495 | when keys do not contradict themselves and hashes differ in their first four bytes: which outcome occurs says exactly whether some hash is backed by the threshold |
| Voting.OrderIndependentIff | algorand/algorand.go:474-492 | the outcome is the same for every order of arrival if and only if at most one hash reaches the threshold |
| Voting.ScarceWeightOneWinner | algorand/algorand.go:487-488 | total weight below twice the threshold leaves at most one such hash |
| Voting.SharedPrefixPoolsVotes | algorand/algorand.go:483-484 | limit: hashes that share their first four bytes pool their votes, so two single votes pass for a quorum of two |
| Voting.DeliveriesAgreeIff | algorand/algorand.go:455-495 | receivers of whatever parts of the votes, in whatever orders, agree on every quorum if and only if at most one hash reaches the threshold among all votes |
| Voting.TwiceThresholdSplits | util/parameter.go:17-20 | limit: with the shipped thresholds two pairs of votes for two hashes give two receivers different quorums, and so both hashes reach the threshold |
| Bytes.IndexIsPrefix | util/util.go:83-91 | the 32-bit index tells two hashes apart exactly by their first four bytes |
| Bytes.IndexLaw | util/util.go:83-91 | the index is the signed 32-bit number with the first four bytes, the first counting most |
| Bytes.Int64Law | algorand/peer.go:219-222 | the signed form of a round is the number of 64 bits with the same bits |
| Agreement.Reduction | algorand/algorand.go:370-395 | the two counts and votes of reduction are the first two steps of the node machine |
| Agreement.Pass | algorand/algorand.go:408-446 | one pass of the binary loop, with its votes, is up to three steps of the node machine; the third stage leaves the step number as it is |
| Agreement.BinaryBA | algorand/algorand.go:398-452 | the whole loop is a run of the node machine that ends in a decision, a crash or the hang, after at most 18 counts |
| Agreement.VoteAhead | algorand/algorand.go:415-417 | a deciding node votes for the next three steps |
| Agreement.BinarySchedule | algorand/algorand.go:398-452 | over every sequence of count outcomes: stages and steps keep their schedule, votes use the steps 1 to 15 and FINAL only, and FINAL is voted exactly if the first count decides |
| Agreement.DecisionReason | algorand/algorand.go:411-434 | a decision for another value than the empty hash falls at an odd step, one for the empty hash at an even step, each on a count that gave that value |
| Agreement.HangsIff | algorand/algorand.go:398-452 | for every sequence of count outcomes: the loop is still undecided after k counts, and hangs after 18, if and only if none of them crashed, each first stage timed out or gave the empty hash, and each second stage timed out or gave another |
| Agreement.VoteLaw | algorand/algorand.go:398-446 | for every sequence of counts: each count that decides nothing is followed by one vote, for the next step or after a third stage for the same step again; it carries the count's hash, nil without quorum, and after a timeout the hash of reduction, the empty hash, or whichever the coin says, by stage |
| Agreement.DecisionLaw | algorand/algorand.go:411-434 | the count that decides is followed by votes for its value at the next three steps, and on the very first count by a final one |
| Agreement.ReductionLaw | algorand/algorand.go:370-395 | reduction votes for the proposal, then for what the first count gave or the empty hash after a timeout, and hands on what the second gave or the empty hash |
| Agreement.FinalLaw | algorand/algorand.go:343-367 | final consensus is reported exactly if the final count gives the hash decided |
| Agreement.NoQuorumDecidesNil | algorand/algorand.go:398-495 | limit, for every sequence of count outcomes: the loop decides the nil hash on a count if and only if no count before decided, and this one, a first stage (a second one where the empty hash is nil itself), was no timeout and gave no hash |
| Consensus.ReductionAgreement | algorand/algorand.go:370-395 | for all nodes, all deliveries and all Byzantine ballots, Byzantine weight below every threshold and at most one hash common: reduction yields the empty hash or one hash common to all nodes; nil only where counts may end without quorum |
| Reductions.ReductionAgreesIff | algorand/algorand.go:370-395 | over all runs reduction leaves at most one block if and only if no two blocks can both win the first step and be carried over the second by disjoint honest keys of enough weight |
| Consensus.DecisionAgreement | algorand/algorand.go:398-434 | where at most one hash is common: two honest nodes never decide two different blocks, and whatever is decided is the common hash, the empty hash, or nil where counts may end without quorum |
| DecisionRuns.DecisionsAgreeIff | algorand/algorand.go:370-446 | over all runs no two nodes decide different blocks if and only if the weights do not let them part: reduction can divide between two blocks, the holders of one carry it at an odd step, alone or with all who see their quorum one step before, and so do the holders of the other, at the same step, or later without one node that has decided |
| DecisionRuns.SafeIff | algorand/algorand.go:343-452 | exactly when a round is safe, over all runs: no two different blocks are decided and nothing but nil beside a final block, if and only if the weights let it neither part nor split |
| DecisionRuns.ReductionDecides | algorand/algorand.go:370-446 | where reduction always leaves at most one block, decisions always agree |
| Decisions.RunKeepsGrounded | algorand/algorand.go:398-446 | every run of the round keeps: a decider saw a quorum for its block at an odd step and votes for nothing else after; a vote for a block is its holder's, or follows a quorum or a decision |
| Consensus.FinalConsensus | algorand/algorand.go:343-367 | a node that reports final consensus on a hash agrees with every other such node; the hash is not the empty one and some honest node decided it at step 1 |
| FinalRuns.FinalExcludesIff | algorand/algorand.go:343-452 | where decisions on blocks agree: over all runs, final consensus on a block excludes every other decision (nil aside) if and only if the weights do not let the round split: no keys can go final on a block while the others decide the empty hash at an even step, on their own or turned by a quorum one step before |
| FinalRuns.FinalIsAll | algorand/algorand.go:343-452 | then, where every count without quorum is a timeout, the final hash is what every deciding node decides |
| FinalRuns.OutweighingExcludes | algorand/algorand.go:343-452 | it suffices that whatever honest keys can go final leave too little weight for the empty hash at every even step |
| FinalRuns.FinalBesideEmpty | algorand/algorand.go:343-367 | limit: a round of two honest nodes within the weight bound that can split |
| Finality.RunKeepsTraced | algorand/algorand.go:343-452 | every run of the round keeps: a final voter saw a quorum at step 1 and votes for nothing else; a vote for the empty hash at an even step comes from reduction or from a quorum one or two steps before |
| Consensus.RunKeepsInv | algorand/algorand.go:343-452 | every run of the round keeps: after the first reduction step nodes hold and vote only allowed hashes |
| Consensus.FirstQuorumIsCommon | algorand/algorand.go:377-388 | a quorum of the first reduction step is for the hash that honest proposers plus Byzantine weight can carry over the threshold |
| FinalRuns.FirstQuorumIff | algorand/algorand.go:377-388 | a hash can win the first reduction step in some run if and only if it is common |
| Consensus.CommonUnique | algorand/algorand.go:377-388 | honest weight plus twice the Byzantine weight below twice the threshold leaves at most one such hash |
| Consensus.QuorumHasHonestVote | algorand/algorand.go:474-492 | a quorum of any step contains a vote an honest node cast for that very hash |
| Consensus.RunKeepsFinalInv | algorand/algorand.go:415-421 | final votes come only from nodes that decided at step 1 |
| VoteKeys.KeyTellsStepsApart | algorand/peer.go:219-222 | within a round, two steps have the same vote key only if they are the same |
| VoteKeys.KeyTellsRoundsApart | algorand/peer.go:219-222 | at one step, two rounds have the same vote key only if they are the same |
| VoteKeys.VoteKeyIff | algorand/peer.go:219-222 | for all rounds and steps: two votes share a key if and only if the signed rounds have one sign and the digits of round and step, one after the other, make one number; a negative step is told apart |
| VoteKeys.KeysCollideAcrossRounds | algorand/peer.go:219-222 | limit: step 11 of round 1 shares its key with step 1 of round 11, and the first reduction step of round 1 with step 1 of round 1100 |
| VoteKeys.KeyTellsApart | algorand/peer.go:219-222 | steps of equally many digits, such as 1 to 9 or the reserved ones, are told apart in whatever round |
| VoteKeys.VoteStore.Handle | algorand/peer.go:111-131 | a received vote is filed, unseen, under the key of the round and step it claims |
| VoteKeys.VoteStore.Inbox | algorand/algorand.go:460-464 | a count reads the votes filed under its key, in order of arrival |
| VoteKeys.InboxPureIff | algorand/peer.go:111-131 | a count goes through exactly the votes of its own step if and only if no vote heard has another round or step whose digits make the same number |
| VoteKeys.OneRoundIsPure | algorand/peer.go:111-131 | while all votes heard are of one round a count goes through exactly the votes of its step |
| Binomial.RegularBinomial.Exp | util/binomial.go:94-131 | terminates and is x to the y for every y, through the split at the square root and whatever the caches hold |
| Binomial.RegularBinomial.Prob | util/binomial.go:178-199 | is C(N,k) pn^k (pd-pn)^(N-k) / pd^N, after any earlier calls |
| Binomial.MassLaw | util/binomial.go:178-199 | the law that fixes the distribution: its value at 0, and the odds (N-k)pn to (k+1)(pd-pn) from k to k+1 successes |
| Binomial.RegularBinomial.CDF | util/binomial.go:133-176 | is the sum of those up to j, 0 below and 1 from N on, whichever sums are cached and in whichever order the terms arrive |
| Binomial.CumulativeLaw | util/binomial.go:133-176 | each sum is the one before plus the next probability, 0 below and 1 from N on |
| Binomial.RegularBinomial.ResDenom | util/binomial.go:205-212 | is pd^N, cached or not |
| Binomial.RegularBinomial.NearestCached | util/binomial.go:146-157 | the walk down stops at the nearest cached sum below j, with no cached one in between, or at 0 |
| Binomial.RegularBinomial.Drain | util/binomial.go:165-172 | terms added in any order of arrival give the same sum |
| Binomial.BinomialTheorem | util/binomial.go:178-199 | (a + b)^n is the sum of all terms |
| Binomial.FullMassIsOne | util/binomial.go:137-139 | the full sum is exactly 1, so returning 1 from N on is consistent |
| Binomial.CumulativeMonotone | util/binomial.go:133-176 | for a probability the sums rise from 0 to at most 1 |
| Sortition.ApproxBinomial.Prob | util/binomial.go:56-69 | is expected^k / k! times the scale, cached or not |
| Sortition.MassLaw | util/binomial.go:56-69 | the law that fixes the distribution: the scale at 0, and from k to k+1 the factor expected / (k+1) |
| Sortition.ApproxBinomial.CDF | util/binomial.go:39-54 | is the partial sum up to k, 0 below and 1 from the weight on |
| Sortition.CdfLaw | util/binomial.go:39-54 | each value is the one before plus the next probability, 0 below and 1 from the weight on |
| Sortition.SubUsers | algorand/algorand.go:585-613 | the search returns the first interval that holds the fraction, else 0; for a fraction in [0,1) it selects j with CDF(j) at most the fraction and the fraction below CDF(j+1) |
| Sortition.SelectionMeaning | algorand/algorand.go:594-612 | 0 exactly below CDF(1), otherwise the one interval that holds the fraction, and below any positive weight, even where the partial sums overshoot 1 |
| Sortition.SelectionMonotone | algorand/algorand.go:594-612 | a larger fraction never selects fewer |
| Sortition.SameSelectionIff | algorand/algorand.go:585-613 | two weights select alike if and only if the fraction is below the heavier CDF at the lighter weight |
| Sortition.FractionInRange | algorand/algorand.go:589-591 | a VRF output of at most 32 bytes is a fraction in [0,1) |
| Sortition.LeadingByte | algorand/algorand.go:589-591 | of a 32-byte output the first byte decides the fraction to within 1/256 |
| Sortition.MaxPriority | algorand/algorand.go:572-582 | the loop computes the specified maximum |
| Sortition.MaxPriorityMeaning | algorand/algorand.go:572-582 | the result is the greatest of the sub-users' priorities in byte order, and empty without sub-users |
| Sortition.MaxPrioritySameIff | algorand/algorand.go:572-582 | more sub-users leave it unchanged if and only if none of the extra ones beats it |
| Sortition.Verify | algorand/message.go:95-109 | accepts exactly if the recomputed maximum is the announced one; the VRF check is left out |
| Sortition.AcceptanceIff | algorand/message.go:95-109 | for every announced proof: a receiver with another weight accepts what the sender announced if and only if no sub-user that only one of them counts has a higher priority, in particular for a fraction in [0,1) below the heavier CDF at the lighter weight |
| Sortition.CompareTransitive | algorand/message.go:104-104 | byte comparison is transitive; with antisymmetry it is the order the maxima are taken in |
| Sortition.CompareAntisymmetric | algorand/message.go:104-104 | byte comparison is antisymmetric and 0 only for equal strings |
| Sortition.CompareIsNumeric | algorand/message.go:104-104 | on strings of one length the order is that of the numbers they encode, the first byte counting most |
| Sortition.ComparePrefix | algorand/message.go:104-104 | a string comes before its continuations |
| Sortition.GetMaxProposal | algorand/peer.go:199-211 | the last of the proposals of highest priority; a panic exactly on an empty list |
| Sortition.PickIgnoresOrder | algorand/peer.go:199-211 | nodes that hold the same proposals in different orders pick the same one, unless two share a priority |
| Merkle.GetMerkleRoot | MerkleTree/merkel.go:22-41 | builds, for every non-empty list, nodes that show the specified tree; its hash is the tree's root |
| Merkle.NextLevel | MerkleTree/merkel.go:49-72 | one level up: parents of neighbours, the copy of an odd last node stripped of its children afterwards |
| Merkle.CopyIsBare | MerkleTree/merkel.go:49-72 | the last parent of an odd level has the last node on its left and a copy without children on its right |
| Merkle.GetMerkleNode | MerkleTree/merkel.go:43-75 | terminates with the root of the specified tree |
| Merkle.RootCarriesRootHash | MerkleTree/merkel.go:22-75 | the root hash is a function of the data alone |
| MerkleBinding.RootsEqualIff | MerkleTree/merkel.go:22-75 | over all pairs of non-empty lists, short of a collision among the hashed strings: roots are equal if and only if the higher tree's hashes at the lower one's height, with every odd level completed, are the lower one's completed leaf hashes |
| MerkleBinding.SameHeightIff | MerkleTree/merkel.go:22-75 | for trees of equal height: roots are equal if and only if the completed lists are |
| MerkleBinding.MerkleBinding | MerkleTree/merkel.go:22-75 | for lists of equal length: roots are equal if and only if the lists are |
| MerkleBinding.CompletionTwin | MerkleTree/merkel.go:49-57 | limit: a list and its completion at every odd level have the same root, whatever the hash |
| MerkleBinding.OddListTwin | MerkleTree/merkel.go:26-29 | limit: an odd list and that list with its last element repeated have the same tree |
| MerkleBinding.SixIsEight | MerkleTree/merkel.go:49-57 | limit: six strings and those eight that repeat the last two have the same root |
| MerkleBinding.JoinedLeavesTwin | MerkleTree/merkel.go:22-66 | limit: a list has the root of the shorter list of its leaves' joined hashes, leaves and inner nodes being hashed alike |
| Merkle.GetNodeProve | MerkleTree/merkel.go:92-115 | the recursive search is the specified depth-first search |
| Merkle.GetProve | MerkleTree/merkel.go:77-91 | an error exactly for empty data, otherwise the search for the datum's hash |
| Merkle.ProofIffHashed | MerkleTree/merkel.go:77-115 | a path is returned if and only if the datum's hash is the hash of a string that went into the tree |
| Merkle.ProofIsPath | MerkleTree/merkel.go:92-115 | a returned path starts at the root hash, steps from parent to child, and ends at the datum's hash |
| Merkle.SearchIsFirst | MerkleTree/merkel.go:92-115 | the path is that to the first node with the hash, parents before children and left before right, and lists the data on the way |
| Merkle.MembersHaveProofs | MerkleTree/merkel.go:68-75 | every non-empty member has a path, although copied nodes lose their children |
| Merkle.OutsidersHaveNone | MerkleTree/merkel.go:77-115 | a string that was not hashed for the tree has none, unless its hash collides |
| Merkle.JoinedHashesPassForMember | MerkleTree/merkel.go:59-61 | limit: leaves and inner nodes are hashed alike, so two neighbours' joined hashes are taken for a member |
| Merkle.LevelsIsLog | MerkleTree/merkel.go:43-75 | the number of levels is the binary logarithm of the leaf count, rounded up |
| Merkle.MemberPathLength | MerkleTree/merkel.go:92-115 | a member's path has one hash more than there are levels over the padded leaves, if its hash occurs at no inner node |
| Chain.BlockChain.AddBlockToChain | blockchain/blockchain_data/blockchain.go:92-113 | stores the block under its hash and makes it the tail, unchecked; a block that extends the chain makes the chain one longer |
| Chain.BlockChain.CreateIterator | blockchain/blockchain_data/blockchain.go:122-124 | starts behind the tail |
| Chain.Iterator.Next | blockchain/blockchain_data/blockchain.go:126-144 | yields the blocks newest first; a hash that is not stored is a panic |
| Chain.PrefixLinked | blockchain/blockchain_table/blockchain.go:90-111 | every block of a chain extends the chain before it |
| Chain.GetByRound | blockchain/blockchain_data/util.go:62-87 | terminates on consecutive rounds and finds the last round and all from 2 on, misses 0 and 1 (unless last, or 0 with last round 1), and is nil above |
| Chain.SortitionSeed | algorand/algorand.go:124-136 | is the specified seed, or a panic on a nil block |
| Chain.SeedMeaning | algorand/algorand.go:124-136 | the fixed seed below R, later the seed of the last block of the window before; the lookup fails exactly for round 0 and for windows whose seed block does not exist yet |
| Chain.SeedConstantInWindow | algorand/algorand.go:124-136 | all rounds of a window, on any two chains one of which extends the other, use one seed |
| Sync.DataBlockOverWire | GRPC/util.go:23-46 | a data block keeps everything but author, seed, proof, type and signature; it survives exactly if those were empty |
| Sync.TableBlockOverWire | GRPC/util.go:48-118 | a table block survives conversion unchanged |
| Sync.WireShowsChain | GRPC/util.go:23-46 | on the wire a block names the block before it exactly if it does in the chain |
| Sync.WireShowsTransactions | GRPC/util.go:23-118 | transactions travel one for one, each part under its own name |
| Sync.SeedLostOverWire | GRPC/util.go:71-94 | consequence: a node that received the seed block uses the empty seed, and agrees with the author only if the seed was empty |
| Sync.CollectMissing | GRPC/service.go:53-69 | everything newer than the asked-for hash, newest first; a panic exactly if the chain has no such block |
| Sync.SamePast | GRPC/util.go:373-410 | chains that share a hash share its whole past, at the same places |
| Sync.AppendReply | GRPC/util.go:396-404 | appended in reverse, each block extends the receiver's chain at that moment |
| Sync.Synchronise | GRPC/util.go:373-449 | if the receiver's tail lies on the sender's chain the receiver ends with the sender's chain of hashes and the converted blocks; if not, the sender panics and nothing changes |
| LinkedLists.LinkedList.Link | txpool/txpool_table.go:54-57 | linking in behind a node keeps a well-formed doubly linked list and inserts its value there |
| LinkedLists.LinkedList.UnlinkAt | txpool/txpool_table.go:66-67 | unlinking keeps it well-formed and removes just that value |
| LinkedLists.LinkedList.DropFront | txpool/txpool_table.go:143-144 | cutting off the front links the head to the first node that stays |
| TxQueue.TxQueue.FindPlace | txpool/txpool_table.go:47-52 | the walk from the tail stops behind the last transaction that is not younger |
| TxQueue.TxQueue.In | txpool/txpool_table.go:40-61 | inserts by timestamp, behind equals; the list stays sorted whatever the id, and map and list match afterwards if and only if the id is new |
| TxQueue.TxQueue.TxIn | txpool/txpool_table.go:160-175 | refuses exactly when maxSize transactions wait, and never exceeds it |
| TxQueue.TxQueue.Out | txpool/txpool_table.go:63-71 | takes the transaction with this id out of list and map; an absent id is a nil dereference, reported |
| TxQueue.TxQueue.UnmapFront | txpool/txpool_table.go:120-128 | the first n transactions, in order, leave the map |
| TxQueue.TxQueue.TakeFront | txpool/txpool_table.go:120-144 | removes the first n and returns them; list, map and size stay matched |
| TxQueue.TxQueue.MapIds | txpool/txpool_table.go:19-25 | in every valid queue the map knows exactly the waiting ids, each once |
| TxQueue.InsertKeepsSorted | txpool/txpool_table.go:47-52 | insertion keeps a queue sorted |
| TxQueue.InsertElements | txpool/txpool_table.go:47-52 | insertion adds exactly the new transaction |
| Pool.Pool.CountMature | txpool/txpool_table.go:108-115 | the count is the number of leading transactions older than the cutoff |
| Pool.MatureSplits | txpool/txpool_table.go:108-115 | the count splits a sorted queue into the transactions older than the cutoff and the others |
| Pool.Pool.PackOne | txpool/txpool_table.go:120-144 | one block of packNumber transactions from the front, with the next id, naming the tail there was as its predecessor and becoming the tail |
| Pool.Pool.BookKeeperRun | txpool/txpool_table.go:101-148 | terminates; the blocks are the specified packing of the mature front and the queue is the rest; block i has packNumber transactions, the id lastID + i, and names the tail there was or the hash of block i-1; a valid chain grows by exactly these blocks if their hashes are new to it and to each other |
| Pool.PackedMeaning | txpool/txpool_table.go:117-147 | the blocks hold the packed transactions in order, n each, none lost, none twice, numbered and each naming the hash before it |
| Pool.PackedPieces | txpool/txpool_table.go:117-147 | block i holds the ith n transactions |
| Pool.SealedGrow | txpool/txpool_table.go:117-147 | blocks numbered and chained behind a chain's tail, with new hashes, make a longer chain |
| Pool.PackingLeavesFew | txpool/txpool_table.go:101-148 | there are (mature / n) blocks, all they hold is older than the cutoff, blocks and rest are the queue there was, and mature mod n mature ones stay |
| Pool.Pool.AddBlock | txpool/txpool_data.go:143-147 | a produced block has the next id, the transactions given and the tail there was as predecessor, and becomes the tail; a valid chain grows by it if its hash is new; so in the own-author branch of the data pool as in the table pool |
| Pool.Pool.OrdinaryRun | txpool/txpool_table.go:150-158 | goes through exactly if every transaction of the block still waits at its turn, and then leaves the queue without them |
| Replicas.PresentIff | txpool/txpool_table.go:150-158 | an ordinary node's run over a block goes through if and only if the block's ids are distinct and all of them wait |
| Replicas.RemoveAllIsWithout | txpool/txpool_table.go:150-158 | an ordinary node's run leaves the queue without the block's ids, in order |
| Replicas.InsertStable | txpool/txpool_table.go:47-52 | insertion is stable: a transaction goes behind those of its timestamp |
| Replicas.SortedDetermined | txpool/txpool_table.go:40-61 | a sorted queue is determined by the order within its timestamps |
| Replicas.RunKeepsInv | txpool/txpool_table.go:101-175 | in every interleaving of arrivals on both sides, packing and delivery of blocks, each queue is, sorted, what arrived without what left |
| Replicas.NothingLost | txpool/txpool_table.go:101-158 | after any run each side holds exactly what it accepted and has not seen packed, nothing twice |
| Replicas.ReplicasAgreeIff | txpool/txpool_table.go:101-158 | once the follower has seen every block, the queues are equal if and only if the rest arrived on both sides in the same order within each timestamp |
| Replicas.ReplicasConverge | txpool/txpool_table.go:101-158 | same accepted transactions and same blocks seen give the same multiset, and the same queue when timestamps are distinct |
| Replicas.DropWorksIff | txpool/txpool_table.go:150-158 | a follower survives the next block if and only if it has accepted all its transactions |
| Scan.NewestIn | cache/cache.go:101-110 | the running choice inside a block is the specified newest transaction |
| Scan.NewestMeaning | cache/cache.go:101-110 | the newest transaction is the first of those with the greatest timestamp, and there is none exactly if no timestamp of the id is positive |
| Scan.GetInBoltDb | cache/cache.go:85-116 | the whole-chain walk terminates and is the reference scan over all blocks but genesis |
| Scan.LookupMeaning | cache/cache.go:85-116 | the reference finds the newest transaction of the newest block with a positively stamped one of the id, and nothing exactly if no block has any |
| Scan.HistoryMeaning | cache/table-chain.go:201-233 | a history is every transaction of the id in the blocks, once each, newest block first and inside a block in its order |
| Scan.TableSuffices | cache/table-chain.go:157-233 | the blocks of an id's own table give the same lookup and the same history as the whole chain |
| Scan.HistoryIff | cache/table-chain.go:201-233 | a table's blocks give the whole history of an id if and only if each block that mentions the id is one of them |
| Scan.DataIDsMeet | blockchain/blockchain_data/transaction.go:47-55 | two data ids are equal if and only if one name, with the mark, begins the other and the keys make up for the difference |
| Scan.ShareIDIff | blockchain/blockchain_data/transaction.go:47-55 | two tables can share a data id if and only if one name, with the mark, begins the other |
| Scan.DataIDTellsTable | blockchain/blockchain_data/transaction.go:47-55 | between tables whose names do not clash so, a data id determines table and key |
| Scan.TableOfDataID | blockchain/blockchain_data/transaction.go:47-55 | where no other name of the chain clashes with a table's, the transactions that carry one of its ids are its own |
| Scan.IdsTellTableIff | blockchain/blockchain_data/transaction.go:47-55 | a table's ids are carried by its own transactions alone, on every chain over given tables, if and only if none of their names clashes with it |
| Scan.DashesAlone | blockchain/blockchain_data/transaction.go:47-55 | limit: "a" and "a-QAQ-b" clash and share an id; a dash alone, as in "user" and "user-info", does no harm |
| TableIndex.CreateLists | cache/table-chain.go:57-79 | a new bucket is well-formed if and only if the table's name is not the first numeric key |
| TableIndex.PutLists | cache/table-chain.go:115-128 | an append keeps the numbering if and only if the name is not the next numeric key |
| TableIndex.TableIndex.CreateBucket | cache/table-chain.go:57-79 | a second bucket of a name, an empty name and the name of the chain's own bucket are panics; otherwise an empty list, well-formed exactly if the name is not the first numeric key, and mirroring the chain exactly if no block mentions the table |
| TableIndex.TableIndex.UpdateBucket | cache/table-chain.go:99-131 | one more hash at the end unless it is the last one, and the bucket stays well-formed exactly if the name is not the next numeric key; a missing bucket ends the process |
| TableIndex.TableIndex.UpDateByData | cache/table-chain.go:133-137 | goes through exactly if every table of the block has a bucket; the lists are those after entering transaction by transaction |
| TableIndex.EnteredOnce | cache/table-chain.go:133-137 | a block ends up once in the list of each table it mentions, however often, and in no other |
| TableIndex.TableHashesGrow | cache/table-chain.go:133-137 | entering a new block keeps a list equal to the filtered chain |
| TableIndex.IndexMirrorsChain | cache/table-chain.go:57-137 | after any run of table creations and blocks each list is, in chain order, the hashes of the blocks behind genesis with a transaction of the table |
| TableIndex.WalkForNewest | cache/table-chain.go:157-199 | the walk down the numeric keys terminates at the root entry and is the scan over the listed blocks |
| TableIndex.WalkForAll | cache/table-chain.go:201-233 | the history walk gives every transaction of the id, newest block first |
| TableIndex.TableIndex.GetInTableHashChain | cache/table-chain.go:157-199 | on an index that mirrors the chain it is the scan over the table's blocks; a missing bucket is a panic |
| TableIndex.TableIndex.GetHistoryInTableHashChain | cache/table-chain.go:201-233 | on an index that mirrors the chain it lists every transaction of the id in the table's blocks, newest block first, an error if there is none; a missing bucket is a panic |
| Bytes.Uint64RoundTrip | util/util.go:36-81 | eight-byte keys decode to the number they encode |
| Lru.Lru.QueueIn | cache/cache_lru.go:86-142 | appends as most recently used after dropping the oldest if more than maxSize are held; list, map and size stay matched and at most maxSize + 1 |
| Lru.Lru.ToTail | cache/cache_lru.go:144-186 | moves the entry to the end, counting the access for an index entry; everything else keeps its order (with the unlinking line as checkDel has it) |
| Lru.Lru.ToTailAsWritten | cache/cache_lru.go:144-186 | limit: with the line as written the back pointers survive if and only if the entry was the last one already; map and contents change only in the entry's access count |
| Lru.Lru.CheckDel | cache/cache_lru.go:188-203 | removes an index entry exactly on its third access |
| Lru.Lru.Get | cache/cache_lru.go:205-252 | finds exactly the listed ids |
| Lru.Lru.Update | cache/cache_lru.go:259-269 | overwrites one entry in place and moves nothing |
| Lru.Lru.MapKeys | cache/cache_lru.go:27-43 | in every valid list the map knows exactly the listed ids, each once |
| Tiers.CacheRefinesScan | cache/cache.go:45-131 | for every interleaving of reads and new blocks: whichever of the four tiers answers, the answer is what a scan of the whole chain finds; both lists keep distinct and disjoint keys, their sizes, counts of one or two, and the order of last access. Reads that go past the lists name a table that leads to the id's newest transaction; a block's last word wins on the listed ids |
| Tiers.ReadsRight | cache/cache.go:45-83 | in every state with the invariant a read whose id is listed, or whose table leads to the newest transaction, answers like the scan |
| Tiers.ScannedIff | cache/cache.go:64-80 | tiers three and four find what the whole chain holds if and only if the newest block with the id is a block of the table named, or no earlier block of that table has the id; otherwise they find it in another block |
| Tiers.OwnTableLeads | cache/cache.go:64-71 | naming the id's own table always leads to its newest transaction |
| Tiers.ReadKeepsInvIff | cache/cache.go:45-83 | a read keeps every entry right and both lists in reading order if and only if the id is listed or the table named leads to its newest transaction |
| Tiers.BlockKeepsInvIff | cache/cache.go:127-131 | a new block keeps every entry right if and only if its transaction ids are distinct and its last transaction of each listed id is stamped positively and after the earlier ones |
| Tiers.FollowsIff | cache/cache_lru.go:254-270 | a block's last word on an id is what the scan takes from the block if and only if that transaction is stamped positively and after all earlier ones of the id |
| Tiers.WrongTableIsStale | cache/cache.go:64-71 | limit: a table that does not lead there, and the older transaction its reader is given |
| Evictions.AnyEvictionIsRight | cache/cache_lru.go:86-186 | over every run and every choice of evicted entries reads answer like the scan: with toTail as it is written only the order of eviction and the sizes suffer |
| Tiers.FirstRead | cache/cache.go:64-80 | the first read puts an id in the index list with count one |
| Tiers.NextRead | cache/cache.go:53-63 | the second read leaves it there with count two, the third moves it to the end of the transaction list |
| Tiers.EvictsOldest | cache/cache_lru.go:115-142 | a list over its size gives up the least recently read entry and no other |
| Tiers.CountTellsReads | cache/cache.go:53-63 | over any run in which an id stays indexed its count grows by exactly its reads and stays below three |
| Tiers.FetchedRight | cache/cache_lru.go:217-252 | an index entry leads to the very transaction the scan finds |
| Tiers.TxWithMeaning | cache/cache_lru.go:242-246 | of several transactions with the entry's id in its block the last one is taken |
| Cache.Fetch | cache/cache_lru.go:242-246 | picks the last transaction with the entry's id from its block |
| Cache.UpdateDataCache | cache/cache_lru.go:254-270 | both lists end as if every entry had followed the block's last word on it |
| Cache.ScanTiers | cache/cache.go:64-80 | table blocks first, then the whole chain; a table without a bucket is a panic |
| Cache.Cache.GetOneValue | cache/cache.go:45-83 | one read on the real lists is the machine step, and its answer is the scan's |
| Cache.Cache.UpdateByDataBlock | cache/cache.go:127-131 | refreshes both lists and enters the block under each of its tables |
| Cache.Cache.ReceiveBlock | txpool/txpool_data.go:145-149 | storing a block and telling the cache is the other machine step, and keeps the index mirroring the chain |
| Cache.Cache.GetHistoryValue | cache/cache.go:118-121 | the history of an id is the whole chain's, newest block first |
| Cache.NewCache | cache/cache.go:34-43 | a new cache is in the state the machine starts from |

## Left out

- Networking, gRPC servers and generated code, HTTP routes, file transfer, the command line and printing: no logic of their own.
- Cryptography and encodings (ECDSA, ed25519, VRF, SHA-256, MD5, AES, base58, gob, JSON): hashes are parameters or plain values, keys and addresses are numbers; that two hashes differ is assumed only where a statement says so.
- Clocks, timers, sleeps, mutexes and bolt transactions: times are parameters, methods run undisturbed, buckets are maps. In the Raft machine candidacy and vote have separate test and write steps; what each writes after its test, a win, a confirmation and a timeout are one step each, although the source takes a lock per field. GetOneValue moves list entries outside the lock its lookups take; here it is one step.
- Raft.ElectionSafety: nothing ties a vote to a term, so it does not survive heartbeat timeouts; Leaders.OneLeaderIff says which lapses it survives. After a timeout the source may run a second election loop beside one that is still running; the model has one loop a node.
- Raft.RaftNode.OnReply: the wait for the reply or the timeout is a step of the machine, not part of the method.
- Consensus.ReductionAgreement: the hypotheses (Byzantine weight below every threshold, at most one common hash, which Consensus.CommonUnique gives for scarce weight) are far from what the shipped parameters give, a threshold of 2 for an expected weight of 10. Beyond them Reductions.ReductionAgreesIff is exact for reduction, DecisionRuns.SafeIff for decisions and finality, and Voting.DeliveriesAgreeIff for a single count. That Byzantine weight alone reaches no threshold is assumed throughout.
- Consensus.DecisionAgreement: stated where at most one hash is common; DecisionRuns.DecisionsAgreeIff is exact. A ballot may weigh differently for each receiver, as a token drawn anew at each check makes it; the weights of a round bound what it may weigh.
- Consensus.FinalConsensus: compares final nodes with each other; FinalRuns.FinalExcludesIff says when no other decision stands beside them. A decision on nil, which a count without quorum leads to, is left aside there; Agreement.NoQuorumDecidesNil says when it happens.
- commonCoin (algorand/algorand.go:546-560): it reads a map nothing fills, so it is 0 in the code; the model takes any coin.
- Sortition.Verify: the VRF check is not modelled; TokenOwn and weight are parameters.
- Sortition.ApproxBinomial.Prob: the float for e to the minus the expectation is any real scale, and the power of e is not computed.
- Binomial.RegularBinomial.Exp: the float square root is the exact integer square root.
- Binomial.RegularBinomial.CDF: the goroutines are a set of pending terms taken in any order.
- BA after the decision (algorand/algorand.go:353-366), getBlock, vrfSeed, block proposal and gossip: block bodies are not tracked, only hashes.
- Merkle.GetMerkleRoot: the empty list is excluded, since the code indexes and recurses without end on it.
- Chain.GetByRound: stated for chains with consecutive rounds from 0; CheckDataBlock is left out.
- Sync.Synchronise: one accountant answers, and the receiver's chain does not change meanwhile; cache updates during catch-up are those of Cache.Cache.ReceiveBlock.
- TxQueue.TxQueue.In: an id that waits already leaves the older node unreachable from the map, as the contract says; the other operations are stated for matching maps.
- Pool.Pool.BookKeeperRun: the branch of the data pool for blocks of another author spins on a global flag (txpool/txpool_data.go:155-164), and a round without sub-users makes no progress; both are left out. The hash of a block is any function of its id.
- Pool.Pool.OrdinaryRun: after a missing transaction the process crashes, so nothing is said of the queue then.
- Lru.Lru.ToTail: the unlinking statement is p.next.pre = p.pre, which the written p.next = p.pre is taken to mean. As written, reads stay right (Evictions.AnyEvictionIsRight), while the order of eviction and the size bound are lost; a nil dereference the spoiled links may lead to is not modelled.
- Tiers.CacheRefinesScan: its guards are exact step by step: Tiers.ReadKeepsInvIff, Tiers.ScannedIff, Tiers.BlockKeepsInvIff and Tiers.FollowsIff.
- TableIndex.TableIndex.UpDateByData: tables whose names are not their next numeric key, and fewer than 2^64 entries; bolt's limit on the length of keys is left out; TableIndex.TableIndex.UpdateBucket says what happens otherwise.
- Permission tables, getTableData, loading at start-up, delRepeatElem, blockqueue and account management: not modelled.
