# Finality, commits and money in a sharded chain

A Dafny model of the parts of this node where a mistake would be expensive, with proofs of what they promise:

- **The finality gadget's vote accounting** (`core/finality-grandpa`). A *vote-graph* compresses the block tree: only blocks that were voted for are nodes, the blocks between them live in edges, and each node carries the votes at or above it combined. A *round* puts equivocation tracking, the prevote-GHOST, the finalized block and the round-estimate on top. Commits are validated by re-running a round, and a *voter* steps from round to round.
- **Waiting for blocks** (`core/crfg/src/until_imported.rs`): the buffer that holds commits back until every block they mention is imported, and the lock-free counter shared by a commit's handles.
- **Justifications** (`core/crfg/src/justification.rs`): producer and checker of ancestry proofs.
- **Money across shards** (`srml/yee-balances`, `srml/yee-pow`): imbalances, dust, fees, cross-shard transfers, delayed rewards.

## How it is laid out

| files | what they hold |
|---|---|
| `Wrappers`, `BlockTree`, `Votes` | shared types and functions; the block tree and its ancestry queries; votes as a commutative monoid and the plain weight of a block |
| `GraphSpec`, `GraphUpdates`, `GraphLoose`, `VoteGraph`, `GraphUnique` | what a vote-graph must be against the plain tree; each update as a value; what is left of it when blocks are inserted under wrong numbers; the mutable class; independence of the order of votes |
| `MergeSpec`, `Search`, `GhostProofs`, `GhostSearch`, `GhostRestart` | merge points inside edges and the GHOST search |
| `AncestorSearch`, `AncestorProofs`, `AncestorExact`, `AncestorExample`, `AncestorTooLow` | the search for a highest block below a given one, exactly when its answer is right, and where it goes wrong |
| `Voters`, `Ballots`, `Tally`, `Tracker`, `Bitfield` | weights and threshold; quorum arguments; votes as pairs of voter sets and their packed bitfields; equivocations |
| `RoundProofs`, `RoundState`, `Round`, `Completion` | a round's outputs: arguments, values and the mutable class; what being completable is good for, and which blocks the estimate bounds |
| `FinalizedAbove`, `EstimateTooLow`, `CommitFails` | whole rounds in which a documented property fails |
| `Commit`, `Justification` | commits and justifications |
| `CommitWait`, `UntilImported` | the compare-and-swap protocol; the wait buffer |
| `VotingRound`, `Voter`, `LiveRound` | when votes are cast; how rounds follow each other; a voter's round with the votes behind it |
| `Balances`, `Shards`, `Pow` | one shard's funds, as a mutable class and as the value it holds; all shards with the relays between them, likewise, and what every run keeps; block rewards |

Classes keep their invariant in a predicate `Valid()` that callers carry as a single fact. `Open` gives what it stands for and `Close` restores it. For the vote-graph that is `Faithful`: every node sits at its block's number, every edge is the chain path to the nearest lower node, `descendents` is the inverse of the edges, `heads` is the leaf set, and every cumulative vote is the plain weight of its block.

A predicate `XBehind(.., n)` that unfolds in `n` steps is a lid: it keeps the verifier from looking inside before a lemma asks for it.

The iteration order of a hash set or map is an arbitrary function of its contents, so the proofs hold for every order. Hash links are assumed acyclic and a block's own number to be one above its parent's, as in any chain; the numbers that votes, commits and justifications claim for blocks are untrusted. Messages, timers, the client's status answers and signature checks are inputs.

## What was found

- A search for an ancestor, documented to answer the highest block at or below the given one that meets a condition, does not always. Started inside an edge it can answer a block *above* its start (`AncestorExample.AncestorCanBeAbove`) or miss the start itself (`AncestorExample.AncestorCanBeMissed`). For a condition that forks cannot both meet, `AncestorExact.EdgeStartHighest` says exactly when the answer is right: the start fails, or two edges share it and the next block, if it meets the condition, is a node or in one edge only. Started from a node, and with any condition, `AncestorExact.HighestInEveryOrder` says it is right in whatever order children come exactly when no rival that meets the condition branches off on the way; `AncestorTooLow.HighestCanBeMissed` gives a graph with a rival.
- So the finalized block of a round is the highest with a supermajority where the prevote-GHOST is a vote-node, and otherwise exactly under the conditions of `RoundCompletion.FinalizedFromEdge`. It can lie *above* the prevote-GHOST, in a round that counts as completable: `FinalizedAbove.FinalizedAboveGhost`, where the iteration order of three heads decides.
- Being completable therefore does not always mean that nothing above the prevote-GHOST can be finalized any more. `RoundCompletion.CompletableExact` says when: always for a GHOST that is a node or cannot reach the threshold, never for a possible one inside one edge only; for one inside two edges without a rival exactly when it is impossible or the estimate itself (`RoundCompletion.EdgeCompletableExact`).
- The round-estimate can be too low: in `EstimateTooLow.EstimateCanBeTooLow` a block above the estimate of a completable round gets a supermajority later, with a single tolerated equivocation. `RoundCompletion.EstimateBounds` and its exact forms say which blocks the estimate does bound: all but those that a rival branches off from.
- The commit a round builds for its finalized block validates exactly when both precommits of every equivocator are at or above that block (`Commits.FinalizedCommitValidates`). Equivocators' votes are always included, and validation refuses a commit with a precommit off the target's chain: `CommitFails.CommitCanFail` is such a round.
- The check in commit validation that a voter equivocates once can never fail: a round reports each equivocation once (`Commits.ReplayNext`).
- Validating a commit and verifying a justification do not depend on the numbers claimed for the precommits' blocks beyond the comparison with the target's: the verdict is the same for any numbers (`Commits.ValidateCommit`, `Justifications.Verify`). Producing a justification does: it fails when the commit claims a higher number for its target than the block has (`Justifications.ProduceAndVerify`).
- A prospective round is dropped when the best round is completable and not next to it (`VoterProtocol.Voter.ProcessProspectiveRound`); it is kept only while the best round is not completable.
- The state of the prior round that a voter reads always has an estimate, as the code expects: rounds are left when completable, and an estimate disappears only when the base cannot reach the threshold any more, which needs a precommit off the base (`RoundCompletion.EstimateRemains`, `VoterProtocol.Voter.Guarantees`).
- Marking an equivocator that is out of range blanks the whole bitfield (`Bitfields.SetBitMeans`).
- The law that all shards' issuance is what accounts hold plus what is in flight is lost exactly when a step burns more than the issuance of its shard, issues beyond the maximum, or wraps an unchecked sum (`ShardBalances.NoDrift`, `ShardWorld.RunKeepsLaw`). As a transfer to another shard moves funds and not issuance, a shard that has received more than it has sent can hold more than it issued. There dust (`ShardWorld.DustCanClip`), a fee (`ShardWorld.FeeCanClip`) or a slash saturates the issuance at zero; in a shard that has not, nothing burnt ever does (`ShardWorld.NetSenderFits`).

## Model

| member | source | states |
|---|---|---|
| `BlockTree.Ancestry` | core/finality-grandpa/src/lib.rs:143-147 | answers exactly for descendents of the base, and then the consecutive ancestors in between |
| `VoteGraphs.VoteGraph.constructor` | core/finality-grandpa/src/vote_graph.rs:97-115 | a new graph with any number claimed for its base keeps what `Loose` says, and with the right one is faithful to an empty log of votes |
| `VoteGraphs.VoteGraph.Open` | core/finality-grandpa/src/vote_graph.rs:80-94 | a valid graph is a faithful compression of the block tree and of all votes logged, and its nodes are exactly the bases and the blocks voted for |
| `VoteGraphs.VoteGraph.Insert` | core/finality-grandpa/src/vote_graph.rs:168-196 | refused exactly when the block does not descend from the base, and then nothing changes; otherwise one more vote is logged, and taken by the base whatever number is claimed; with right numbers the graph stays faithful and no block leaves it |
| `VoteGraphs.VoteGraph.Append` | core/finality-grandpa/src/vote_graph.rs:514-545 | a new leaf, last among its parent's children, or a refusal that changes nothing; with right numbers its edge is exact |
| `VoteGraphs.VoteGraph.IntroduceBranch` | core/finality-grandpa/src/vote_graph.rs:457-511 | cuts every edge found with the block and keeps what is left of the structure; with right numbers all of it |
| `GraphUpdates.BranchOk` | core/finality-grandpa/src/vote_graph.rs:457-511 | cutting the edges keeps edges, descendents, heads and weights right, the new node's weight being the sum of the cut ones |
| `VoteGraphs.VoteGraph.AddVote` | core/finality-grandpa/src/vote_graph.rs:180-196 | adds a vote along the nodes below, up to the base; in a faithful graph every cumulative vote is the plain weight again |
| `VoteGraphs.VoteGraph.AdjustBase` | core/finality-grandpa/src/vote_graph.rs:122-165 | lowering the base along an ancestry proof keeps the graph faithful; a proof longer than the chain changes nothing |
| `GraphUpdates.RebasedOk` | core/finality-grandpa/src/vote_graph.rs:122-165 | the lower base inherits the old base's weight, and all structure is kept |
| `VoteGraphs.VoteGraph.FindContainingNodes` | core/finality-grandpa/src/vote_graph.rs:404-453 | none for a node; otherwise what the walks down from the heads find, each node once; with right numbers exactly those whose edge contains the block, the first being that of the first head above it |
| `GraphLoose.FaithfulIsLoose` | core/finality-grandpa/src/vote_graph.rs:80-94 | a faithful graph keeps what is claimed for any numbers: edges that lead down to nodes and the base, children above parents, and the base's votes the sum of all |
| `GraphLoose.ContainingExact` | core/finality-grandpa/src/vote_graph.rs:404-453 | with right numbers the walks find exactly the nodes whose edges have the block, in the order of the heads |
| `GraphLoose.BranchLoose` | core/finality-grandpa/src/vote_graph.rs:457-511 | cutting edges at a wrong number keeps every walk down to the base |
| `GraphLoose.VoteLoose` | core/finality-grandpa/src/vote_graph.rs:180-196 | and the base takes every vote |
| `GraphSpec.AncestorBlockMeaning` | core/finality-grandpa/src/vote_graph.rs:37-60 | looking a block up by its number finds exactly the edge that contains it |
| `GraphUnique.OrderIndependent` | core/finality-grandpa/src/vote_graph.rs:168-196 | graphs with the same bases and the same votes in any order have the same nodes, edges, children, weights and heads |
| `GraphUnique.SumPermuted` | core/finality-grandpa/src/vote_graph.rs:28-33 | combining votes does not depend on their order |
| `Search.GhostFindMergePoint` | core/finality-grandpa/src/vote_graph.rs:333-402 | exactly the chain of merge points found level by level: each next block brings children together that meet the condition, and nothing follows the last |
| `GhostProofs.EndIsHeaviest` | core/finality-grandpa/src/vote_graph.rs:333-402 | the end of the merge chain meets the condition and no block of the graph above it does |
| `GhostSearch.FindGhost` | core/finality-grandpa/src/vote_graph.rs:256-331 | from the base or a cached block: a block that meets a monotone condition with none above it, none exactly when the start fails, and at or above a cached block that meets it |
| `GhostSearch.FindStart` | core/finality-grandpa/src/vote_graph.rs:269-293 | the search starts at the cached node, the node under its edge, or the base |
| `GhostRestart.RestartAgrees` | core/finality-grandpa/src/vote_graph.rs:275-331 | where forks cannot both meet the condition, restarting from a cached block that meets it answers the same as starting from the base |
| `AncestorSearch.FindAncestor` | core/finality-grandpa/src/vote_graph.rs:196-253 | how the answer comes about, with its right number and the order of the children it was found in; none exactly when the base fails or the block is not in the graph |
| `AncestorProofs.AnswerFound` | core/finality-grandpa/src/vote_graph.rs:196-253 | from any block of the graph something is found exactly when the base meets the condition, and it meets it |
| `AncestorProofs.AboveNodes` | core/finality-grandpa/src/vote_graph.rs:228-253 | from a node that fails, the answer is at or above every node below that meets the condition |
| `AncestorProofs.AnswerMeets` | core/finality-grandpa/src/vote_graph.rs:196-253 | the answer meets the condition and lies in the edge the walk stopped at |
| `AncestorProofs.FindAncestorHighest` | core/finality-grandpa/src/vote_graph.rs:196-253 | from a vote-node, with a monotone condition that forks cannot both meet, every block at or below it that meets the condition is at or below the answer |
| `AncestorProofs.EdgeStartExact` | core/finality-grandpa/src/vote_graph.rs:220-226 | from a block inside an edge the answer is at or below it exactly when the next block does not bring two children together with enough votes |
| `AncestorExact.EdgeStartHighest` | core/finality-grandpa/src/vote_graph.rs:196-253 | from a block inside an edge, with a condition that forks cannot both meet, the answer is the highest block at or below exactly when that block fails, or two edges share it and the next one does not bring two children together with enough votes |
| `AncestorExact.HighestInEveryOrder` | core/finality-grandpa/src/vote_graph.rs:196-253 | from a node, with any monotone condition, the answer is the highest block for every order of the children exactly when no merge point that meets the condition branches off between the node found and that block |
| `AncestorExact.NodeStartBounds` | core/finality-grandpa/src/vote_graph.rs:228-253 | from a node that fails, a given block that meets the condition is at or below the answer for every order exactly when no such rival branches off below it |
| `AncestorExact.EdgeStartBounds` | core/finality-grandpa/src/vote_graph.rs:220-253 | from a block inside an edge that meets the condition, the same exactly when moreover two edges share it |
| `AncestorExample.AncestorCanBeAbove` | core/finality-grandpa/src/vote_graph.rs:220-226 | a graph of two votes whose answer is above the block asked for |
| `AncestorExample.AncestorCanBeMissed` | core/finality-grandpa/src/vote_graph.rs:220-253 | a graph of one vote of two where block 1 has two votes and the search from it answers block 0 |
| `AncestorTooLow.HighestCanBeMissed` | core/finality-grandpa/src/vote_graph.rs:196-253 | a graph where one of two searches misses a higher block that meets the condition, in whatever order children come |
| `Voters.ThresholdQuorum` | core/finality-grandpa/src/lib.rs:412-415 | the threshold is more than two thirds, and two of them overlap in more than the tolerated third; and it is the least such weight |
| `Voters.FromIter` | core/finality-grandpa/src/lib.rs:339-357 | the voters in order, indexed by identity; valid when identities are distinct; each voter has the position and weight of its last entry |
| `BallotBox.QuorumIntersection` | core/finality-grandpa/src/round.rs:503-542 | two blocks on different forks both at threshold imply double voting of at least twice the threshold less the total |
| `BallotBox.SupermajorityRulesOutForks` | core/finality-grandpa/src/round.rs:503-542 | with tolerable double voting, a supermajority for one block makes every block on another fork impossible |
| `BallotBox.RulingOutIsPermanent` | core/finality-grandpa/src/round.rs:503-542 | a block once impossible never reaches the threshold in any later state with tolerable double voting |
| `BallotBox.WeightBounds` | core/finality-grandpa/src/round.rs:475-510 | double votes weigh at most the support, that at most the votes cast, those at most the total: the subtractions never underflow |
| `Tally.MergeLawful` | core/finality-grandpa/src/round.rs:72-77 | vote weights combine as a commutative monoid |
| `Tally.WeightIsSupport` | core/finality-grandpa/src/round.rs:51-70 | a node's weight with equivocators counted everywhere is the weight of the voters supporting the block in the plain tree |
| `Tally.ThresholdMonotone` | core/finality-grandpa/src/round.rs:311-320 | the threshold condition handed to the searches is monotone |
| `Tally.CouldReachMonotone` | core/finality-grandpa/src/round.rs:503-542 | so is the condition of still being able to reach it |
| `Tracker.VoteTracker.AddVote` | core/finality-grandpa/src/round.rs:118-149 | a first vote is weighed once, a second different one is an equivocation, everything else is ignored |
| `RoundState.WithVoteExtends` | core/finality-grandpa/src/round.rs:118-149 | a tracked vote only ever adds to the ballots, for every voter and vote |
| `Bitfields.MergeIsUnion` | core/finality-grandpa/src/bitfield.rs:77-93 | merging packed words is union of the voter sets they stand for |
| `Bitfields.Merge` | core/finality-grandpa/src/bitfield.rs:77-93 | fails exactly on live fields of different lengths |
| `Bitfields.MergeFits` | core/finality-grandpa/src/round.rs:60-76 | fields of one context always merge and stay in it |
| `Bitfields.OverlapIsIntersection` | core/finality-grandpa/src/bitfield.rs:96-111 | overlap is intersection |
| `Bitfields.SetBitMarks` | core/finality-grandpa/src/bitfield.rs:149-162 | setting a bit adds exactly that voter to that half; in range exactly for the voters of the words |
| `Bitfields.SetBitMeans` | core/finality-grandpa/src/bitfield.rs:122-132 | marks a voter in a blank or live field; out of range the field is left blank |
| `Bitfields.Shared.VoteBitfield` | core/finality-grandpa/src/bitfield.rs:231-245 | a field for exactly one voter's vote |
| `Bitfields.Shared.Equivocated` | core/finality-grandpa/src/bitfield.rs:252-262 | adds the voter to the equivocators of its kind |
| `Bitfields.WordWeight` | core/finality-grandpa/src/bitfield.rs:182-201 | the shifting scan of one word with its early exit sums exactly the marked voters' weights |
| `Bitfields.TotalWeight` | core/finality-grandpa/src/bitfield.rs:113-120 | over all words, for any number of voters |
| `Bitfields.WeighsVoters` | core/finality-grandpa/src/bitfield.rs:164-204 | the sum over the bits is the weight of the voter set they stand for |
| `Bitfields.VoteTotalWeight` | core/finality-grandpa/src/round.rs:51-70 | packed words compute what the pair of voter sets says, equivocators counted once |
| `Bitfields.MergedMeans` | core/finality-grandpa/src/round.rs:60-76 | however the votes of one context are merged over a round, no merge fails and the result is the union of their voter sets |
| `Bitfields.LogMeans` | core/finality-grandpa/src/round.rs:51-76 | summing a log of packed votes over any set of blocks stands for summing the voter sets |
| `Bitfields.LogTotalWeight` | core/finality-grandpa/src/round.rs:51-70 | so the packed weight of a block over a whole log is the weight of its supporters |
| `Rounds.Round.constructor` | core/finality-grandpa/src/round.rs:231-250 | a new round: nothing voted, nothing published, for any base number |
| `Rounds.Round.ImportPrevote` | core/finality-grandpa/src/round.rs:255-328 | the exact votes tracked, when it errs, the refreshed GHOST and outputs; evidence is answered exactly for a known voter's second, different vote, and is the tracked vote and the new one; the GHOST only moves up; nothing published changes without a new vote |
| `Rounds.Round.ImportPrecommit` | core/finality-grandpa/src/round.rs:330-383 | likewise for precommits, leaving the GHOSTs alone |
| `Rounds.Round.UpdatePrevoteGhost` | core/finality-grandpa/src/round.rs:308-321 | refreshes the prevote-GHOST once enough voters have prevoted |
| `Rounds.Round.PrecommitGhost` | core/finality-grandpa/src/round.rs:395-409 | refreshes and answers the precommit-GHOST |
| `RoundState.GhostMeans` | core/finality-grandpa/src/round.rs:308-321 | a searched GHOST has a supermajority that no block of the graph above it has; none only when the base has none |
| `RoundState.GhostIsHighest` | core/finality-grandpa/src/round.rs:308-321 | no block of the whole chain above a searched GHOST has a supermajority either, other than what voters who voted twice have among themselves for every block: any block that a vote supports is in the graph |
| `Rounds.Round.Update` | core/finality-grandpa/src/round.rs:474-578 | keeps all published blocks backed by the votes and publishes what the searches say |
| `RoundState.UpdateMeans` | core/finality-grandpa/src/round.rs:545-578 | what an update publishes stays backed and is `Updated`: finalized and estimate are the answers of the two searches from the GHOST; they exist exactly when the base has or could get a supermajority, and have or could get one; from a node both are at or below the GHOST, the estimate is the GHOST while possible, the finalized block is the highest supermajority; completable exactly when the estimate is another block or nothing above can reach the threshold |
| `RoundState.UpdateFound` | core/finality-grandpa/src/round.rs:545-557 | existence and support of both blocks, wherever the GHOST lies |
| `RoundState.UpdateFromNode` | core/finality-grandpa/src/round.rs:545-557 | where both blocks lie when the GHOST is a node |
| `RoundState.CompletableMeans` | core/finality-grandpa/src/round.rs:560-577 | the last search tells exactly whether a higher block could still reach the threshold |
| `RoundCompletion.UnseenImpossible` | core/finality-grandpa/src/round.rs:544-550 | once the precommits cast reach the threshold, no block outside the graph can any more |
| `RoundCompletion.CompletableExact` | core/finality-grandpa/src/round.rs:560-577 | when a completable round rules out everything above its GHOST: for a GHOST that is a node or cannot reach the threshold, and when the estimate is the GHOST; not when the estimate is above it, or the GHOST is possible and in one edge only; otherwise exactly when it does for the blocks next to the GHOST |
| `RoundCompletion.EdgeCompletableExact` | core/finality-grandpa/src/round.rs:560-577 | for a GHOST inside two edges without a rival: exactly when it cannot reach the threshold or is the estimate |
| `RoundCompletion.CompletableForGood` | core/finality-grandpa/src/round.rs:565-577 | from a completable state on, no block of the whole tree above the prevote-GHOST is ever finalized in the round with tolerable double voting: for every GHOST that is a node, and otherwise under the condition of `CompletableExact` |
| `RoundCompletion.EstimateBounds` | core/finality-grandpa/src/round.rs:551-558 | of all blocks at or below the GHOST, in edges or not, only those at or below the estimate can ever be finalized in the round, apart from those that a still possible rival branches off from |
| `RoundCompletion.EstimateExact` | core/finality-grandpa/src/round.rs:551-558 | from a GHOST that is an impossible node, a possible block of the edge stopped at is at or below the estimate for every order of the children exactly when no possible rival branches off below it |
| `RoundCompletion.EdgeEstimateExact` | core/finality-grandpa/src/round.rs:551-558 | from a possible GHOST inside an edge, the same exactly when moreover two edges share the block |
| `RoundCompletion.FinalizedFromEdge` | core/finality-grandpa/src/round.rs:545-550 | from a GHOST inside an edge: exactly when the finalized block is at or below it, and exactly when it is the highest there with a supermajority |
| `RoundCompletion.EstimateRemains` | core/finality-grandpa/src/round.rs:545-578 | an update takes the estimate away exactly when enough votes are in and the base cannot reach the threshold any more; never while all first precommits are at or above the base; a completable round goes on having one |
| `RoundCompletion.UpdateFollows` | core/finality-grandpa/src/voter.rs:317-319 | so every update does to the voter's view what its polls rely on |
| `FinalizedAbove.FinalizedAboveGhost` | core/finality-grandpa/src/round.rs:545-578 | a round of three voters, built vote by vote: with one head iterated first a block above the GHOST is finalized and the round completable, with another first neither |
| `EstimateTooLow.EstimateCanBeTooLow` | core/finality-grandpa/src/round.rs:551-577 | a round of four voters that is completable with its estimate at the base, and in which a higher block below the GHOST gets a supermajority later |
| `RoundProofs.FinalizedNoRival` | core/finality-grandpa/src/round.rs:545-558 | nothing that could still reach the threshold branches off on the way to a block with a supermajority |
| `RoundProofs.FinalizedBelowEstimate` | core/finality-grandpa/src/round.rs:475-563 | with tolerable double voting, a finalized block is at or below the estimate |
| `RoundProofs.UpdateConsistent` | core/finality-grandpa/src/round.rs:475-563 | what an update publishes is consistent: rightly numbered, a supermajority, and at or below the estimate |
| `RoundProofs.ConditionsMean` | core/finality-grandpa/src/round.rs:503-542 | on blocks of the graph the searched conditions are supermajority and possibility in the plain tree |
| `RoundState.LedgerWeights` | core/finality-grandpa/src/round.rs:475-482 | tracked weights are the weights cast and never exceed the total |
| `Commits.ValidateCommit` | core/finality-grandpa/src/lib.rs:367-410 | for any claimed numbers never errs, and answers a block exactly when all precommits are at or above the target by descent and by number and the distinct known signers reach the threshold; with right numbers the block is at or above the target and has a supermajority of the precommits, and no block of the whole chain above it has one, other than what voters who voted twice have among themselves for every block; its number is the block's own |
| `Commits.ReplayNext` | core/finality-grandpa/src/lib.rs:400-405 | importing one more precommit of such a commit never errs, and reports evidence exactly at a voter's second vote, so the check for a repeated equivocation always passes |
| `Commits.BareCommit` | core/finality-grandpa/src/lib.rs:367-410 | whatever numbers are claimed, the base of the re-run round reaches the threshold exactly when the commit validates |
| `Commits.CommitSupport` | core/finality-grandpa/src/lib.rs:367-410 | the weight cast by a commit is its signers' weight, and all of it supports the target |
| `Commits.CompactRoundTrip` | core/finality-grandpa/src/lib.rs:265-288 | compacting a commit and expanding it again gives it back |
| `Commits.ExpandRoundTrip` | core/finality-grandpa/src/lib.rs:265-288 | the other way exactly when there are as many signatures as precommits |
| `Commits.FinalizingPrecommits` | core/finality-grandpa/src/round.rs:411-472 | none exactly when nothing is finalized; otherwise each voter's qualifying votes, voter by voter |
| `Commits.FinalizedCommitValidates` | core/finality-grandpa/src/voter.rs:440-457 | the commit built for a finalized block validates exactly when both votes of every equivocator are at or above it |
| `Commits.HonestCommitValidates` | core/finality-grandpa/src/voter.rs:440-457 | without equivocations it always validates |
| `CommitFails.CommitCanFail` | core/finality-grandpa/src/voter.rs:440-457 | a round with tolerable double voting whose own commit does not validate |
| `Commits.CommitQuorum` | core/finality-grandpa/src/lib.rs:367-415 | two commits that validate share signers of more than the tolerated third |
| `Commits.SignedBothDouble` | core/finality-grandpa/src/lib.rs:367-415 | with targets on different forks, each of those has precommitted to blocks on different forks |
| `CommitWait.RunKeeps` | core/crfg/src/until_imported.rs:371-398 | every interleaving of loads, swaps and takes keeps the counter at the handles left |
| `CommitWait.ReleasedAtMostOnce` | core/crfg/src/until_imported.rs:371-398 | in any run at most one handle releases the commit |
| `CommitWait.ReleasedExactlyOnce` | core/crfg/src/until_imported.rs:371-398 | all handles done with matching numbers: exactly one has released it |
| `CommitWait.NeverReleased` | core/crfg/src/until_imported.rs:371-377 | a handle that saw a wrong number blocks the commit for good |
| `CommitWait.RunsEnd` | core/crfg/src/until_imported.rs:380-397 | no run has more steps than the square of the handles allows: the swap loop cannot spin forever |
| `CommitWait.StuckIsFinished` | core/crfg/src/until_imported.rs:380-397 | a run that cannot go on has finished all its handles |
| `WaitBuffer.QueryKnown` | core/crfg/src/until_imported.rs:295-338 | accepts exactly coherent references, and counts exactly their distinct unknown hashes |
| `WaitBuffer.UntilImported.ScheduleWait` | core/crfg/src/until_imported.rs:269-368 | discards, makes ready or registers exactly one handle for each distinct unknown block among the commit's target and its precommits, with the claimed number |
| `WaitBuffer.UntilImported.CompleteWaits` | core/crfg/src/until_imported.rs:137-152 | takes the block's list out, spoils exactly the commits expecting another number, and keeps the buffer in order |
| `WaitBuffer.CompletionKeeps` | core/crfg/src/until_imported.rs:371-398 | completing one wait keeps every commit's counter and references in order |
| `WaitBuffer.UntilImported.CheckPending` | core/crfg/src/until_imported.rs:154-187 | completes the waits of exactly the pending blocks that are known |
| `WaitBuffer.UntilImported.Pop` | core/crfg/src/until_imported.rs:189-191 | hands out an arrival not handed out before, whose target and precommitted blocks were all reported with exactly the claimed numbers |
| `WaitBuffer.UntilImported.PollNext` | core/crfg/src/until_imported.rs:111-200 | exactly the commits at hand arrive, those with contradictory references are discarded, and exactly what the client and the notifications say is reported; imports and, on a tick, known blocks are waited for no more; at most one commit is handed out, an arrival not handed out before, whose target and precommitted blocks were all reported with the numbers it claims |
| `WaitBuffer.Whereabouts` | core/crfg/src/until_imported.rs:269-398 | every arrival is ready with all its blocks reported, discarded, spoiled by a block reported with another number than it claims, or waits for at least one block |
| `Justifications.FromCommit` | core/crfg/src/justification.rs:65-105 | refused exactly when a precommit is not at or above the target or its path passes a number at or below the one claimed for the target; otherwise with exactly the headers on the paths, each once |
| `Justifications.CollectPath` | core/crfg/src/justification.rs:82-101 | walking down one precommit's path ends; it succeeds exactly so, and collects exactly its headers |
| `Justifications.Route` | core/crfg/src/justification.rs:211-227 | exactly the blocks strictly between, for descendents only |
| `Justifications.VisitRoutes` | core/crfg/src/justification.rs:143-173 | accepts exactly good signatures and visits exactly the blocks on the paths |
| `Justifications.SameVerdict` | core/crfg/src/justification.rs:123-186 | validating in the tree of the supplied headers alone comes to the same as in the whole tree |
| `Justifications.Verify` | core/crfg/src/justification.rs:123-186 | for any claimed numbers accepts exactly when the commit validates, signatures are good and the headers are exactly those on the paths |
| `Justifications.ProduceAndVerify` | core/crfg/src/justification.rs:65-186 | a justification is produced and accepted exactly when the commit validates, is signed, and claims no higher number for its target than the block has |
| `VotingRounds.VotingRound.CastPrevote` | core/finality-grandpa/src/voter.rs:290-313 | exactly when a prevote is cast and the stage moves on |
| `VotingRounds.VotingRound.CastPrecommit` | core/finality-grandpa/src/voter.rs:315-348 | exactly when a precommit is cast, to the GHOST, at or above the prior estimate |
| `VotingRounds.VotingRound.Notify` | core/finality-grandpa/src/voter.rs:431-462 | exactly when a finalized block is reported, and when the state shared with the next round changes, its estimate being noted |
| `VotingRounds.VotingRound.Poll` | core/finality-grandpa/src/voter.rs:225-254 | exactly which votes are cast: the prevote stage ends with its timer or once the round is completable, with a prevote for the best chain if there is one, and a precommit to the prevote-GHOST follows exactly when that is at or above the estimate the prior round shares and its timer or completability allows; nothing without the prior round; exactly when a block is reported and what is shared; no vote is forgotten |
| `VotingRounds.NoSecondVote` | core/finality-grandpa/src/voter.rs:290-348 | where votes are only added and stages only move on, after the prevote only a precommit is cast, and after that nothing |
| `VotingRounds.VotingRound.BridgeState` | core/finality-grandpa/src/voter.rs:464-475 | a completable round shares its state with the next one, estimate included |
| `VoterProtocol.Voter.Guarantees` | core/finality-grandpa/src/voter.rs:741-763 | at any moment of any run best rounds and finalized numbers have strictly increased, the prospective round is ahead, committing rounds are behind, each round has cast at most one prevote, then at most one precommit above an estimate that the prior round, numbered before it, has shared; a round that does not know the prior one has cast nothing, and no two rounds have voted under one number |
| `VoterProtocol.Voter.VotesOnce` | core/finality-grandpa/src/voter.rs:290-348 | between any two moments of a run: whoever votes under the number of a round that has voted is that round, which has added at most a precommit to a prevote, and nothing to a precommit |
| `VoterProtocol.Voter.Finalize` | core/finality-grandpa/src/voter.rs:1058-1065 | hands a block out exactly when it is higher than all before |
| `VoterProtocol.Voter.ImportCommit` | core/finality-grandpa/src/voter.rs:547-577 | exactly when a commit is ignored, invalid or imported into its round, and what the committer knows then |
| `VoterProtocol.Voter.HandleCommit` | core/finality-grandpa/src/voter.rs:650-695 | imports a commit into a running round, or finalizes for a valid one of another round that is higher than all before, exactly; no round forgets a vote, and the best and the prospective round are left alone |
| `VoterProtocol.Voter.ProcessIncoming` | core/finality-grandpa/src/voter.rs:650-695 | answers the highest foreign round with a valid commit, and finalizes exactly the foreign targets that are higher than all before, in order; what running rounds import is exact too |
| `VoterProtocol.Voter.FireTimer` | core/finality-grandpa/src/voter.rs:579-594 | a committer leaves, and broadcasts the block reported last exactly when something is finalized and no commit for it or above has come in |
| `VoterProtocol.Voter.ProcessTimers` | core/finality-grandpa/src/voter.rs:697-722 | exactly the committers whose timers fired are done, and broadcast what they have to, each once and in order |
| `VoterProtocol.Voter.PollPast` | core/finality-grandpa/src/voter.rs:827-830 | every round in the background receives its messages and casts the votes due, exactly what they report is queued, and exactly those whose estimate is finalized are dropped |
| `VoterProtocol.Voter.HandleNotification` | core/finality-grandpa/src/voter.rs:832-850 | what a reported block finalizes, how the rounds' last finalized block moves, and that every past round hears of it |
| `VoterProtocol.Voter.HandleNotifications` | core/finality-grandpa/src/voter.rs:832-850 | over all reports: exactly the numbers higher than all before are finalized, in order, and the last finalized block of the rounds is the highest; every past round has heard of the highest |
| `VoterProtocol.Voter.ProcessCommits` | core/finality-grandpa/src/voter.rs:855-901 | a prospective round starts exactly when the highest valid foreign commit is at least two above the best round and above the prospective one; it is one after it, and cannot vote; its base, what is imported and what is broadcast are exact |
| `VoterProtocol.Voter.ProcessProspectiveRound` | core/finality-grandpa/src/voter.rs:903-965 | exactly when the best round is replaced, when it is polled, and when the prospective one is kept or given up; its assertion holds |
| `VoterProtocol.Voter.TakeOver` | core/finality-grandpa/src/voter.rs:927-940 | a prospective round that the best one has caught up with becomes the best, and reads the one before from then on |
| `VoterProtocol.Voter.CompletedBestRound` | core/finality-grandpa/src/voter.rs:1001-1028 | the next round is one higher and reads the old one, which is pushed to a committer that does not have it |
| `VoterProtocol.Voter.CompletedProspectiveRound` | core/finality-grandpa/src/voter.rs:1030-1056 | the best round becomes a new one after the prospective round, and reads it |
| `VoterProtocol.Voter.ProcessBestRound` | core/finality-grandpa/src/voter.rs:967-999 | moves on exactly from a round that has precommitted and is completable, after polling it |
| `VoterProtocol.Voter.Pass` | core/finality-grandpa/src/voter.rs:1077-1087 | a whole pass keeps all of it: every round stays and goes on without forgetting a vote; the numbers handed out are exactly those queued or reported by past rounds, then those of valid commits for rounds not running, as far as they are higher than all before; the best round casts exactly what is due and has its report queued, unless a completed prospective round takes its place; polls again exactly when the best round went up |
| `VoterProtocol.Voter.Run` | core/finality-grandpa/src/voter.rs:1077-1087 | any number of passes: every round is still there and has gone on, and from pass to pass the numbers handed out, the queue, the best round's number, and the votes it has cast and received are those the inputs of that pass lead to |
| `LiveRounds.ImportVote` | core/finality-grandpa/src/voter.rs:256-288 | importing a vote makes of what a round publishes what may follow it, and errs exactly for a first vote off the base |
| `LiveRounds.ProcessIncoming` | core/finality-grandpa/src/voter.rs:256-288 | the messages of a poll never err: those off the base are ignored, all others are entered for everybody who signed them, and the round changes as polls rely on |
| `LiveRounds.ImportCommit` | core/finality-grandpa/src/voter.rs:564-572 | the precommits of a commit change the round likewise, and the import errs exactly when it comes to a first one off the base |
| `LiveRounds.PublishedHasVotes` | core/finality-grandpa/src/round.rs:474-578 | the prevote-GHOST published has a supermajority of the prevotes, and the finalized block one of the precommits |
| `LiveRounds.LiveRound.Poll` | core/finality-grandpa/src/voter.rs:225-254 | a poll with the messages themselves: exactly the votes due on what is published after the first of them are cast; what it precommits to has a supermajority of the prevotes seen by then, and what it reports as finalized, exactly when newly finalized, one of the precommits |
| `ShardBalances.SplitConserves` | srml/yee-balances/src/lib.rs:614-620 | splitting an imbalance conserves its value and sign, the first part being as much as asked for if there is so much |
| `ShardBalances.MergeConserves` | srml/yee-balances/src/lib.rs:621-630 | merging conserves it exactly when the amounts do not saturate, which stop at the maximum |
| `ShardBalances.OffsetConserves` | srml/yee-balances/src/lib.rs:631-640 | offsetting conserves it |
| `ShardBalances.NoDrift` | srml/yee-balances/src/lib.rs:691-707 | an effect on the issuance loses nothing exactly when what it burns is at most the issuance, what it issues fits under the maximum and no sum wraps: losses never make up for each other |
| `ShardBalances.ThenDrop` | srml/yee-balances/src/lib.rs:691-707 | dropping an imbalance after an effect, as one effect |
| `ShardBalances.Balances.Drop` | srml/yee-balances/src/lib.rs:691-707 | the exact new issuance, and by how much it then exceeds what it stands for |
| `ShardBalances.Balances.SetFree` | srml/yee-balances/src/lib.rs:479-491 | the exact new balance, its dust burnt, the exact issuance and gap |
| `ShardBalances.Balances.SetReserved` | srml/yee-balances/src/lib.rs:460-469 | likewise for the reserved side |
| `ShardBalances.Balances.Transfer` | srml/yee-balances/src/lib.rs:818-874 | exactly when it succeeds, the whole new state of the shard, what is sent to another shard, the fee, and exactly what is burnt: fee and dust; which error otherwise |
| `ShardBalances.Balances.RelayTransfer` | srml/yee-balances/src/lib.rs:547-566 | the whole new state of the shard: credits exactly once what another shard debited, burning exactly the dust, or fails without a change; which error otherwise |
| `ShardBalances.Balances.Withdraw` | srml/yee-balances/src/lib.rs:876-892 | exactly when it succeeds, the new balance, the dust burnt and the imbalance handed out; which error otherwise |
| `ShardBalances.Balances.Slash` | srml/yee-balances/src/lib.rs:894-914 | takes as much as there is, free first: both balances, what is left over, the dust burnt |
| `ShardBalances.Balances.DepositIntoExisting` | srml/yee-balances/src/lib.rs:916-925 | succeeds exactly when the total balance, an unchecked sum, is not zero; the new balance, an unchecked sum too, and exactly what it burns and loses by wrapping; which error otherwise |
| `ShardBalances.Balances.MakeFreeBalanceBe` | srml/yee-balances/src/lib.rs:940-982 | the imbalance is exactly the change, with the balance and the dust burnt; an empty account is not given dust |
| `ShardBalances.Balances.DepositCreating` | srml/yee-balances/src/lib.rs:927-938 | the new balance, the imbalance and what is burnt, also where the sum wraps around |
| `ShardBalances.Balances.Reserve` | srml/yee-balances/src/lib.rs:1001-1011 | moves funds from free to reserved: both balances, what is burnt and what wraps; which error otherwise |
| `ShardBalances.Balances.Unreserve` | srml/yee-balances/src/lib.rs:1013-1019 | moves them back as far as there are any, likewise |
| `ShardBalances.Balances.SlashReserved` | srml/yee-balances/src/lib.rs:1021-1030 | takes reserved funds: what is taken, left over and burnt |
| `ShardBalances.Balances.RepatriateReserved` | srml/yee-balances/src/lib.rs:1032-1045 | moves reserved funds to another account's free ones, exactly when the unchecked sum of that account's funds is not zero, likewise; which error otherwise |
| `ShardBalances.Balances.MakePayment` | srml/yee-balances/src/lib.rs:1123-1135 | charges the fee exactly when the account survives it, and burns exactly the fee; which error otherwise |
| `ShardBalances.FeeMeans` | srml/yee-balances/src/lib.rs:1123-1126 | the fee is the base fee and one for each byte, in 128 bits |
| `ShardWorld.World.Transfer` | srml/yee-balances/src/lib.rs:836-850 | the whole new state of all shards: a transfer to another shard is debited here and put in flight; exactly when it succeeds |
| `ShardWorld.World.Deliver` | srml/yee-balances/src/lib.rs:547-566 | the whole new state: a relay in flight is credited once and leaves the flight, or nothing changes |
| `ShardWorld.TransferArrives` | srml/yee-balances/src/lib.rs:836-850 | a transfer to another shard, once arrived, has debited the sender the amount and the fee and credited the receiver the amount, each in its own shard, and left all other funds alone |
| `ShardWorld.World.constructor` | srml/yee-balances/src/lib.rs:691-707 | at genesis the law holds |
| `ShardWorld.Apply` | srml/yee-balances/src/lib.rs:765-1046 | every other operation, its imbalance dropped, leaves the shard in exactly the state that its value says, the issuance changed by exactly its effect |
| `ShardWorld.AppliedSurplus` | srml/yee-balances/src/lib.rs:765-1046 | an operation moves what a shard has issued beyond what its accounts hold by exactly the drift of its effect, in every valid state |
| `ShardWorld.TransferredSurplus` | srml/yee-balances/src/lib.rs:818-874 | so does a transfer, and by what it sends to another shard |
| `ShardWorld.RelayedSurplus` | srml/yee-balances/src/lib.rs:547-566 | so does the arrival of a relay, less what it brings |
| `ShardWorld.StepMovesGap` | srml/yee-balances/src/lib.rs:691-707 | every step in any shard moves the gap between the issuance of all shards and the funds held and in flight by exactly its drift |
| `ShardWorld.StepInRange` | srml/yee-balances/src/lib.rs:691-707 | a step drifts exactly when it burns more than the issuance of its shard, issues beyond the maximum or wraps a sum |
| `ShardWorld.RunMovesGap` | srml/yee-balances/src/lib.rs:691-707 | over any run the gap moves by exactly the drifts of its steps, each in the state it meets |
| `ShardWorld.RunKeepsLaw` | srml/yee-balances/src/lib.rs:691-707 | over any run from a state where the law holds, it holds after every step up to the first that does not fit, and fails right after that one |
| `ShardWorld.World.Do` | srml/yee-balances/src/lib.rs:765-1046 | any step takes all shards to exactly the next state of the values, and keeps the law that issuance is funds held plus funds in flight exactly when it burns at most the issuance of its shard, issues within the maximum and wraps nothing |
| `ShardWorld.World.Run` | srml/yee-balances/src/lib.rs:765-1046 | any run of steps takes all shards to exactly the state that the values come to; the gap is then the drift of the run, and none if all its steps fit |
| `ShardWorld.NetSenderFits` | srml/yee-balances/src/lib.rs:547-566 | in a shard that has not received more than it has sent, every operation within the maximum fits |
| `ShardWorld.NetSenderTransferFits` | srml/yee-balances/src/lib.rs:818-874 | and so does every transfer |
| `ShardWorld.DustCanClip` | srml/yee-balances/src/lib.rs:513-531 | for every amount below the existential deposit: a relay whose dust the issuance cannot cover |
| `ShardWorld.FeeCanClip` | srml/yee-balances/src/lib.rs:836-874 | for every fee: one paid out of funds received, without any dust, that the issuance cannot cover |
| `PowRewards.Pow.OnFinalize` | srml/yee-pow/src/lib.rs:142-183 | adds the block's plan and hands out exactly the one due, `latency` blocks old, or does nothing before the first inherent; its payment is one of the block reward and the fees of that plan's block, in 128 bits, to the plan's coinbase or when slashing to the current one, or none if the coinbase belongs to another shard |
| `PowRewards.ScheduledNext` | srml/yee-pow/src/lib.rs:161-180 | one more block keeps the queue at the last blocks, the schedule in time and all fees accounted for |
| `PowRewards.Pow.PaidOnce` | srml/yee-pow/src/lib.rs:142-183 | each block's plan is handed out exactly once, `latency` blocks later |
| `PowRewards.Pow.Charge` | srml/yee-pow/src/lib.rs:341-351 | a transfer or a transaction payment leaves the shard in exactly the state its value says, and adds exactly the fee withdrawn there to the block's fees |
| `PowRewards.Pow.ChargeAll` | srml/yee-pow/src/lib.rs:341-351 | over all transactions of a block, each fee in the state it meets |
| `PowRewards.FeeIsBurnt` | srml/yee-balances/src/lib.rs:818-874 | what such a call burns is its fee and dust, and it issues nothing |
| `PowRewards.FeesAreBurnt` | srml/yee-balances/src/lib.rs:818-874 | over a whole block at least the fees leave the issuance, and without an existential deposit exactly they do |
| `PowRewards.Pow.RunBlock` | srml/yee-pow/src/lib.rs:126-183 | a whole block: the shard's funds and issuance end as after all its transactions and then the payments; its plan has exactly the fees that the transactions withdrew; the payment is exactly that for the plan of `latency` blocks before; fees ever withdrawn are those handed out plus those pending |
| `PowRewards.Pow.BlockEnds` | srml/yee-pow/src/lib.rs:142-183 | one more block keeps the schedule, the fees and the rewards accounted for |
| `PowRewards.Pow.RewardsPaid` | srml/yee-pow/src/lib.rs:196-222 | over any run of blocks the rewards paid in this shard are the block rewards and fees of all blocks handed out whose coinbase is here, exactly when no sum wraps, and never more |
| `PowRewards.Pow.ShareMeans` | srml/yee-pow/src/lib.rs:151-154 | the block reward of a plan is divided among the shards |
| `PowRewards.Pow.Pay` | srml/yee-pow/src/lib.rs:196-222 | who is paid how much for the plans due: for one of this shard its block and fee reward |
| `PowRewards.PayOut` | srml/yee-pow/src/lib.rs:196-222 | rewards are paid one after the other as newly issued funds: the whole new state of the shard |
| `PowRewards.BlockIsRun` | srml/yee-pow/src/lib.rs:126-222 | the transactions and payments of a block are a run of steps in all shards, so that what holds of every run holds of blocks |

## Left out

- Machine integers: block numbers, round numbers and vote weights are unbounded. Balances have their 128 bits, with saturating, checked and unchecked sums as in the code; unchecked ones wrap around, as in a release build. The fees of one block are summed without a bound.
- Inserting under a wrong number: what the searches then answer is not described beyond what commit validation needs, that the base has all votes.
- VoterProtocol.Voter.Pass: what incoming votes do to the published state of each round is an input of a pass, of the kind that `LiveRounds.ProcessIncoming` and `LiveRounds.ImportCommit` prove of the votes themselves; the voter's rounds do not hold their votes.
- Errors of timers, streams and the client, which end a voter or a buffer. Among them is a precommit off the base in a commit for a running round.
- The buffer for single vote messages, which waits for one block only and lets a vote through only with the block's own number, as `LiveRounds` takes it.
- The hint of a primary block, which is never set.
- Vesting schedules and locks: whether they permit a withdrawal is an input.
- Setting balances as root, which does not maintain the issuance.
- Authority set changes, gossip, database and network code, sharding phases, assets and storage modules.
