/** The same round once more: the commit built from the block it has finalized does not validate, because it carries
    both precommits of the voter who cast two. */
module CommitFails {
  import opened Wrappers
  import opened BlockTree
  import opened Votes
  import opened Voters
  import opened BallotBox
  import opened Tally
  import opened Tracker
  import opened GraphSpec
  import opened VoteGraphs
  import opened RoundState
  import opened Rounds
  import opened RoundCompletion
  import opened Commits
  import Example = AncestorTooLow
  import opened EstimateTooLow

  lemma Weights()
    ensures FOUR.Valid() && WellFormed(FOUR, LATER) && Total(FOUR.voters) == 4 && Tolerable(FOUR, LATER)
    ensures CastWeight(FOUR, PREVOTES) == 4 == CastWeight(FOUR, LATER) && Supermajority(FOUR, Example.FORKS, LATER, 1)
    ensures FOUR.threshold == 3
  {
    EstimateTooLow.Cast();
    FourValid();
    Possibles();
    FourWeights(LATER.first.Keys);
  }

  lemma OneInGraph(es: Entries<VoteWeight>)
    requires EdgesOk(Example.FORKS, es, 0) && 4 in es
    ensures InGraph(es, 1) && AtOrBelow(Example.FORKS, 1, 4)
  {
    Below();
    assert InGraph(es, 4);
    BlockInGraph(Example.FORKS, es, 0, 4, 1);
  }

  lemma FinalAbove(l: Ledger, es: Entries<VoteWeight>, order: seq<Hash>, before: Published, after: Published)
    requires l.voters == FOUR && l.chain == Example.FORKS && l.base == 0
    requires l.Cast(Prevotes) == PREVOTES && l.Cast(Precommits) == LATER
    requires EdgesOk(Example.FORKS, es, 0) && 4 in es && Updated(l, es, order, Some((4, 2)), before, after)
    ensures after.0.Some? && AtOrBelow(Example.FORKS, 1, after.0.value.0)
  {
    Weights();
    OneInGraph(es);
    OpenUpdated(l, es, order, Some((4, 2)), before, after);
  }

  /** A block at or above 1 is finalized. */
  lemma Finalizes(r: Round, before: Published)
    requires Ready(r) && r.prevoteGhost == Some((4, 2)) && 4 in r.graph.entries
    requires r.prevote.votes == PREVOTED && r.precommit.votes == EQUIVOCATED
    requires Updated(r.View(), r.graph.entries, r.graph.order(r.graph.heads), r.prevoteGhost, before, r.Results())
    ensures r.finalized.Some? && AtOrBelow(Example.FORKS, 1, r.finalized.value.0)
  {
    FaithfulKeys(r);
    PrevotesAre();
    LaterAre();
    FinalAbove(r.View(), r.graph.entries, r.graph.order(r.graph.heads), before, r.Results());
  }

  /** The precommits to 5 and 3 are not both above it. */
  lemma NotAbove(f: Hash)
    requires AtOrBelow(Example.FORKS, 1, f)
    ensures !DoubleAbove(Example.FORKS, f, EQUIVOCATED[1])
  {
    Below();
    if AtOrBelow(Example.FORKS, f, 5) {
      BelowTrans(Example.FORKS, 1, f, 5);
    }
  }

  lemma AllNumbered()
    ensures VotesNumbered(Example.FORKS, EQUIVOCATED)
  {
  }

  lemma Refused(r: Round, ids: seq<Id>)
    requires Ready(r) && r.precommit.votes == EQUIVOCATED && Enumerates(ids, EQUIVOCATED)
    requires r.finalized.Some? && AtOrBelow(Example.FORKS, 1, r.finalized.value.0)
    ensures var (f, n) := r.finalized.value; !Validates(FOUR, Example.FORKS,
                                                        Commit(f, n, Collected(Example.FORKS, f, EQUIVOCATED, ids)))
  {
    r.Open();
    var (f, n) := r.finalized.value;
    AllNumbered();
    NotAbove(f);
    FinalizedCommitValidates(r.View(), r.graph.entries, r.Blocks(), f, n, ids);
  }

  method Finished(order: set<Hash> -> seq<Hash>) returns (r: Round)
    requires IsIteration(order)
    ensures Ready(r) && r.precommit.votes == EQUIVOCATED && Tolerable(r.voters, r.View().Cast(Precommits))
    ensures r.finalized.Some? && AtOrBelow(Example.FORKS, 1, r.finalized.value.0)
  {
    r := Precommitted(order);
    Precommit(r, 3, 4, [4, 6, 5, 3], [4, 6, 5, 3]);
    ghost var before := r.Results();
    Equivocate(r);
    Finalizes(r, before);
    InTheEnd(r);
  }

  /** A round, and the commit built from what it has finalized, which does not validate. */
  method CommitCanFail(order: set<Hash> -> seq<Hash>, signers: set<Id> -> seq<Id>) returns (r: Round, commit: Commit)
    requires IsIteration(order) && IsIteration(signers)
    ensures r.Valid() && r.finalized == Some((commit.targetHash, commit.targetNumber))
    ensures commit.precommits ==
            Collected(r.chain, commit.targetHash, r.precommit.votes, signers(r.precommit.votes.Keys))
    ensures Tolerable(r.voters, r.View().Cast(Precommits)) && !Validates(r.voters, r.chain, commit)
  {
    r := Finished(order);
    var ps := FinalizingPrecommits(r, Example.FORKS, signers);
    Refused(r, signers(r.precommit.votes.Keys));
    commit := Commit(r.finalized.value.0, r.finalized.value.1, ps.value);
  }
}
