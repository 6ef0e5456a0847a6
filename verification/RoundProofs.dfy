/** The arguments behind a round's outputs, over the values a round keeps. */
module RoundProofs {
  import opened Wrappers
  import opened BlockTree
  import opened Votes
  import opened Voters
  import opened BallotBox
  import opened Tally
  import opened GraphSpec
  import opened MergeSpec
  import opened GhostProofs
  import opened AncestorSearch
  import opened AncestorProofs

  /** The graph is a faithful compression of the recorded precommits. */
  ghost predicate Counts(c: Chain, es: Entries<VoteWeight>, base: Hash, log: Log<VoteWeight>, vs: VoterSet,
                         eq: VoteWeight, pc: Ballots) {
    && EdgesOk(c, es, base) && DescendentsOk(es) && VotesOk(VOTES, c, es, log)
    && vs.Valid() && WellFormed(vs, pc) && eq.precommits == pc.double && Recorded(Precommits, c, base, log, pc)
  }

  ghost function Reaches(vs: VoterSet, eq: VoteWeight): VoteWeight -> bool {
    ReachesThreshold(Precommits, eq, vs)
  }

  ghost function CouldReach(vs: VoterSet, eq: VoteWeight, pc: Ballots): VoteWeight -> bool
    requires vs.Valid() && WellFormed(vs, pc)
  {
    WeightBounds(vs, Blocks(map[], map[]), pc, 0);
    CouldReachThreshold(eq, vs, Total(vs.voters), CastWeight(vs, pc))
  }

  lemma GraphKnown(c: Chain, es: Entries<VoteWeight>, base: Hash, b: Hash)
    requires EdgesOk(c, es, base) && InGraph(es, b)
    ensures b in c.number && AtOrBelow(c, base, b)
  {
    if b in es {
      assert NodeOk(c, es, base, b);
      BaseBelow(c, es, base, b);
    } else {
      var d :| Contains(es, d, b);
      assert NodeOk(c, es, base, d);
      PathMember(c, d, es[d].ancestors, b);
      BaseBelow(c, es, base, Last(es[d].ancestors));
      BelowTrans(c, base, Last(es[d].ancestors), b);
    }
  }

  /** On blocks of the graph the searched conditions are the plain ones. */
  lemma ConditionsMean(c: Chain, es: Entries<VoteWeight>, base: Hash, log: Log<VoteWeight>, vs: VoterSet,
                       eq: VoteWeight, pc: Ballots, b: Hash)
    requires Counts(c, es, base, log, vs, eq, pc) && InGraph(es, b)
    ensures Reaches(vs, eq)(Weight(VOTES, c, log, b)) <==> Supermajority(vs, c, pc, b)
    ensures CouldReach(vs, eq, pc)(Weight(VOTES, c, log, b)) <==> Possible(vs, c, pc, b)
  {
    GraphKnown(c, es, base, b);
    WeightIsSupport(Precommits, c, base, log, pc, eq, vs, b);
  }

  lemma ReachesImpliesCould(vs: VoterSet, eq: VoteWeight, pc: Ballots, w: VoteWeight)
    requires vs.Valid() && WellFormed(vs, pc) && Reaches(vs, eq)(w)
    ensures CouldReach(vs, eq, pc)(w)
  {
    WeightBounds(vs, Blocks(map[], map[]), pc, 0);
    var support := TotalWeight(Precommits, w, eq, vs);
    assert support >= vs.threshold;
    assert CanStillReach(Total(vs.voters), vs.threshold, CastWeight(vs, pc), SetWeight(vs.voters, eq.precommits),
                         support);
  }

  lemma ConditionsMonotone(vs: VoterSet, eq: VoteWeight, pc: Ballots)
    requires vs.Valid() && WellFormed(vs, pc)
    ensures Lawful(VOTES) && Monotone(VOTES, Reaches(vs, eq)) && Monotone(VOTES, CouldReach(vs, eq, pc))
  {
    MergeLawful();
    ThresholdMonotone(Precommits, eq, vs);
    WeightBounds(vs, Blocks(map[], map[]), pc, 0);
    CouldReachMonotone(eq, vs, Total(vs.voters), CastWeight(vs, pc));
  }

  /** With tolerable double voting no two forks both reach the threshold. */
  lemma SupermajorityExclusive(c: Chain, es: Entries<VoteWeight>, base: Hash, log: Log<VoteWeight>, vs: VoterSet,
                               eq: VoteWeight, pc: Ballots)
    requires Counts(c, es, base, log, vs, eq, pc) && Total(vs.voters) > 0 && Tolerable(vs, pc)
    ensures Exclusive(VOTES, c, es, log, Reaches(vs, eq))
  {
    forall x, y | InGraph(es, x) && InGraph(es, y) && Reaches(vs, eq)(Weight(VOTES, c, log, x))
                  && Reaches(vs, eq)(Weight(VOTES, c, log, y))
      ensures Comparable(c, x, y)
    {
      ConditionsMean(c, es, base, log, vs, eq, pc, x);
      ConditionsMean(c, es, base, log, vs, eq, pc, y);
      GraphKnown(c, es, base, x);
      if !Comparable(c, x, y) {
        QuorumIntersection(vs, c, pc, x, y);
      }
    }
  }

  /** All blocks up to a merge point of the finalizing chain are merge points for the estimate's condition. */
  lemma FinalizedAllMerge(c: Chain, es: Entries<VoteWeight>, base: Hash, log: Log<VoteWeight>, vs: VoterSet,
                          eq: VoteWeight, pc: Ballots, key: Hash, hashes: seq<Hash>, i: nat)
    requires Counts(c, es, base, log, vs, eq, pc) && key in es && ChildrenOf(es, key, es[key].descendents)
    requires MergeChain(VOTES, c, es, log, es[key].descendents, Reaches(vs, eq), key, hashes) && i < |hashes|
    ensures AllMergeBelow(VOTES, c, es, log, es[key].descendents, CouldReach(vs, eq, pc), key, hashes[i])
  {
    var ds := es[key].descendents;
    BlockNumber(VOTES, c, es, base, log, ds, Reaches(vs, eq), key, hashes, i);
    forall y | AtOrBelow(c, y, hashes[i]) && y in c.number && es[key].number < c.number[y]
      ensures MergeAt(VOTES, c, es, log, ds, CouldReach(vs, eq, pc), y)
    {
      BelowNumber(c, y, hashes[i]);
      var k := c.number[y] - es[key].number;
      BlockNumber(VOTES, c, es, base, log, ds, Reaches(vs, eq), key, hashes, k);
      ChainAscends(VOTES, c, es, log, ds, Reaches(vs, eq), key, hashes, k, i);
      SameHeight(c, y, hashes[k], hashes[i]);
      assert MergeLink(VOTES, c, es, log, ds, Reaches(vs, eq), hashes, k);
      ReachesImpliesCould(vs, eq, pc, SelSum(VOTES, c, es, log, ds, y));
    }
  }

  /** Nothing that could still reach the threshold branches off on the way to a block that has a supermajority. */
  lemma FinalizedNoRival(c: Chain, es: Entries<VoteWeight>, base: Hash, log: Log<VoteWeight>, vs: VoterSet,
                         eq: VoteWeight, pc: Ballots, key: Hash, f: Hash)
    requires Counts(c, es, base, log, vs, eq, pc) && key in es && (forall d | d in es[key].descendents :: d in es)
    requires Total(vs.voters) > 0 && Tolerable(vs, pc) && f in c.number && Supermajority(vs, c, pc, f)
    ensures NoRival(VOTES, c, es, log, es[key].descendents, CouldReach(vs, eq, pc), key, f)
  {
    ConditionsMonotone(vs, eq, pc);
    var ds, cond := es[key].descendents, CouldReach(vs, eq, pc);
    forall z ensures !Rival(VOTES, c, es, log, ds, cond, key, f, z) {
      if Rival(VOTES, c, es, log, ds, cond, key, f, z) {
        SelSumBelowWeight(VOTES, c, es, base, log, ds, z, cond);
        assert Contains(es, Sel(es, ds, z)[0], z);
        ConditionsMean(c, es, base, log, vs, eq, pc, z);
        SupermajorityRulesOutForks(vs, c, pc, f, z);
        BelowNumber(c, c.parent[z], f);
        BelowNumber(c, f, z);
      }
    }
  }

  /** Both searches under the same child of the same node: the estimate's chain follows the finalizing one. */
  lemma SameEdge(c: Chain, es: Entries<VoteWeight>, base: Hash, log: Log<VoteWeight>, vs: VoterSet, eq: VoteWeight,
                 pc: Ballots, start: Hash, canon: Hash, fHashes: seq<Hash>, f: Hash, eHashes: seq<Hash>, e: Hash)
    requires Counts(c, es, base, log, vs, eq, pc) && Total(vs.voters) > 0 && Tolerable(vs, pc)
    requires Trail(VOTES, c, es, log, Reaches(vs, eq), start, canon, fHashes, f)
    requires Trail(VOTES, c, es, log, CouldReach(vs, eq, pc), start, canon, eHashes, e)
    ensures AtOrBelow(c, f, e)
  {
    ConditionsMonotone(vs, eq, pc);
    var key := Last(es[canon].ancestors);
    var ds := es[key].descendents;
    AnswerMeets(VOTES, c, es, base, log, Reaches(vs, eq), start, canon, fHashes, f);
    ConditionsMean(c, es, base, log, vs, eq, pc, f);
    GraphKnown(c, es, base, f);
    var i :| 0 <= i < |fHashes| && fHashes[i] == f && TopIndex(es, canon, fHashes, i);
    FinalizedAllMerge(c, es, base, log, vs, eq, pc, key, fHashes, i);
    FinalizedNoRival(c, es, base, log, vs, eq, pc, key, f);
    ChainHas(VOTES, c, es, base, log, ds, CouldReach(vs, eq, pc), key, eHashes, f);
    TopIsAbove(VOTES, c, es, base, log, CouldReach(vs, eq, pc), start, canon, eHashes, e, f);
  }

  /** A finalized block is at or below the estimate, when both searches walk down from the same node. */
  lemma FinalizedBelowEstimate(c: Chain, es: Entries<VoteWeight>, base: Hash, log: Log<VoteWeight>, vs: VoterSet,
                               eq: VoteWeight, pc: Ballots, start: Hash, fCanon: Hash, fHashes: seq<Hash>, f: Hash,
                               eCanon: Hash, eHashes: seq<Hash>, e: Hash)
    requires Counts(c, es, base, log, vs, eq, pc) && Total(vs.voters) > 0 && Tolerable(vs, pc) && start in es
    requires Trail(VOTES, c, es, log, Reaches(vs, eq), start, fCanon, fHashes, f)
    requires Trail(VOTES, c, es, log, CouldReach(vs, eq, pc), start, eCanon, eHashes, e)
    ensures AtOrBelow(c, f, e)
  {
    ConditionsMonotone(vs, eq, pc);
    if fCanon == eCanon {
      SameEdge(c, es, base, log, vs, eq, pc, start, fCanon, fHashes, f, eHashes, e);
    } else {
      AnswerMeets(VOTES, c, es, base, log, Reaches(vs, eq), start, fCanon, fHashes, f);
      AnswerMeets(VOTES, c, es, base, log, CouldReach(vs, eq, pc), start, eCanon, eHashes, e);
      assert NodeOk(c, es, base, start);
      BelowLinear(c, fCanon, eCanon, start);
      BelowLinear(c, eCanon, fCanon, start);
      var fKey, eKey := Last(es[fCanon].ancestors), Last(es[eCanon].ancestors);
      if AtOrBelow(c, fCanon, eCanon) {
        NodeBelowParent(c, es, base, fCanon, eCanon);
        BelowTrans(c, f, fCanon, eKey);
        BelowTrans(c, f, eKey, e);
      } else {
        NodeBelowParent(c, es, base, eCanon, fCanon);
        ReachesImpliesCould(vs, eq, pc, es[fKey].cumulative);
        WeightMonotone(VOTES, c, log, eCanon, fKey, CouldReach(vs, eq, pc));
        BelowNumber(c, eCanon, fCanon);
        BelowNumber(c, fCanon, start);
      }
    }
  }

  /** What an update makes of the two searches from the prevote-GHOST `g`. */
  ghost predicate Consistent(c: Chain, vs: VoterSet, pc: Ballots, finalized: Option<(Hash, nat)>,
                             estimate: Option<(Hash, nat)>) {
    && (finalized.Some? ==> finalized.value.0 in c.number && finalized.value.1 == c.number[finalized.value.0])
    && (finalized.Some? ==> Supermajority(vs, c, pc, finalized.value.0))
    && (finalized.Some? && Total(vs.voters) > 0 && Tolerable(vs, pc) ==>
          estimate.Some? && AtOrBelow(c, finalized.value.0, estimate.value.0))
  }

  lemma UpdateConsistent(c: Chain, es: Entries<VoteWeight>, base: Hash, log: Log<VoteWeight>, vs: VoterSet,
                         eq: VoteWeight, pc: Ballots, order: seq<Hash>, g: Hash, n: nat, f: Option<(Hash, nat)>,
                         fStart: Hash, fCanon: Hash, fHashes: seq<Hash>, e: Option<(Hash, nat)>, eStart: Hash,
                         eCanon: Hash, eHashes: seq<Hash>)
    requires Counts(c, es, base, log, vs, eq, pc) && (forall x | x in order :: x in es)
    requires AncestorAnswer(VOTES, c, es, base, log, order, g, n, Reaches(vs, eq), f, fStart, fCanon, fHashes)
    requires AncestorAnswer(VOTES, c, es, base, log, order, g, n, CouldReach(vs, eq, pc), e, eStart, eCanon, eHashes)
    ensures Consistent(c, vs, pc, f, e)
  {
    if f.Some? {
      ConditionsMonotone(vs, eq, pc);
      if g in es && Reaches(vs, eq)(Weight(VOTES, c, log, g)) {
        ConditionsMean(c, es, base, log, vs, eq, pc, g);
        ReachesImpliesCould(vs, eq, pc, Weight(VOTES, c, log, g));
      } else {
        AnswerMeets(VOTES, c, es, base, log, Reaches(vs, eq), fStart, fCanon, fHashes, f.value.0);
        ConditionsMean(c, es, base, log, vs, eq, pc, f.value.0);
        if Total(vs.voters) > 0 && Tolerable(vs, pc) && !(g in es && CouldReach(vs, eq, pc)(Weight(VOTES, c, log, g))) {
          ReachesImpliesCould(vs, eq, pc, Weight(VOTES, c, log, base));
          if g !in es {
            FirstContainingUnique(c, es, base, order, g, fStart, eStart);
          }
          FinalizedBelowEstimate(c, es, base, log, vs, eq, pc, fStart, fCanon, fHashes, f.value.0, eCanon, eHashes,
                                 e.value.0);
        }
      }
    }
  }
}
