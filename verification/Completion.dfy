/** What being completable is good for: when nothing above the prevote-GHOST, in the graph or not, can be finalized in
    the round any more, and which blocks below it the estimate bounds. */
module RoundCompletion {
  import opened Wrappers
  import opened BlockTree
  import opened Votes
  import opened Voters
  import opened BallotBox
  import opened Tally
  import opened GraphSpec
  import opened VoteGraphs
  import opened MergeSpec
  import opened GhostProofs
  import opened Search
  import opened AncestorSearch
  import opened AncestorProofs
  import opened AncestorExact
  import opened RoundProofs
  import opened RoundState
  import VotingRounds

  /** A block that is not in the graph is supported by double voters only. */
  lemma UnseenSupport(c: Chain, es: Entries<VoteWeight>, base: Hash, log: Log<VoteWeight>, vs: VoterSet, eq: VoteWeight,
                      pc: Ballots, y: Hash)
    requires Counts(c, es, base, log, vs, eq, pc) && AtOrBelow(c, base, y) && !InGraph(es, y)
    ensures Support(c, pc, y) == pc.double
  {
    InGraphMeans(c, es, base, y);
    forall i | i in pc.first ensures AtOrBelow(c, y, pc.first[i]) ==> pc.first[i] in es {
      if AtOrBelow(c, y, pc.first[i]) {
        BelowTrans(c, base, y, pc.first[i]);
        VotedNode(c, es, base, log, vs, eq, pc, i);
      }
    }
  }

  lemma VotedNode(c: Chain, es: Entries<VoteWeight>, base: Hash, log: Log<VoteWeight>, vs: VoterSet, eq: VoteWeight,
                  pc: Ballots, i: int)
    requires Counts(c, es, base, log, vs, eq, pc) && i in pc.first && AtOrBelow(c, base, pc.first[i])
    ensures pc.first[i] in es
  {
    assert HasLogEntry(Precommits, log, i);
    var j :| LoggedBy(Precommits, log, j, i);
    assert log[j].0 in es;
  }

  /** Once the precommits cast reach the threshold, no block that is not yet in the graph can. */
  lemma UnseenImpossible(c: Chain, es: Entries<VoteWeight>, base: Hash, log: Log<VoteWeight>, vs: VoterSet,
                         eq: VoteWeight, pc: Ballots, y: Hash)
    requires Counts(c, es, base, log, vs, eq, pc) && AtOrBelow(c, base, y) && !InGraph(es, y)
    requires Total(vs.voters) > 0 && Tolerable(vs, pc) && CastWeight(vs, pc) >= vs.threshold
    ensures !Possible(vs, c, pc, y)
  {
    UnseenSupport(c, es, base, log, vs, eq, pc, y);
    WeightBounds(vs, c, pc, y);
    ThresholdQuorum(Total(vs.voters));
  }

  /** An update with enough votes of both kinds: what it concludes from the prevote-GHOST. */
  ghost predicate Concludes(l: Ledger, es: Entries<VoteWeight>, order: seq<Hash>, g: (Hash, nat), after: Published) {
    && Counts(l.chain, es, l.base, l.log, l.voters, l.equivocators, l.Cast(Precommits))
    && CastWeight(l.voters, l.Cast(Precommits)) >= l.voters.threshold
    && InGraph(es, g.0) && (forall x | x in order :: x in es)
    && Found(l, es, after.0, after.1) && Concluded(l, es, order, g, after.0, after.1)
    && FromNode(l.voters, l.chain, es, l.Cast(Precommits), g.0, after.0, after.1)
    && after.2 == Completes(l, es, g.0, after.1)
  }

  /** The graph of a round counts its precommits. */
  lemma RoundCounts(graph: VoteGraph<VoteWeight>, l: Ledger)
    requires graph.Valid() && graph.monoid == VOTES && graph.chain == l.chain && graph.base == l.base
    requires graph.log == l.log
    requires Books(l)
    ensures Counts(l.chain, graph.entries, l.base, l.log, l.voters, l.equivocators, l.Cast(Precommits))
    ensures forall x | x in graph.order(graph.heads) :: x in graph.entries
  {
    graph.Open();
    OpenBooks(l);
    LedgerWeights(l);
  }

  lemma UpdateConcludes(l: Ledger, es: Entries<VoteWeight>, order: seq<Hash>, g: (Hash, nat), before: Published,
                        after: Published)
    requires Updated(l, es, order, Some(g), before, after)
    requires Counts(l.chain, es, l.base, l.log, l.voters, l.equivocators, l.Cast(Precommits))
    requires CastWeight(l.voters, l.Cast(Prevotes)) >= l.voters.threshold
    requires CastWeight(l.voters, l.Cast(Precommits)) >= l.voters.threshold
    requires InGraph(es, g.0) && forall x | x in order :: x in es
    ensures Concludes(l, es, order, g, after)
  {
    OpenUpdated(l, es, order, Some(g), before, after);
  }

  // ---- The estimate stays ----

  /** While every voter's first precommit is at or above the base, the base could still reach the threshold. */
  lemma BasePossible(vs: VoterSet, c: Chain, pc: Ballots, base: Hash)
    requires vs.Valid() && WellFormed(vs, pc) && vs.threshold <= Total(vs.voters)
    requires forall i | i in pc.first :: AtOrBelow(c, base, pc.first[i])
    ensures Possible(vs, c, pc, base)
  {
    WeightBounds(vs, c, pc, base);
    forall i ensures i in Support(c, pc, base) <==> i in pc.first.Keys {
    }
    assert Support(c, pc, base) == pc.first.Keys;
  }

  /** An update takes the estimate away exactly when there are enough votes of both kinds and the base cannot reach the
      threshold any more; so it never does while every first precommit is at or above the base. And a completable round
      goes on having one. */
  lemma EstimateRemains(l: Ledger, es: Entries<VoteWeight>, order: seq<Hash>, g: Option<(Hash, nat)>, before: Published,
                        after: Published)
    requires Updated(l, es, order, g, before, after) && Books(l)
    ensures var vs, pc := l.voters, l.Cast(Precommits);
      var enough := g.Some? && CastWeight(vs, l.Cast(Prevotes)) >= vs.threshold && CastWeight(vs, pc) >= vs.threshold;
      && vs.Valid() && WellFormed(vs, pc)
      && (before.1.Some? ==> (after.1.None? <==> enough && !Possible(vs, l.chain, pc, l.base)))
      && (before.1.Some? && OnBase(l) ==> after.1.Some?)
      && ((before.2 ==> before.1.Some?) ==> (after.2 ==> after.1.Some?))
  {
    OpenUpdated(l, es, order, g, before, after);
    LedgerWeights(l);
    if OnBase(l) {
      BasePossible(l.voters, l.chain, l.Cast(Precommits), l.base);
    }
  }

  /** Every voter's first precommit is at or above the base. */
  ghost predicate OnBase(l: Ledger) {
    AllOn(l.chain, l.base, l.Cast(Precommits))
  }

  ghost predicate AllOn(c: Chain, base: Hash, s: Ballots) {
    forall i | i in s.first :: AtOrBelow(c, base, s.first[i])
  }

  /** What a round publishes, as its voter sees it. */
  ghost function ViewOf(g: Option<(Hash, nat)>, p: Published): VotingRounds.RoundView {
    VotingRounds.RoundView(g, p.0, p.1, p.2)
  }

  /** So updates do to a voter's view of a round what its polls rely on. */
  lemma UpdateFollows(l: Ledger, es: Entries<VoteWeight>, order: seq<Hash>, formerGhost: Option<(Hash, nat)>,
                      g: Option<(Hash, nat)>, before: Published, after: Published)
    requires Updated(l, es, order, g, before, after) && Books(l) && OnBase(l)
    ensures VotingRounds.Follows(ViewOf(formerGhost, before), ViewOf(g, after))
  {
    EstimateRemains(l, es, order, g, before, after);
  }

  // ---- Above the prevote-GHOST ----

  lemma PossibleBelow(vs: VoterSet, c: Chain, s: Ballots, x: Hash, y: Hash)
    requires vs.Valid() && WellFormed(vs, s) && AtOrBelow(c, x, y) && Possible(vs, c, s, y)
    ensures Possible(vs, c, s, x)
  {
    forall i | i in Support(c, s, y) ensures i in Support(c, s, x) {
      if i !in s.double {
        BelowTrans(c, x, y, s.first[i]);
      }
    }
    SetWeightMonotone(vs.voters, Support(c, s, y), Support(c, s, x));
    WeightBounds(vs, c, s, x);
    WeightBounds(vs, c, s, y);
  }

  /** No block next to `g` in the graph could still reach the threshold. */
  ghost predicate NoneNext(vs: VoterSet, c: Chain, es: Entries<VoteWeight>, s: Ballots, g: Hash)
    requires vs.Valid() && WellFormed(vs, s)
  {
    forall y {:trigger InGraph(es, y)} | InGraph(es, y) && y in c.parent && c.parent[y] == g :: !Possible(vs, c, s, y)
  }

  /** Looking one block ahead is enough. */
  lemma NoneNextMeans(c: Chain, es: Entries<VoteWeight>, base: Hash, vs: VoterSet, s: Ballots, g: Hash)
    requires vs.Valid() && WellFormed(vs, s) && EdgesOk(c, es, base) && InGraph(es, g)
    ensures NoneAbove(vs, c, es, s, g) <==> NoneNext(vs, c, es, s, g)
  {
    if NoneNext(vs, c, es, s, g) {
      forall y | InGraph(es, y) && AtOrBelow(c, g, y) && y != g ensures !Possible(vs, c, s, y) {
        GraphKnown(c, es, base, y);
        GraphKnown(c, es, base, g);
        var x := ChildTowards(c, g, y);
        InGraphMeans(c, es, base, y);
        var k :| k in es && AtOrBelow(c, y, k);
        BelowTrans(c, x, y, k);
        BelowTrans(c, base, g, x);
        InGraphMeans(c, es, base, x);
        if Possible(vs, c, s, y) {
          PossibleBelow(vs, c, s, x, y);
        }
      }
    }
    if NoneAbove(vs, c, es, s, g) {
      forall y | InGraph(es, y) && y in c.parent && c.parent[y] == g ensures !Possible(vs, c, s, y) {
        assert AtOrBelow(c, g, y) && y != g;
      }
    }
  }

  /** When a completable round rules out everything above its prevote-GHOST. It does for a GHOST that is a node or
      cannot reach the threshold, and where the estimate is the GHOST. It does not where the estimate is above the
      GHOST, or the GHOST could reach the threshold and lies in one edge only. In every other case it takes a look one
      block ahead: `NoneNext` is what is in question, for the blocks next to the GHOST alone. */
  lemma CompletableExact(l: Ledger, es: Entries<VoteWeight>, order: seq<Hash>, g: (Hash, nat), after: Published)
    requires Concludes(l, es, order, g, after) && after.2
    ensures var vs, c, pc, e := l.voters, l.chain, l.Cast(Precommits), after.1.value.0;
      && (NoneAbove(vs, c, es, pc, g.0) <==> g.0 in es || !Possible(vs, c, pc, g.0) || NoneNext(vs, c, es, pc, g.0))
      && (e == g.0 ==> NoneAbove(vs, c, es, pc, g.0))
      && (AtOrBelow(c, g.0, e) && e != g.0 ==> !NoneAbove(vs, c, es, pc, g.0))
      && (g.0 !in es && Possible(vs, c, pc, g.0) && !TwoContain(es, g.0) ==> !NoneAbove(vs, c, es, pc, g.0))
  {
    var vs, c, pc := l.voters, l.chain, l.Cast(Precommits);
    NoneNextMeans(c, es, l.base, vs, pc, g.0);
    if !Possible(vs, c, pc, g.0) {
      forall y | InGraph(es, y) && AtOrBelow(c, g.0, y) && y != g.0 ensures !Possible(vs, c, pc, y) {
        if Possible(vs, c, pc, y) {
          PossibleBelow(vs, c, pc, g.0, y);
        }
      }
    } else if g.0 !in es && !TwoContain(es, g.0) {
      OneEdgeAbove(l, es, g.0);
    }
  }

  /** The node whose edge alone has a block has the same votes. */
  lemma OneEdgeAbove(l: Ledger, es: Entries<VoteWeight>, g: Hash)
    requires Counts(l.chain, es, l.base, l.log, l.voters, l.equivocators, l.Cast(Precommits))
    requires InGraph(es, g) && g !in es && !TwoContain(es, g) && Possible(l.voters, l.chain, l.Cast(Precommits), g)
    ensures !NoneAbove(l.voters, l.chain, es, l.Cast(Precommits), g)
  {
    var c, pc := l.chain, l.Cast(Precommits);
    var d :| Contains(es, d, g);
    GraphKnown(c, es, l.base, g);
    assert NodeOk(c, es, l.base, d);
    PathMember(c, d, es[d].ancestors, g);
    assert forall x | Contains(es, x, g) :: x == d;
    WeightOfContained(VOTES, c, es, l.base, l.log, g, [d]);
    SumOfOne(VOTES, c, es, l.log, d);
    ConditionsMean(c, es, l.base, l.log, l.voters, l.equivocators, pc, g);
    ConditionsMean(c, es, l.base, l.log, l.voters, l.equivocators, pc, d);
    assert InGraph(es, d) && AtOrBelow(c, g, d) && d != g;
  }

  /** From a completable state on, no block of the whole tree strictly above the prevote-GHOST reaches a supermajority
      of precommits at any point of the round, as long as double voting stays tolerable: always for a GHOST that is a
      node, and otherwise where neither it nor a block next to it can. */
  lemma CompletableForGood(l: Ledger, es: Entries<VoteWeight>, order: seq<Hash>, g: (Hash, nat), after: Published,
                           run: seq<Ballots>, i: nat, j: nat, y: Hash)
    requires Concludes(l, es, order, g, after) && after.2
    requires IsRun(l.voters, run) && i <= j < |run| && run[i] == l.Cast(Precommits)
    requires Total(l.voters.voters) > 0 && Tolerable(l.voters, run[j])
    requires g.0 in es || !Possible(l.voters, l.chain, run[i], g.0) || NoneNext(l.voters, l.chain, es, run[i], g.0)
    requires AtOrBelow(l.chain, g.0, y) && y != g.0
    ensures !Supermajority(l.voters, l.chain, run[j], y)
  {
    CompletableExact(l, es, order, g, after);
    RunExtends(l.voters, run, i, j);
    SetWeightMonotone(l.voters.voters, run[i].double, run[j].double);
    GraphKnown(l.chain, es, l.base, g.0);
    BelowTrans(l.chain, l.base, g.0, y);
    if !InGraph(es, y) {
      UnseenImpossible(l.chain, es, l.base, l.log, l.voters, l.equivocators, run[i], y);
    }
    RulingOutIsPermanent(l.voters, l.chain, run, i, j, y);
  }

  // ---- At or below the prevote-GHOST ----

  /** The last vote-node at or below a block. */
  ghost predicate Nearest(c: Chain, es: Entries<VoteWeight>, key: Hash, x: Hash) {
    key in es && AtOrBelow(c, key, x) && forall k | k in es && AtOrBelow(c, k, x) :: AtOrBelow(c, k, key)
  }

  /** Nothing that could still reach the threshold branches off between a block and the last vote-node below it. And if
      the GHOST lies inside an edge and could reach the threshold, two edges share the block. */
  ghost predicate Unobstructed(l: Ledger, es: Entries<VoteWeight>, g: Hash, x: Hash)
    requires l.voters.Valid() && WellFormed(l.voters, l.Cast(Precommits)) && DescendentsOk(es)
  {
    && (forall key | Nearest(l.chain, es, key, x) :: (forall d | d in es[key].descendents :: d in es) &&
          NoRival(VOTES, l.chain, es, l.log, es[key].descendents,
                  CouldReach(l.voters, l.equivocators, l.Cast(Precommits)), key, x))
    && (g !in es && x !in es && Possible(l.voters, l.chain, l.Cast(Precommits), g) ==> TwoContain(es, x))
  }

  /** A possible block at or below the GHOST is at or below the estimate, unless it is obstructed. */
  lemma EstimateAboveBlock(l: Ledger, es: Entries<VoteWeight>, order: seq<Hash>, g: (Hash, nat), after: Published,
                           x: Hash)
    requires Concludes(l, es, order, g, after) && AtOrBelow(l.chain, l.base, x) && AtOrBelow(l.chain, x, g.0)
    requires Possible(l.voters, l.chain, l.Cast(Precommits), x) && Unobstructed(l, es, g.0, x)
    ensures after.1.Some? && AtOrBelow(l.chain, x, after.1.value.0)
  {
    var c, pc, e := l.chain, l.Cast(Precommits), after.1;
    var cond := CouldReach(l.voters, l.equivocators, pc);
    PossibleBelow(l.voters, c, pc, l.base, x);
    if g.0 in es && Possible(l.voters, c, pc, g.0) {
    } else {
      BlockInGraph(c, es, l.base, g.0, x);
      ConditionsMean(c, es, l.base, l.log, l.voters, l.equivocators, pc, x);
      ConditionsMean(c, es, l.base, l.log, l.voters, l.equivocators, pc, g.0);
      var start, canon, hashes :| AnswerBy(VOTES, c, es, l.base, l.log, order, g.0, g.1, cond, e, start, canon, hashes);
      FromWalk(l, es, order, g, e, start, canon, hashes, x);
    }
  }

  /** For a GHOST inside two edges that nothing obstructs, the estimate tells: everything above is ruled out exactly
      when the GHOST cannot reach the threshold or is the estimate. */
  lemma EdgeCompletableExact(l: Ledger, es: Entries<VoteWeight>, order: seq<Hash>, g: (Hash, nat), after: Published)
    requires Concludes(l, es, order, g, after) && after.2
    requires g.0 !in es && TwoContain(es, g.0) && Unobstructed(l, es, g.0, g.0)
    ensures NoneAbove(l.voters, l.chain, es, l.Cast(Precommits), g.0) <==>
            !Possible(l.voters, l.chain, l.Cast(Precommits), g.0) || after.1.value.0 == g.0
  {
    CompletableExact(l, es, order, g, after);
    if Possible(l.voters, l.chain, l.Cast(Precommits), g.0) {
      InGraphMeans(l.chain, es, l.base, g.0);
      EstimateAboveBlock(l, es, order, g, after, g.0);
    }
  }

  lemma BlockInGraph(c: Chain, es: Entries<VoteWeight>, base: Hash, g: Hash, x: Hash)
    requires EdgesOk(c, es, base) && InGraph(es, g) && AtOrBelow(c, base, x) && AtOrBelow(c, x, g)
    ensures InGraph(es, x)
  {
    InGraphMeans(c, es, base, g);
    var k :| k in es && AtOrBelow(c, g, k);
    BelowTrans(c, x, g, k);
    InGraphMeans(c, es, base, x);
  }

  lemma FromWalk(l: Ledger, es: Entries<VoteWeight>, order: seq<Hash>, g: (Hash, nat), e: Option<(Hash, nat)>,
                 start: Hash, canon: Hash, hashes: seq<Hash>, x: Hash)
    requires Counts(l.chain, es, l.base, l.log, l.voters, l.equivocators, l.Cast(Precommits)) && InGraph(es, g.0)
    requires InGraph(es, x) && AtOrBelow(l.chain, x, g.0) && Unobstructed(l, es, g.0, x)
    requires Possible(l.voters, l.chain, l.Cast(Precommits), x)
    requires !(g.0 in es && Possible(l.voters, l.chain, l.Cast(Precommits), g.0))
    requires AnswerBy(VOTES, l.chain, es, l.base, l.log, order, g.0, g.1,
                      CouldReach(l.voters, l.equivocators, l.Cast(Precommits)), e, start, canon, hashes)
    ensures e.Some? && AtOrBelow(l.chain, x, e.value.0)
  {
    var c, pc := l.chain, l.Cast(Precommits);
    var cond := CouldReach(l.voters, l.equivocators, pc);
    ConditionsMonotone(l.voters, l.equivocators, pc);
    ConditionsMean(c, es, l.base, l.log, l.voters, l.equivocators, pc, x);
    ConditionsMean(c, es, l.base, l.log, l.voters, l.equivocators, pc, g.0);
    GraphKnown(c, es, l.base, x);
    WeightMonotone(VOTES, c, l.log, l.base, x, cond);
    WalkPasses(l, es, order, g, e.value.0, start, canon, hashes, x);
    NearestInEdge(c, es, l.base, canon, x);
    AnswerAbove(VOTES, c, es, l.base, l.log, cond, start, canon, hashes, e.value.0, x);
  }

  /** The walk down stops above a possible block. */
  lemma WalkPasses(l: Ledger, es: Entries<VoteWeight>, order: seq<Hash>, g: (Hash, nat), r: Hash, start: Hash,
                   canon: Hash, hashes: seq<Hash>, x: Hash)
    requires Counts(l.chain, es, l.base, l.log, l.voters, l.equivocators, l.Cast(Precommits)) && InGraph(es, g.0)
    requires InGraph(es, x) && AtOrBelow(l.chain, x, g.0) && Unobstructed(l, es, g.0, x)
    requires Possible(l.voters, l.chain, l.Cast(Precommits), x)
    requires !(g.0 in es && Possible(l.voters, l.chain, l.Cast(Precommits), g.0))
    requires WalkStart(l.chain, es, order, g.0, start)
    requires Trail(VOTES, l.chain, es, l.log, CouldReach(l.voters, l.equivocators, l.Cast(Precommits)), start, canon,
                   hashes, r)
    ensures AtOrBelow(l.chain, x, canon) && x != canon
    ensures
      var cond := CouldReach(l.voters, l.equivocators, l.Cast(Precommits));
      cond(es[canon].cumulative) && !AtOrBelow(l.chain, x, Last(es[canon].ancestors)) ==> TwoContain(es, x)
  {
    var c, pc := l.chain, l.Cast(Precommits);
    var cond := CouldReach(l.voters, l.equivocators, pc);
    ConditionsMonotone(l.voters, l.equivocators, pc);
    ConditionsMean(c, es, l.base, l.log, l.voters, l.equivocators, pc, x);
    ConditionsMean(c, es, l.base, l.log, l.voters, l.equivocators, pc, g.0);
    assert NodeOk(c, es, l.base, start);
    if g.0 in es {
      BelowFailing(c, es, l.base, l.log, cond, start, canon, hashes, r, x);
    } else {
      PathMember(c, start, es[start].ancestors, g.0);
      BelowTrans(c, x, g.0, start);
      BelowNumber(c, x, g.0);
      if cond(es[start].cumulative) {
        WeightMonotone(VOTES, c, l.log, g.0, start, cond);
        EdgeStartStays(VOTES, c, es, l.base, l.log, cond, g.0, start, canon, hashes, r);
        if x in es {
          NodeBelowParent(c, es, l.base, x, start);
        }
      } else {
        BelowFailing(c, es, l.base, l.log, cond, start, canon, hashes, r, x);
      }
    }
  }

  /** From a failing node, the walk stops at a failing node above every block that meets the condition. */
  lemma BelowFailing(c: Chain, es: Entries<VoteWeight>, base: Hash, log: Log<VoteWeight>, cond: VoteWeight -> bool,
                     start: Hash, canon: Hash, hashes: seq<Hash>, r: Hash, x: Hash)
    requires Lawful(VOTES) && Monotone(VOTES, cond) && EdgesOk(c, es, base) && VotesOk(VOTES, c, es, log)
    requires Trail(VOTES, c, es, log, cond, start, canon, hashes, r) && start in es && !cond(es[start].cumulative)
    requires AtOrBelow(c, x, start) && cond(Weight(VOTES, c, log, x))
    ensures AtOrBelow(c, x, canon) && x != canon && !cond(es[canon].cumulative)
  {
    assert NodeOk(c, es, base, start);
    BelowLinear(c, x, canon, start);
    BelowLinear(c, canon, x, start);
    if AtOrBelow(c, canon, x) {
      WeightMonotone(VOTES, c, log, canon, x, cond);
    }
  }

  lemma NearestInEdge(c: Chain, es: Entries<VoteWeight>, base: Hash, canon: Hash, x: Hash)
    requires EdgesOk(c, es, base) && canon in es && |es[canon].ancestors| > 0 && Last(es[canon].ancestors) in es
    requires AtOrBelow(c, x, canon) && x != canon
    ensures AtOrBelow(c, Last(es[canon].ancestors), x) ==> Nearest(c, es, Last(es[canon].ancestors), x)
  {
    assert NodeOk(c, es, base, canon);
    forall k | k in es && AtOrBelow(c, k, x) ensures AtOrBelow(c, k, Last(es[canon].ancestors)) {
      BelowTrans(c, k, x, canon);
      BelowNumber(c, x, canon);
      BelowNumber(c, k, x);
      NodeBelowParent(c, es, base, k, canon);
    }
  }

  /** Of the blocks at or below the GHOST, in the graph's edges or not, only those at or below the estimate can ever be
      finalized in the round, apart from obstructed ones. */
  lemma EstimateBounds(l: Ledger, es: Entries<VoteWeight>, order: seq<Hash>, g: (Hash, nat), after: Published,
                       run: seq<Ballots>, i: nat, j: nat, x: Hash)
    requires Concludes(l, es, order, g, after)
    requires IsRun(l.voters, run) && i <= j < |run| && run[i] == l.Cast(Precommits) && Tolerable(l.voters, run[j])
    requires AtOrBelow(l.chain, l.base, x) && AtOrBelow(l.chain, x, g.0) && Unobstructed(l, es, g.0, x)
    requires Supermajority(l.voters, l.chain, run[j], x)
    ensures after.1.Some? && AtOrBelow(l.chain, x, after.1.value.0)
  {
    if !Possible(l.voters, l.chain, run[i], x) {
      RulingOutIsPermanent(l.voters, l.chain, run, i, j, x);
    }
    EstimateAboveBlock(l, es, order, g, after, x);
  }

  /** And the estimate bounds no others: from a GHOST that is a node and not possible, walked down to `canon`, a
      possible block in `canon`'s edge is at or below the answer for every order of the children exactly when nothing
      possible branches off below it. */
  lemma EstimateExact(l: Ledger, es: Entries<VoteWeight>, canon: Hash, x: Hash)
    requires Counts(l.chain, es, l.base, l.log, l.voters, l.equivocators, l.Cast(Precommits))
    requires canon in es && x in es[canon].ancestors && !Possible(l.voters, l.chain, l.Cast(Precommits), canon)
    requires Possible(l.voters, l.chain, l.Cast(Precommits), x)
    ensures var key, cond := Last(es[canon].ancestors), CouldReach(l.voters, l.equivocators, l.Cast(Precommits));
      && key in es && Order(es, key, es[key].descendents)
      && ((forall ds | Order(es, key, ds) ::
           TopAbove(l.chain, es, canon, MergeHashes(VOTES, es, key, ds, cond), x)) <==>
          NoRival(VOTES, l.chain, es, l.log, es[key].descendents, cond, key, x))
  {
    var pc := l.Cast(Precommits);
    ConditionsMonotone(l.voters, l.equivocators, pc);
    assert Contains(es, canon, x) && InGraph(es, x) && InGraph(es, canon);
    ConditionsMean(l.chain, es, l.base, l.log, l.voters, l.equivocators, pc, x);
    ConditionsMean(l.chain, es, l.base, l.log, l.voters, l.equivocators, pc, canon);
    NodeStartBounds(VOTES, l.chain, es, l.base, l.log, CouldReach(l.voters, l.equivocators, pc), canon, x);
  }

  /** From a possible GHOST inside the edge of `start`, a possible block of that edge is at or below the answer for
      every order exactly when two edges share it and nothing possible branches off below it. */
  lemma EdgeEstimateExact(l: Ledger, es: Entries<VoteWeight>, start: Hash, x: Hash)
    requires Counts(l.chain, es, l.base, l.log, l.voters, l.equivocators, l.Cast(Precommits))
    requires x !in es && Contains(es, start, x) && Possible(l.voters, l.chain, l.Cast(Precommits), x)
    ensures var key, cond := Last(es[start].ancestors), CouldReach(l.voters, l.equivocators, l.Cast(Precommits));
      && key in es && Order(es, key, es[key].descendents)
      && ((forall ds | Order(es, key, ds) ::
           TopAbove(l.chain, es, start, MergeHashes(VOTES, es, key, ds, cond), x)) <==>
          TwoContain(es, x) && NoRival(VOTES, l.chain, es, l.log, es[key].descendents, cond, key, x))
  {
    var pc := l.Cast(Precommits);
    ConditionsMonotone(l.voters, l.equivocators, pc);
    assert InGraph(es, x);
    ConditionsMean(l.chain, es, l.base, l.log, l.voters, l.equivocators, pc, x);
    EdgeStartBounds(VOTES, l.chain, es, l.base, l.log, CouldReach(l.voters, l.equivocators, pc), start, x);
  }

  // ---- The finalized block of a GHOST inside an edge ----

  /** With tolerable double voting, and `y` next to the GHOST on the way to the first node found above it: the finalized
      block is at or below the GHOST, and the highest there with a supermajority, exactly as the edges around allow. */
  lemma FinalizedFromEdge(l: Ledger, es: Entries<VoteWeight>, order: seq<Hash>, g: (Hash, nat), after: Published,
                          start: Hash, y: Hash)
    requires Concludes(l, es, order, g, after) && Total(l.voters.voters) > 0 && Tolerable(l.voters, l.Cast(Precommits))
    requires g.0 !in es && after.0.Some? && FirstContaining(l.chain, es, order, g.0, start)
    requires y in l.chain.parent && l.chain.parent[y] == g.0 && AtOrBelow(l.chain, y, start)
    ensures var c, pc, f := l.chain, l.Cast(Precommits), after.0.value.0;
      var aboveToo := y !in es && Supermajority(l.voters, c, pc, y) && TwoContain(es, y);
      && AtOrBelow(c, f, start) && f != start && (AtOrBelow(c, f, g.0) <==> !aboveToo)
      && (HighestBelow(VOTES, c, l.log, Reaches(l.voters, l.equivocators), g.0, f) <==>
          !Supermajority(l.voters, c, pc, g.0) || (TwoContain(es, g.0) && !aboveToo))
  {
    var c, pc, eq := l.chain, l.Cast(Precommits), l.equivocators;
    var cond := Reaches(l.voters, eq);
    var s, canon, hashes :| AnswerBy(VOTES, c, es, l.base, l.log, order, g.0, g.1, cond, after.0, s, canon, hashes);
    FirstContainingUnique(c, es, l.base, order, g.0, s, start);
    ConditionsMonotone(l.voters, eq, pc);
    SupermajorityExclusive(c, es, l.base, l.log, l.voters, eq, pc);
    assert NodeOk(c, es, l.base, start);
    GraphKnown(c, es, l.base, g.0);
    BelowTrans(c, l.base, g.0, y);
    InGraphMeans(c, es, l.base, y);
    ConditionsMean(c, es, l.base, l.log, l.voters, eq, pc, g.0);
    ConditionsMean(c, es, l.base, l.log, l.voters, eq, pc, y);
    AnswerMeets(VOTES, c, es, l.base, l.log, cond, start, canon, hashes, after.0.value.0);
    NotAtStart(c, es, l.base, start, canon, after.0.value.0);
    EdgeStartExact(VOTES, c, es, l.base, l.log, cond, g.0, start, canon, hashes, after.0.value.0, y);
    EdgeStartHighest(VOTES, c, es, l.base, l.log, cond, g.0, start, canon, hashes, after.0.value.0, y);
  }

  /** The estimate lies below the first node found above the GHOST, too. */
  lemma EstimateFromEdge(l: Ledger, es: Entries<VoteWeight>, order: seq<Hash>, g: (Hash, nat), after: Published,
                         start: Hash)
    requires Concludes(l, es, order, g, after) && g.0 !in es && after.1.Some?
    requires FirstContaining(l.chain, es, order, g.0, start)
    ensures AtOrBelow(l.chain, after.1.value.0, start) && after.1.value.0 != start
  {
    var c, pc, e := l.chain, l.Cast(Precommits), after.1;
    var cond := CouldReach(l.voters, l.equivocators, pc);
    var s, canon, hashes :| AnswerBy(VOTES, c, es, l.base, l.log, order, g.0, g.1, cond, e, s, canon, hashes);
    FirstContainingUnique(c, es, l.base, order, g.0, s, start);
    ConditionsMonotone(l.voters, l.equivocators, pc);
    AnswerMeets(VOTES, c, es, l.base, l.log, cond, start, canon, hashes, e.value.0);
    NotAtStart(c, es, l.base, start, canon, e.value.0);
  }

  lemma NotAtStart(c: Chain, es: Entries<VoteWeight>, base: Hash, start: Hash, canon: Hash, r: Hash)
    requires EdgesOk(c, es, base) && start in es && AtOrBelow(c, canon, start) && AtOrBelow(c, r, canon) && r != canon
    ensures AtOrBelow(c, r, start) && r != start
  {
    assert NodeOk(c, es, base, start);
    BelowTrans(c, r, canon, start);
    BelowNumber(c, canon, start);
    BelowNumber(c, r, canon);
  }
}
