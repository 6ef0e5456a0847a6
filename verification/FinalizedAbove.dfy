/** A round that finalizes a block above its prevote-GHOST and calls itself completable: blocks 0, 1 and 2 in a row,
    blocks 3 and 4 on 2, and block 5 on 1. Three voters prevote for 3, 4 and 5, so the GHOST is block 1, inside the
    edges of all three, and precommit to 3, 4 and 3. */
module FinalizedAbove {
  import opened Wrappers
  import opened BlockTree
  import opened Votes
  import opened Voters
  import opened BallotBox
  import opened Tally
  import opened Tracker
  import opened GraphSpec
  import opened VoteGraphs
  import opened AncestorProofs
  import opened AncestorExact
  import opened RoundProofs
  import opened RoundState
  import opened Rounds
  import opened RoundCompletion

  const TREE: Chain := Blocks(map[1 := 0, 2 := 1, 3 := 2, 4 := 2, 5 := 1],
                              map[0 := 0, 1 := 1, 2 := 2, 3 := 3, 4 := 3, 5 := 2])

  const THREE: VoterSet := VoterSet(map[0 := VoterInfo(0, 1), 1 := VoterInfo(1, 1), 2 := VoterInfo(2, 1)],
                                    [(0, 1), (1, 1), (2, 1)], 3)

  lemma ThreeWeights(s: set<int>)
    ensures SetWeight(THREE.voters, s) == (if 0 in s then 1 else 0) + (if 1 in s then 1 else 0)
            + (if 2 in s then 1 else 0)
  {
    assert THREE.voters[..2] == [(0, 1), (1, 1)] && THREE.voters[..2][..1] == [(0, 1)] && [(0, 1)][..0] == [];
    assert SetWeight([(0, 1)], s) == if 0 in s then 1 else 0;
    assert SetWeight(THREE.voters[..2], s) == (if 0 in s then 1 else 0) + (if 1 in s then 1 else 0);
  }

  lemma ThreeValid()
    ensures THREE.Valid() && Total(THREE.voters) == 3
  {
    assert THREE.voters[..2] == [(0, 1), (1, 1)] && THREE.voters[..2][..1] == [(0, 1)] && [(0, 1)][..0] == [];
    assert Total([(0, 1)]) == 1 && Total(THREE.voters[..2]) == 2;
  }

  /** Who is below whom. */
  lemma Below()
    ensures forall b :: AtOrBelow(TREE, b, 0) <==> b == 0
    ensures forall b :: AtOrBelow(TREE, b, 1) <==> b == 0 || b == 1
    ensures forall b :: AtOrBelow(TREE, b, 2) <==> b == 0 || b == 1 || b == 2
    ensures forall b :: AtOrBelow(TREE, b, 3) <==> b == 0 || b == 1 || b == 2 || b == 3
    ensures forall b :: AtOrBelow(TREE, b, 4) <==> b == 0 || b == 1 || b == 2 || b == 4
    ensures forall b :: AtOrBelow(TREE, b, 5) <==> b == 0 || b == 1 || b == 5
  {
    assert TREE.parent[1] == 0 && TREE.parent[2] == 1 && TREE.parent[3] == 2 && TREE.parent[4] == 2
           && TREE.parent[5] == 1;
    assert forall b :: AtOrBelow(TREE, b, 0) <==> b == 0;
    assert forall b :: AtOrBelow(TREE, b, 1) <==> b == 0 || b == 1;
    assert forall b :: AtOrBelow(TREE, b, 2) <==> b == 0 || b == 1 || b == 2;
  }

  // ---- The votes ----

  const PREVOTES := Ballots(map[0 := 3, 1 := 4, 2 := 5], {})
  const PRECOMMITS := Ballots(map[0 := 3, 1 := 4, 2 := 3], {})

  lemma PrevoteSupport(b: Hash)
    ensures SupportWeight(THREE, TREE, PREVOTES, b) ==
            (if AtOrBelow(TREE, b, 3) then 1 else 0) + (if AtOrBelow(TREE, b, 4) then 1 else 0) +
            (if AtOrBelow(TREE, b, 5) then 1 else 0)
  {
    ThreeWeights(Support(TREE, PREVOTES, b));
  }

  lemma PrecommitSupport(b: Hash)
    ensures SupportWeight(THREE, TREE, PRECOMMITS, b) ==
            (if AtOrBelow(TREE, b, 3) then 2 else 0) + (if AtOrBelow(TREE, b, 4) then 1 else 0)
  {
    ThreeWeights(Support(TREE, PRECOMMITS, b));
  }

  lemma AllCast()
    ensures THREE.Valid() && WellFormed(THREE, PREVOTES) && WellFormed(THREE, PRECOMMITS)
    ensures CastWeight(THREE, PREVOTES) == 3 && CastWeight(THREE, PRECOMMITS) == 3
    ensures DoubleWeight(THREE, PRECOMMITS) == 0
    ensures Tolerable(THREE, PRECOMMITS)
  {
    ThreeValid();
    ThreeWeights(PREVOTES.first.Keys);
    ThreeWeights(PRECOMMITS.first.Keys);
    ThreeWeights({});
  }

  /** With all votes cast and no equivocation tolerated, only what has a supermajority could get one. */
  lemma PossibleNow(b: Hash)
    ensures THREE.Valid() && WellFormed(THREE, PRECOMMITS)
    ensures Possible(THREE, TREE, PRECOMMITS, b) <==> Supermajority(THREE, TREE, PRECOMMITS, b)
  {
    AllCast();
    ThreeValid();
    WeightBounds(THREE, TREE, PRECOMMITS, b);
  }

  // ---- The graph ----

  ghost predicate Shape(es: Entries<VoteWeight>) {
    es.Keys == {0, 3, 4, 5} && EdgesOk(TREE, es, 0) && DescendentsOk(es)
  }

  lemma ShapeEdges(es: Entries<VoteWeight>)
    requires Shape(es)
    ensures es[3].ancestors == [2, 1, 0] && es[4].ancestors == [2, 1, 0] && es[5].ancestors == [1, 0]
    ensures forall d, h :: Contains(es, d, h) <==>
              ((d == 3 || d == 4 || d == 5) && (h == 0 || h == 1)) || ((d == 3 || d == 4) && h == 2)
  {
    EdgeOver2(es, 3);
    EdgeOver2(es, 4);
    assert NodeOk(TREE, es, 0, 5);
    var anc := es[5].ancestors;
    assert StepDown(TREE, 5, anc, 0) && anc[0] == 1;
    assert StepDown(TREE, 5, anc, 1) && anc[1] == 0;
    assert |anc| == 2;
  }

  lemma EdgeOver2(es: Entries<VoteWeight>, k: Hash)
    requires Shape(es) && (k == 3 || k == 4)
    ensures es[k].ancestors == [2, 1, 0]
  {
    assert NodeOk(TREE, es, 0, k);
    var anc := es[k].ancestors;
    assert StepDown(TREE, k, anc, 0) && anc[0] == 2;
    assert StepDown(TREE, k, anc, 1) && anc[1] == 1;
    assert StepDown(TREE, k, anc, 2) && anc[2] == 0;
    assert |anc| == 3;
  }

  lemma ShapeHeads(es: Entries<VoteWeight>, heads: set<Hash>)
    requires Shape(es) && HeadsOk(es, heads)
    ensures heads == {3, 4, 5}
  {
    ShapeEdges(es);
    assert IsChild(es, 0, 3) && 3 in es[0].descendents;
    NoChildren(es, 3);
    NoChildren(es, 4);
    NoChildren(es, 5);
    assert forall k :: k in heads <==> k == 3 || k == 4 || k == 5;
  }

  lemma NoChildren(es: Entries<VoteWeight>, k: Hash)
    requires Shape(es) && k in es && k != 0
    ensures es[k].descendents == []
  {
    ShapeEdges(es);
    if |es[k].descendents| > 0 {
      ChildIs(es, k, es[k].descendents[0]);
    }
  }

  lemma ChildIs(es: Entries<VoteWeight>, k: Hash, d: Hash)
    requires DescendentsOk(es) && k in es && d in es[k].descendents
    ensures IsChild(es, k, d)
  {
  }

  /** Block 1 is the highest block of the graph with all prevotes. */
  lemma GhostIsOne(es: Entries<VoteWeight>, before: Option<(Hash, nat)>, after: Option<(Hash, nat)>)
    requires Shape(es) && before.None? && NewGhost(THREE, TREE, es, 0, PREVOTES, before, after)
    ensures after.Some? && after.value.0 == 1
  {
    Below();
    ShapeEdges(es);
    PrevoteSupport(0);
    PrevoteSupport(1);
    var b: Hash := after.value.0;
    PrevoteSupport(b);
    assert Contains(es, 3, 1) && InGraph(es, 1);
  }

  // ---- What the update concludes ----

  ghost predicate Decided(l: Ledger, es: Entries<VoteWeight>, order: seq<Hash>, after: Published) {
    && l.voters == THREE && l.chain == TREE && l.base == 0 && l.Cast(Precommits) == PRECOMMITS && Shape(es)
    && Concludes(l, es, order, (1, 1), after)
    && Consistent(TREE, THREE, PRECOMMITS, after.0, after.1)
  }

  /** Blocks 0, 1 and 2 have all precommits. */
  lemma PrecommitFacts()
    ensures THREE.Valid() && WellFormed(THREE, PRECOMMITS) && Total(THREE.voters) > 0 && Tolerable(THREE, PRECOMMITS)
    ensures Supermajority(THREE, TREE, PRECOMMITS, 0) && Supermajority(THREE, TREE, PRECOMMITS, 1)
    ensures Supermajority(THREE, TREE, PRECOMMITS, 2) && Possible(THREE, TREE, PRECOMMITS, 0)
    ensures Possible(THREE, TREE, PRECOMMITS, 2)
    ensures AtOrBelow(TREE, 2, 3) && AtOrBelow(TREE, 5, 5) && AtOrBelow(TREE, 1, 2)
    ensures AtOrBelow(TREE, 3, 3) && AtOrBelow(TREE, 1, 1)
  {
    Below();
    AllCast();
    ThreeValid();
    PrecommitSupport(0);
    PrecommitSupport(1);
    PrecommitSupport(2);
    PossibleNow(0);
    PossibleNow(2);
  }

  lemma ShapeFacts(es: Entries<VoteWeight>)
    requires Shape(es)
    ensures Contains(es, 3, 1) && Contains(es, 5, 1) && InGraph(es, 1) && InGraph(es, 2) && 1 !in es && 2 !in es
    ensures 5 in es
    ensures TwoContain(es, 1) && TwoContain(es, 2)
  {
    ShapeEdges(es);
    assert Contains(es, 3, 1) && Contains(es, 4, 1);
    assert Contains(es, 3, 2) && Contains(es, 4, 2);
  }

  lemma BetweenIsTwo(b: Hash)
    requires AtOrBelow(TREE, b, 3) && b != 3 && (!AtOrBelow(TREE, b, 1) || AtOrBelow(TREE, 2, b))
    ensures b == 2
  {
    Below();
  }

  lemma BetweenIsOne(b: Hash)
    requires AtOrBelow(TREE, b, 5) && b != 5 && AtOrBelow(TREE, 1, b)
    ensures b == 1
  {
    Below();
  }

  /** The head iterated first decides: over block 2 both the finalized block and the estimate are block 2. */
  lemma AboveTheGhost(l: Ledger, es: Entries<VoteWeight>, order: seq<Hash>, after: Published)
    requires Decided(l, es, order, after) && |order| > 0 && order[0] == 3
    ensures after.0 == Some((2, 2)) && after.1.Some? && after.1.value.0 == 2 && after.2
  {
    PrecommitFacts();
    ShapeFacts(es);
    assert FoundFrom(TREE, es, order, 1, 3, 0);
    FinalizedFromEdge(l, es, order, (1, 1), after, 3, 2);
    BetweenIsTwo(after.0.value.0);
    EstimateFromEdge(l, es, order, (1, 1), after, 3);
    BetweenIsTwo(after.1.value.0);
  }

  /** Over block 5 they are block 1, the GHOST, and block 2 keeps the round from being completable. */
  lemma AtTheGhost(l: Ledger, es: Entries<VoteWeight>, order: seq<Hash>, after: Published)
    requires Decided(l, es, order, after) && |order| > 0 && order[0] == 5
    ensures after.0 == Some((1, 1)) && after.1.Some? && after.1.value.0 == 1 && !after.2
  {
    PrecommitFacts();
    ShapeFacts(es);
    assert FoundFrom(TREE, es, order, 1, 5, 0);
    FinalizedFromEdge(l, es, order, (1, 1), after, 5, 5);
    ConditionsMean(TREE, es, 0, l.log, THREE, l.equivocators, PRECOMMITS, 1);
    BetweenIsOne(after.0.value.0);
    EstimateFromEdge(l, es, order, (1, 1), after, 5);
    BetweenIsOne(after.1.value.0);
    assert !NoneAbove(THREE, TREE, es, PRECOMMITS, 1);
  }

  // ---- The round ----

  function Sign(h: Hash): SignedVote
    requires h in TREE.number
  {
    (Vote(h, TREE.number[h]), 0)
  }

  ghost predicate Ready(r: Round) reads r, r.graph, r.prevote, r.precommit {
    r.Valid() && r.voters == THREE && r.chain == TREE && r.graph.base == 0 && r.graph.bases == {0}
  }

  method CastPrevote(r: Round, id: Id, h: Hash)
    requires Ready(r) && 0 <= id <= 2 && 3 <= h <= 5 && id !in r.prevote.votes
    modifies r, r.graph, r.prevote
    ensures Ready(r) && r.View() == FirstVoted(old(r.View()), Prevotes, id, Sign(h))
    ensures Refreshed(r.View(), r.graph.entries, Prevotes, old(r.prevoteGhost), r.prevoteGhost)
  {
    Below();
    var _ := r.ImportPrevote(TREE, Sign(h).0, id, 0);
  }

  method CastPrecommit(r: Round, id: Id, h: Hash)
    requires Ready(r) && 0 <= id <= 2 && 3 <= h <= 5 && id !in r.precommit.votes
    modifies r, r.graph, r.precommit
    ensures Ready(r) && r.precommit.votes == old(r.precommit.votes)[id := Single(Sign(h))]
    ensures r.graph.log == old(r.graph.log) + [(h, Mark(Precommits, id))] && r.prevoteGhost == old(r.prevoteGhost)
    ensures Updated(r.View(), r.graph.entries, r.graph.order(r.graph.heads), r.prevoteGhost, old(r.Results()),
                    r.Results())
  {
    Below();
    assert Entered(r.View(), Precommits, id, Sign(h)) == FirstVoted(r.View(), Precommits, id, Sign(h));
    var _ := r.ImportPrecommit(TREE, Sign(h).0, id, 0);
  }

  /** Too few prevotes: no GHOST yet. */
  lemma NoGhostYet(r: Round, before: Option<(Hash, nat)>)
    requires Ready(r) && r.View().prevotes.weight < 3 && before.None?
    requires Refreshed(r.View(), r.graph.entries, Prevotes, before, r.prevoteGhost)
    ensures r.prevoteGhost.None?
  {
    r.Open();
    LedgerWeights(r.View());
    OpenRefreshed(r.View(), r.graph.entries, Prevotes, before, r.prevoteGhost);
  }

  lemma ShapeOf(r: Round)
    requires Ready(r) && Voted(r.graph.log) == {3, 4, 5}
    ensures Shape(r.graph.entries) && r.graph.heads == {3, 4, 5}
    ensures forall x | x in r.graph.order(r.graph.heads) :: x in r.graph.entries
    ensures |r.graph.order(r.graph.heads)| > 0
  {
    r.Open();
    r.graph.Open();
    ShapeHeads(r.graph.entries, r.graph.heads);
    var list := r.graph.order(r.graph.heads);
    assert 3 in list;
  }

  lemma CastAre(votes: map<Id, VoteMultiplicity>, a: Hash, b: Hash, c: Hash)
    requires a in TREE.number && b in TREE.number && c in TREE.number
    requires votes == map[0 := Single(Sign(a)), 1 := Single(Sign(b)), 2 := Single(Sign(c))]
    ensures BallotsOf(THREE, votes) == Ballots(map[0 := a, 1 := b, 2 := c], {})
  {
    var s := BallotsOf(THREE, votes);
    assert THREE.voters[0].0 == 0 && THREE.voters[1].0 == 1 && THREE.voters[2].0 == 2;
    assert s.first.Keys == {0, 1, 2};
    assert s.first[0] == a && s.first[1] == b && s.first[2] == c;
    assert s.double == {};
  }

  lemma LogOf(log: Log<VoteWeight>)
    requires |log| >= 3 && log[0].0 == 3 && log[1].0 == 4 && log[2].0 == 5
    requires forall i | 0 <= i < |log| :: log[i].0 == 3 || log[i].0 == 4 || log[i].0 == 5
    ensures Voted(log) == {3, 4, 5}
  {
  }

  method Prevoted(order: set<Hash> -> seq<Hash>) returns (r: Round)
    requires IsIteration(order)
    ensures Ready(r) && fresh(r) && fresh(r.graph) && fresh(r.prevote) && fresh(r.precommit) && r.graph.order == order
    ensures r.prevoteGhost == Some((1, 1)) && r.precommit.votes == map[] && r.precommit.currentWeight == 0
    ensures r.prevote.votes == map[0 := Single(Sign(3)), 1 := Single(Sign(4)), 2 := Single(Sign(5))]
    ensures r.prevote.currentWeight == 3
    ensures |r.graph.log| == 3 && r.graph.log[0].0 == 3 && r.graph.log[1].0 == 4 && r.graph.log[2].0 == 5
  {
    ThreeValid();
    Below();
    r := new Round(THREE, order, TREE, (0, 0));
    CastPrevote(r, 0, 3);
    NoGhostYet(r, None);
    CastPrevote(r, 1, 4);
    NoGhostYet(r, None);
    CastPrevote(r, 2, 5);
    GhostOf(r);
  }

  lemma GhostOf(r: Round)
    requires Ready(r) && Refreshed(r.View(), r.graph.entries, Prevotes, None, r.prevoteGhost)
    requires r.prevote.votes == map[0 := Single(Sign(3)), 1 := Single(Sign(4)), 2 := Single(Sign(5))]
    requires |r.graph.log| == 3 && r.graph.log[0].0 == 3 && r.graph.log[1].0 == 4 && r.graph.log[2].0 == 5
    ensures r.prevoteGhost == Some((1, 1))
  {
    LogOf(r.graph.log);
    ShapeOf(r);
    r.Open();
    CastAre(r.prevote.votes, 3, 4, 5);
    AllCast();
    OpenRefreshed(r.View(), r.graph.entries, Prevotes, None, r.prevoteGhost);
    GhostIsOne(r.graph.entries, None, r.prevoteGhost);
    NumbersOf(r.View(), r.graph.entries, r.Blocks());
  }

  method TwoPrecommits(order: set<Hash> -> seq<Hash>) returns (r: Round)
    requires IsIteration(order)
    ensures Ready(r) && fresh(r) && fresh(r.graph) && fresh(r.precommit) && r.graph.order == order
    ensures r.prevoteGhost == Some((1, 1)) && r.precommit.votes == map[0 := Single(Sign(3)), 1 := Single(Sign(4))]
    ensures r.prevote.votes == map[0 := Single(Sign(3)), 1 := Single(Sign(4)), 2 := Single(Sign(5))]
    ensures |r.graph.log| == 5 && r.graph.log[0].0 == 3 && r.graph.log[1].0 == 4 && r.graph.log[2].0 == 5
    ensures r.graph.log[3].0 == 3 && r.graph.log[4].0 == 4
  {
    r := Prevoted(order);
    CastPrecommit(r, 0, 3);
    CastPrecommit(r, 1, 4);
  }

  method Precommitted(order: set<Hash> -> seq<Hash>) returns (r: Round, ghost before: Published)
    requires IsIteration(order)
    ensures Ready(r) && r.graph.order == order && r.prevoteGhost == Some((1, 1)) && Voted(r.graph.log) == {3, 4, 5}
    ensures r.View().Cast(Prevotes) == PREVOTES && r.View().Cast(Precommits) == PRECOMMITS
    ensures Updated(r.View(), r.graph.entries, order(r.graph.heads), r.prevoteGhost, before, r.Results())
  {
    r := TwoPrecommits(order);
    before := r.Results();
    CastPrecommit(r, 2, 3);
    LogOf(r.graph.log);
    SameCast(r.View());
  }

  /** The same votes, in a round of which the head over block 2, or that over block 5, is iterated first: in the first
      case block 2 is finalized, above the GHOST, and the round is completable. */
  method FinalizedAboveGhost(order: set<Hash> -> seq<Hash>) returns (r: Round)
    requires IsIteration(order)
    ensures r.Valid() && r.prevoteGhost == Some((1, 1)) && AtOrBelow(r.chain, 1, 2) && |order({3, 4, 5})| > 0
    ensures order({3, 4, 5})[0] == 3 ==>
              r.finalized == Some((2, 2)) && r.estimate.Some? && r.estimate.value.0 == 2 && r.completable
    ensures order({3, 4, 5})[0] == 5 ==>
              r.finalized == Some((1, 1)) && r.estimate.Some? && r.estimate.value.0 == 1 && !r.completable
  {
    PrecommitFacts();
    ghost var before;
    r, before := Precommitted(order);
    ShapeOf(r);
    IsDecided(r, before);
    if order({3, 4, 5})[0] == 3 {
      AboveTheGhost(r.View(), r.graph.entries, order({3, 4, 5}), r.Results());
    } else if order({3, 4, 5})[0] == 5 {
      AtTheGhost(r.View(), r.graph.entries, order({3, 4, 5}), r.Results());
    }
  }

  lemma SameCast(l: Ledger)
    requires l.voters == THREE
    requires l.prevotes.votes == map[0 := Single(Sign(3)), 1 := Single(Sign(4)), 2 := Single(Sign(5))]
    requires l.precommits.votes == map[0 := Single(Sign(3)), 1 := Single(Sign(4)), 2 := Single(Sign(3))]
    ensures l.Cast(Prevotes) == PREVOTES && l.Cast(Precommits) == PRECOMMITS
  {
    CastAre(l.prevotes.votes, 3, 4, 5);
    CastAre(l.precommits.votes, 3, 4, 3);
  }

  lemma IsDecided(r: Round, before: Published)
    requires Ready(r) && r.prevoteGhost == Some((1, 1)) && Shape(r.graph.entries)
    requires forall x | x in r.graph.order(r.graph.heads) :: x in r.graph.entries
    requires r.View().Cast(Prevotes) == PREVOTES && r.View().Cast(Precommits) == PRECOMMITS
    requires Updated(r.View(), r.graph.entries, r.graph.order(r.graph.heads), r.prevoteGhost, before, r.Results())
    ensures Decided(r.View(), r.graph.entries, r.graph.order(r.graph.heads), r.Results())
  {
    r.Open();
    r.graph.Open();
    OpenBooks(r.View());
    OpenBacked(r.View(), r.graph.entries, r.Blocks());
    AllCast();
    ShapeFacts(r.graph.entries);
    UpdateConcludes(r.View(), r.graph.entries, r.graph.order(r.graph.heads), (1, 1), before, r.Results());
  }
}
