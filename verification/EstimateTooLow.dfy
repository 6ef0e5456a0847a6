/** A round whose estimate is too low: block 0 with the blocks 1 and 2 on it, blocks 3 and 4 on 1, and 5 and 6 on 2. Of
    four voters three prevote for 4 and one for 6. With precommits to 5, 3 and 0 the estimate falls to block 0, although
    block 1 can still be finalized, and is by one more precommit and one equivocation. */
module EstimateTooLow {
  import opened Wrappers
  import opened BlockTree
  import opened Votes
  import opened Voters
  import opened BallotBox
  import opened Tally
  import opened Tracker
  import opened GraphSpec
  import opened MergeSpec
  import opened Search
  import opened VoteGraphs
  import opened AncestorSearch
  import opened AncestorExact
  import opened RoundProofs
  import opened RoundState
  import opened Rounds
  import opened RoundCompletion
  import opened AncestorTooLow

  const FOUR: VoterSet :=
    VoterSet(map[0 := VoterInfo(0, 1), 1 := VoterInfo(1, 1), 2 := VoterInfo(2, 1), 3 := VoterInfo(3, 1)],
                                   [(0, 1), (1, 1), (2, 1), (3, 1)], 3)

  function One(i: int, s: set<int>): nat {
    if i in s then 1 else 0
  }

  lemma FourWeights(s: set<int>)
    ensures SetWeight(FOUR.voters, s) == One(0, s) + One(1, s) + One(2, s) + One(3, s)
  {
    var v := FOUR.voters;
    assert v[..3] == [(0, 1), (1, 1), (2, 1)] && v[..3][..2] == [(0, 1), (1, 1)];
    assert v[..3][..2][..1] == [(0, 1)] && [(0, 1)][..0] == [];
    assert SetWeight([(0, 1)], s) == One(0, s);
    assert SetWeight([(0, 1), (1, 1)], s) == One(0, s) + One(1, s);
    assert SetWeight(v[..3], s) == One(0, s) + One(1, s) + One(2, s);
  }

  lemma FourValid()
    ensures FOUR.Valid() && Total(FOUR.voters) == 4
  {
    var v := FOUR.voters;
    assert v[..3] == [(0, 1), (1, 1), (2, 1)] && v[..3][..2] == [(0, 1), (1, 1)];
    assert v[..3][..2][..1] == [(0, 1)] && [(0, 1)][..0] == [];
    assert Total([(0, 1)]) == 1 && Total([(0, 1), (1, 1)]) == 2 && Total(v[..3]) == 3;
  }

  // ---- The votes ----

  const PREVOTES := Ballots(map[0 := 4, 1 := 4, 2 := 4, 3 := 6], {})
  const PRECOMMITS := Ballots(map[0 := 3, 1 := 5, 2 := 0], {})
  const LATER := Ballots(map[0 := 3, 1 := 5, 2 := 0, 3 := 4], {1})

  /** Who is below whom. */
  lemma Below()
    ensures forall b :: AtOrBelow(FORKS, b, 0) <==> b == 0
    ensures forall b :: AtOrBelow(FORKS, b, 1) <==> b == 0 || b == 1
    ensures forall b :: AtOrBelow(FORKS, b, 2) <==> b == 0 || b == 2
    ensures forall b :: AtOrBelow(FORKS, b, 3) <==> b == 0 || b == 1 || b == 3
    ensures forall b :: AtOrBelow(FORKS, b, 4) <==> b == 0 || b == 1 || b == 4
    ensures forall b :: AtOrBelow(FORKS, b, 5) <==> b == 0 || b == 2 || b == 5
    ensures forall b :: AtOrBelow(FORKS, b, 6) <==> b == 0 || b == 2 || b == 6
  {
    assert FORKS.parent[1] == 0 && FORKS.parent[2] == 0 && FORKS.parent[3] == 1 && FORKS.parent[4] == 1;
    assert FORKS.parent[5] == 2 && FORKS.parent[6] == 2;
    assert forall b :: AtOrBelow(FORKS, b, 0) <==> b == 0;
    assert forall b :: AtOrBelow(FORKS, b, 1) <==> b == 0 || b == 1;
    assert forall b :: AtOrBelow(FORKS, b, 2) <==> b == 0 || b == 2;
  }

  lemma Cast()
    ensures FOUR.Valid() && WellFormed(FOUR, PREVOTES) && WellFormed(FOUR, PRECOMMITS) && WellFormed(FOUR, LATER)
    ensures CastWeight(FOUR, PREVOTES) == 4 && CastWeight(FOUR, PRECOMMITS) == 3 && DoubleWeight(FOUR, PRECOMMITS) == 0
    ensures Tolerable(FOUR, LATER)
  {
    FourValid();
    FourWeights(PREVOTES.first.Keys);
    FourWeights(PRECOMMITS.first.Keys);
    FourWeights({});
    FourWeights({1});
  }

  /** With one voter left and one equivocation tolerated, a single precommit is enough to be possible. */
  lemma Possibles()
    ensures FOUR.Valid() && WellFormed(FOUR, PRECOMMITS)
    ensures Possible(FOUR, FORKS, PRECOMMITS, 0) && Possible(FOUR, FORKS, PRECOMMITS, 1)
    ensures !Possible(FOUR, FORKS, PRECOMMITS, 4)
    ensures Supermajority(FOUR, FORKS, LATER, 1)
  {
    Below();
    Cast();
    FourValid();
    assert Support(FORKS, PRECOMMITS, 0) == {0, 1, 2};
    assert Support(FORKS, PRECOMMITS, 1) == {0};
    assert Support(FORKS, PRECOMMITS, 4) == {};
    assert Support(FORKS, LATER, 1) == {0, 1, 3};
    FourWeights({0, 1, 2});
    FourWeights({0});
    FourWeights({});
    FourWeights({0, 1, 3});
    WeightBounds(FOUR, FORKS, PRECOMMITS, 0);
    WeightBounds(FOUR, FORKS, PRECOMMITS, 1);
    WeightBounds(FOUR, FORKS, PRECOMMITS, 4);
  }

  // ---- The graph ----

  /** A graph of leaves on block 0. */
  ghost predicate Leaves(es: Entries<VoteWeight>) {
    0 in es && es.Keys <= {0, 3, 4, 5, 6} && EdgesOk(FORKS, es, 0) && DescendentsOk(es)
  }

  lemma LeafEdge(es: Entries<VoteWeight>, k: Hash)
    requires Leaves(es) && k in es && k != 0
    ensures es[k].ancestors == [if k <= 4 then 1 else 2, 0] && es[k].number == 2
  {
    assert NodeOk(FORKS, es, 0, k);
    var anc := es[k].ancestors;
    assert StepDown(FORKS, k, anc, 0) && anc[0] == if k <= 4 then 1 else 2;
    assert StepDown(FORKS, k, anc, 1) && anc[1] == 0;
    assert |anc| == 2;
  }

  lemma LeafKids(es: Entries<VoteWeight>, d: Hash)
    requires Leaves(es)
    ensures d in es[0].descendents <==> d in es && d != 0
  {
    if d in es && d != 0 {
      LeafEdge(es, d);
      assert IsChild(es, 0, d);
    }
    if d in es[0].descendents {
      assert IsChild(es, 0, d);
    }
  }

  lemma LeafOffEdges(es: Entries<VoteWeight>, h: Hash)
    requires Leaves(es) && (h == 0 || 3 <= h <= 6)
    ensures OffEdges(es, h)
  {
    if h != 0 {
      forall d | d in es ensures !Contains(es, d, h) {
        if d != 0 {
          LeafEdge(es, d);
        }
      }
    }
  }

  /** A new leaf comes last among the children of block 0. */
  lemma NextKid(es: Entries<VoteWeight>, es': Entries<VoteWeight>, h: Hash)
    requires Leaves(es) && Leaves(es') && es'.Keys == es.Keys + {h} && ChildrenGrow(es, es')
    ensures es'[0].descendents == if h in es then es[0].descendents else es[0].descendents + [h]
  {
    var s, s' := es[0].descendents, es'[0].descendents;
    assert NoDup(s) && NoDup(s') && s <= s';
    forall d ensures d in s' <==> d in s || (d == h && h != 0) {
      LeafKids(es, d);
      LeafKids(es', d);
    }
    if h in es {
      LeafKids(es, h);
    } else {
      LeafKids(es, h);
      LastOne(s, s', h);
    }
    if h in es {
      NoMore(s, s');
    }
  }

  lemma NoMore(s: seq<Hash>, s': seq<Hash>)
    requires s <= s' && NoDup(s') && forall x | x in s' :: x in s
    ensures s' == s
  {
    NoDupSize(s', s);
  }

  lemma LastOne(s: seq<Hash>, s': seq<Hash>, h: Hash)
    requires s <= s' && NoDup(s') && h !in s && h in s' && forall x | x in s' :: x in s || x == h
    ensures s' == s + [h]
  {
    NoDupSize(s', s + [h]);
    var j :| 0 <= j < |s'| && s'[j] == h;
    assert s'[..|s|] == s && j == |s|;
  }

  // ---- The search ----

  /** The graph of all seven votes. */
  ghost predicate Full(l: Ledger, es: Entries<VoteWeight>) {
    && l.voters == FOUR && l.chain == FORKS && l.base == 0 && l.Cast(Precommits) == PRECOMMITS
    && Counts(FORKS, es, 0, l.log, FOUR, l.equivocators, PRECOMMITS)
    && Leaves(es) && es[0].descendents == [4, 6, 5, 3]
  }

  lemma LeafPrecommits(log: Log<VoteWeight>)
    requires Recorded(Precommits, FORKS, 0, log, PRECOMMITS)
    ensures Weight(VOTES, FORKS, log, 5).precommits == {1} && Weight(VOTES, FORKS, log, 6).precommits == {}
  {
    Below();
    HalfOfWeight(Precommits, FORKS, 0, log, PRECOMMITS, 5);
    HalfOfWeight(Precommits, FORKS, 0, log, PRECOMMITS, 6);
  }

  /** Blocks 5 and 6 together have one precommit, which is enough. */
  lemma FirstHit(es: Entries<VoteWeight>, log: Log<VoteWeight>, eq: VoteWeight)
    requires Recorded(Precommits, FORKS, 0, log, PRECOMMITS) && VotesOk(VOTES, FORKS, es, log) && 5 in es && 6 in es
    requires eq.precommits == {} && FOUR.Valid() && WellFormed(FOUR, PRECOMMITS)
    ensures CouldReach(FOUR, eq, PRECOMMITS)(Merge(es[6].cumulative, es[5].cumulative))
  {
    LeafPrecommits(log);
    assert es[5].cumulative == Weight(VOTES, FORKS, log, 5) && es[6].cumulative == Weight(VOTES, FORKS, log, 6);
    OneIsEnough(es[6].cumulative, es[5].cumulative, eq);
  }

  lemma OneIsEnough(u: VoteWeight, v: VoteWeight, eq: VoteWeight)
    requires u.precommits == {} && v.precommits == {1} && eq.precommits == {} && FOUR.Valid()
    requires WellFormed(FOUR, PRECOMMITS)
    ensures CouldReach(FOUR, eq, PRECOMMITS)(Merge(u, v))
  {
    Cast();
    FourValid();
    assert Half(Precommits, Merge(Merge(u, v), eq)) == {1};
    FourWeights({1});
    FourWeights({});
  }

  /** The scan of the first level meets block 1 once, then block 2 twice, and stops there. */
  lemma ScanTakesTwo(es: Entries<VoteWeight>, cond: VoteWeight -> bool)
    requires Leaves(es) && (forall d | d in [4, 6, 5, 3] :: d in es) && cond(Merge(es[6].cumulative, es[5].cumulative))
    ensures ScanFrom(VOTES, es, [4, 6, 5, 3], 1, cond, 0, map[]) == Some(2)
  {
    LeafEdge(es, 4);
    LeafEdge(es, 5);
    LeafEdge(es, 6);
    var ds := [4, 6, 5, 3];
    assert es[4].AncestorBlock(1) == Some(1) && es[6].AncestorBlock(1) == Some(2) && es[5].AncestorBlock(1) == Some(2);
    var one: map<Hash, VoteWeight> := map[1 := es[4].cumulative];
    var two := one[2 := es[6].cumulative];
    assert ScanFrom(VOTES, es, ds, 1, cond, 2, two) == Some(2);
    assert ScanFrom(VOTES, es, ds, 1, cond, 1, one) == Some(2);
  }

  /** The chain of merge points leaves towards block 2. */
  lemma ChainTakesTwo(es: Entries<VoteWeight>, log: Log<VoteWeight>, cond: VoteWeight -> bool, ds: seq<Hash>)
    requires Lawful(VOTES) && Monotone(VOTES, cond) && Leaves(es) && VotesOk(VOTES, FORKS, es, log)
    requires ChildrenOf(es, 0, ds) && ScanFrom(VOTES, es, ds, 1, cond, 0, map[]) == Some(2)
    ensures 1 !in MergeHashes(VOTES, es, 0, ds, cond)
  {
    assert NodeOk(FORKS, es, 0, 0);
    ScanBound(VOTES, es, ds, ds, 1, cond, 0, map[]);
    var hashes := MergeHashes(VOTES, es, 0, ds, cond);
    ClimbOne(VOTES, es, ds, 0, cond, MaxNumber(es, ds), [0]);
    assert hashes[1] == 2;
    MergeHashesMeans(VOTES, FORKS, es, 0, log, 0, ds, cond);
    NotBlockOne(es, log, cond, ds, hashes);
  }

  lemma NotBlockOne(es: Entries<VoteWeight>, log: Log<VoteWeight>, cond: VoteWeight -> bool, ds: seq<Hash>,
                    hashes: seq<Hash>)
    requires Leaves(es) && ChildrenOf(es, 0, ds) && MergeChain(VOTES, FORKS, es, log, ds, cond, 0, hashes)
    requires |hashes| > 1 && hashes[1] == 2
    ensures 1 !in hashes
  {
    assert NodeOk(FORKS, es, 0, 0);
    if 1 in hashes {
      var i :| 0 <= i < |hashes| && hashes[i] == 1;
      BlockNumber(VOTES, FORKS, es, 0, log, ds, cond, 0, hashes, i);
    }
  }

  /** From block 4 the search answers block 0. */
  lemma AnswerIsBase(es: Entries<VoteWeight>, log: Log<VoteWeight>, cond: VoteWeight -> bool, order: seq<Hash>,
                     e: Option<(Hash, nat)>, start: Hash, canon: Hash, hashes: seq<Hash>)
    requires Lawful(VOTES) && Monotone(VOTES, cond) && Leaves(es) && VotesOk(VOTES, FORKS, es, log)
    requires es[0].descendents == [4, 6, 5, 3] && 4 in es && 5 in es && 6 in es
    requires cond(Merge(es[6].cumulative, es[5].cumulative)) && !cond(Weight(VOTES, FORKS, log, 4)) && e.Some?
    requires AnswerBy(VOTES, FORKS, es, 0, log, order, 4, 2, cond, e, start, canon, hashes)
    ensures e.value.0 == 0
  {
    CanonIsFour(es, canon);
    LeafEdge(es, 4);
    ChildrenInOrder(es, 0);
    ScanTakesTwo(es, cond);
    ChainTakesTwo(es, log, cond, es[0].descendents);
  }

  lemma CanonIsFour(es: Entries<VoteWeight>, canon: Hash)
    requires Leaves(es) && canon in es && es[canon].ancestors != [] && AtOrBelow(FORKS, canon, 4)
    ensures canon == 4
  {
    Below();
  }

  /** The estimate is block 0, and the round is completable. */
  lemma EstimateIsBase(l: Ledger, es: Entries<VoteWeight>, order: seq<Hash>, after: Published)
    requires Full(l, es) && Concludes(l, es, order, (4, 2), after)
    ensures after.1.Some? && after.1.value.0 == 0 && after.2
  {
    Possibles();
    LeafKids(es, 4);
    LeafKids(es, 5);
    LeafKids(es, 6);
    var cond, e := CouldReach(FOUR, l.equivocators, PRECOMMITS), after.1;
    ConditionsMonotone(FOUR, l.equivocators, PRECOMMITS);
    ConditionsMean(FORKS, es, 0, l.log, FOUR, l.equivocators, PRECOMMITS, 4);
    FirstHit(es, l.log, l.equivocators);
    var start, canon, hashes :| AnswerBy(VOTES, FORKS, es, 0, l.log, order, 4, 2, cond, e, start, canon, hashes);
    AnswerIsBase(es, l.log, cond, order, e, start, canon, hashes);
  }

  // ---- The round ----

  function Sign(h: Hash): SignedVote
    requires h in FORKS.number
  {
    (Vote(h, FORKS.number[h]), 0)
  }

  /** A round in progress. */
  ghost predicate Ready(r: Round) reads r, r.graph, r.prevote, r.precommit {
    r.Valid() && r.voters == FOUR && r.chain == FORKS && r.graph.base == 0 && r.graph.bases == {0}
  }

  /** Its graph: leaves on block 0, in the order they came. */
  ghost predicate Nodes(es: Entries<VoteWeight>, kids: seq<Hash>) {
    Leaves(es) && es.Keys == {0} + (set k | k in kids) && es[0].descendents == kids
  }

  /** Both, carried as a single fact. */
  ghost predicate Stands(r: Round, kids: seq<Hash>) reads r, r.graph, r.prevote, r.precommit {
    StandsBehind(r, kids, 2)
  }

  ghost predicate StandsBehind(r: Round, kids: seq<Hash>, steps: nat) reads r, r.graph, r.prevote, r.precommit {
    if steps == 0 then Ready(r) && Nodes(r.graph.entries, kids) else StandsBehind(r, kids, steps - 1)
  }

  lemma OpenStands(r: Round, kids: seq<Hash>)
    requires Stands(r, kids)
    ensures Ready(r) && Nodes(r.graph.entries, kids)
  {
    assert StandsBehind(r, kids, 1);
    assert StandsBehind(r, kids, 0);
  }

  lemma CloseStands(r: Round, kids: seq<Hash>)
    requires Ready(r) && Nodes(r.graph.entries, kids)
    ensures Stands(r, kids)
  {
    assert StandsBehind(r, kids, 0);
    assert StandsBehind(r, kids, 1);
  }

  lemma FaithfulKeys(r: Round)
    requires Ready(r)
    ensures r.graph.entries.Keys == {0} + Voted(r.graph.log) && EdgesOk(FORKS, r.graph.entries, 0)
    ensures DescendentsOk(r.graph.entries) && forall x | x in r.graph.order(r.graph.heads) :: x in r.graph.entries
  {
    r.GraphValid();
    r.graph.Open();
  }

  /** What one more vote does to the graph. */
  lemma Grows(es: Entries<VoteWeight>, es': Entries<VoteWeight>, log: Log<VoteWeight>, log': Log<VoteWeight>,
              kids: seq<Hash>, h: Hash, w: VoteWeight)
    requires Nodes(es, kids) && (h == 0 || 3 <= h <= 6) && es.Keys == {0} + Voted(log) && log' == log + [(h, w)]
    requires es'.Keys == {0} + Voted(log') && EdgesOk(FORKS, es', 0) && DescendentsOk(es') && ChildrenGrow(es, es')
    ensures Nodes(es', if h == 0 || h in kids then kids else kids + [h])
  {
    VotedAppend(log, h, w);
    assert es'.Keys == es.Keys + {h};
    NextKid(es, es', h);
  }

  method Prevote(r: Round, id: Id, h: Hash, ghost kids: seq<Hash>, ghost more: seq<Hash>)
    requires Stands(r, kids) && id in FOUR.weights && id !in r.prevote.votes && 3 <= h <= 6
    requires more == if h in kids then kids else kids + [h]
    modifies r, r.graph, r.prevote
    ensures Stands(r, more)
    ensures r.prevote.votes == old(r.prevote.votes)[id := Single(Sign(h))]
    ensures r.prevote.currentWeight == old(r.prevote.currentWeight) + 1 && r.precommit.votes == old(r.precommit.votes)
    ensures Refreshed(r.View(), r.graph.entries, Prevotes, old(r.prevoteGhost), r.prevoteGhost)
  {
    OpenStands(r, kids);
    FaithfulKeys(r);
    LeafOffEdges(r.graph.entries, h);
    OnChain(id, h);
    ghost var l, es, log := r.View(), r.graph.entries, r.graph.log;
    EnteredFirst(l, Prevotes, id, Sign(h));
    var _ := r.ImportPrevote(FORKS, Sign(h).0, id, 0);
    FaithfulKeys(r);
    Grows(es, r.graph.entries, log, r.graph.log, kids, h, Mark(Prevotes, id));
    CloseStands(r, more);
  }

  lemma OnChain(id: Id, h: Hash)
    requires id in FOUR.weights && (h == 0 || 3 <= h <= 6)
    ensures AtOrBelow(FORKS, 0, h) && FOUR.weights[id] == VoterInfo(id, 1)
  {
    Below();
  }

  method Precommit(r: Round, id: Id, h: Hash, ghost kids: seq<Hash>, ghost more: seq<Hash>)
    requires Stands(r, kids) && id in FOUR.weights && id !in r.precommit.votes
    requires (h == 0 || 3 <= h <= 6) && more == if h == 0 || h in kids then kids else kids + [h]
    modifies r, r.graph, r.precommit
    ensures Stands(r, more)
    ensures r.precommit.votes == old(r.precommit.votes)[id := Single(Sign(h))] && r.prevoteGhost == old(r.prevoteGhost)
    ensures r.prevote.votes == old(r.prevote.votes)
    ensures Updated(r.View(), r.graph.entries, r.graph.order(r.graph.heads), r.prevoteGhost, old(r.Results()),
                    r.Results())
  {
    OpenStands(r, kids);
    FaithfulKeys(r);
    LeafOffEdges(r.graph.entries, h);
    OnChain(id, h);
    ghost var l, es, log := r.View(), r.graph.entries, r.graph.log;
    EnteredFirst(l, Precommits, id, Sign(h));
    var _ := r.ImportPrecommit(FORKS, Sign(h).0, id, 0);
    FaithfulKeys(r);
    Grows(es, r.graph.entries, log, r.graph.log, kids, h, Mark(Precommits, id));
    CloseStands(r, more);
  }

  // ---- Prevotes ----

  lemma PrevotesForFour(b: Hash)
    ensures Supermajority(FOUR, FORKS, PREVOTES, b) <==> AtOrBelow(FORKS, b, 4)
  {
    Below();
    FourWeights(Support(FORKS, PREVOTES, b));
  }

  /** Block 4 is the highest with enough prevotes. */
  lemma GhostIsFour(es: Entries<VoteWeight>, before: Option<(Hash, nat)>, after: Option<(Hash, nat)>)
    requires 4 in es && NewGhost(FOUR, FORKS, es, 0, PREVOTES, before, after)
    ensures after.Some? && after.value.0 == 4
  {
    Below();
    PrevotesForFour(4);
    PrevotesForFour(0);
    var b: Hash := after.value.0;
    PrevotesForFour(b);
    assert InGraph(es, 4);
  }

  lemma EmptyNodes(r: Round)
    requires Ready(r) && r.graph.log == []
    ensures Stands(r, [])
  {
    FaithfulKeys(r);
    var es := r.graph.entries;
    assert es.Keys == {0};
    if |es[0].descendents| > 0 {
      LeafKids(es, es[0].descendents[0]);
    }
    CloseStands(r, []);
  }

  lemma GhostOf(r: Round, before: Option<(Hash, nat)>)
    requires Stands(r, [4, 6]) && Refreshed(r.View(), r.graph.entries, Prevotes, before, r.prevoteGhost)
    requires r.prevote.votes == PREVOTED
    ensures r.prevoteGhost == Some((4, 2))
  {
    OpenStands(r, [4, 6]);
    PrevotesAre();
    Cast();
    OpenRefreshed(r.View(), r.graph.entries, Prevotes, before, r.prevoteGhost);
    GhostIsFour(r.graph.entries, before, r.prevoteGhost);
    r.GhostNumber();
  }

  lemma FourNames()
    ensures FOUR.voters[0].0 == 0 && FOUR.voters[1].0 == 1 && FOUR.voters[2].0 == 2 && FOUR.voters[3].0 == 3
  {
  }

  const PREVOTED: map<Id, VoteMultiplicity> :=
    map[0 := Single(Sign(4)), 1 := Single(Sign(4)), 2 := Single(Sign(4)), 3 := Single(Sign(6))]

  const COMMITTED: map<Id, VoteMultiplicity> := map[0 := Single(Sign(3)), 1 := Single(Sign(5)), 2 := Single(Sign(0))]

  lemma PrevotesAre()
    ensures BallotsOf(FOUR, PREVOTED) == PREVOTES
  {
    FourNames();
    var s := BallotsOf(FOUR, PREVOTED);
    assert s.first.Keys == {0, 1, 2, 3} && s.double == {};
  }

  lemma PrecommitsAre()
    ensures BallotsOf(FOUR, COMMITTED) == PRECOMMITS
  {
    FourNames();
    var s := BallotsOf(FOUR, COMMITTED);
    assert s.first.Keys == {0, 1, 2} && s.double == {};
  }

  lemma LaterAre()
    ensures BallotsOf(FOUR, EQUIVOCATED) == LATER
  {
    FourNames();
    var s := BallotsOf(FOUR, EQUIVOCATED);
    assert s.first.Keys == {0, 1, 2, 3} && s.double == {1};
  }

  method Prevoted(order: set<Hash> -> seq<Hash>) returns (r: Round)
    requires IsIteration(order)
    ensures Stands(r, [4, 6]) && fresh(r) && fresh(r.graph) && fresh(r.prevote) && fresh(r.precommit)
    ensures r.prevoteGhost == Some((4, 2)) && r.prevote.votes == PREVOTED && r.precommit.votes == map[]
  {
    FourValid();
    r := new Round(FOUR, order, FORKS, (0, 0));
    EmptyNodes(r);
    Prevote(r, 0, 4, [], [4]);
    Prevote(r, 1, 4, [4], [4]);
    Prevote(r, 2, 4, [4], [4]);
    ghost var before := r.prevoteGhost;
    Prevote(r, 3, 6, [4], [4, 6]);
    GhostOf(r, before);
  }

  // ---- Precommits ----

  lemma IsFull(r: Round)
    requires Stands(r, [4, 6, 5, 3]) && r.precommit.votes == COMMITTED
    ensures Full(r.View(), r.graph.entries) && forall x | x in r.graph.order(r.graph.heads) :: x in r.graph.entries
  {
    OpenStands(r, [4, 6, 5, 3]);
    r.GraphValid();
    r.BooksValid();
    RoundCounts(r.graph, r.View());
    PrecommitsAre();
  }

  lemma Settle(r: Round, before: Published)
    requires Stands(r, [4, 6, 5, 3]) && r.prevoteGhost == Some((4, 2))
    requires r.prevote.votes == PREVOTED && r.precommit.votes == COMMITTED
    requires Updated(r.View(), r.graph.entries, r.graph.order(r.graph.heads), r.prevoteGhost, before, r.Results())
    ensures r.estimate.Some? && r.estimate.value.0 == 0 && r.completable
  {
    IsFull(r);
    Cast();
    PrevotesAre();
    LeafKids(r.graph.entries, 4);
    assert InGraph(r.graph.entries, 4);
    UpdateConcludes(r.View(), r.graph.entries, r.graph.order(r.graph.heads), (4, 2), before, r.Results());
    EstimateIsBase(r.View(), r.graph.entries, r.graph.order(r.graph.heads), r.Results());
  }

  method TwoPrecommits(order: set<Hash> -> seq<Hash>) returns (r: Round)
    requires IsIteration(order)
    ensures Stands(r, [4, 6, 5, 3]) && fresh(r) && fresh(r.graph) && fresh(r.precommit)
    ensures r.precommit.votes == map[0 := Single(Sign(3)), 1 := Single(Sign(5))]
    ensures r.prevoteGhost == Some((4, 2)) && r.prevote.votes == PREVOTED
  {
    r := Prevoted(order);
    Precommit(r, 1, 5, [4, 6], [4, 6, 5]);
    Precommit(r, 0, 3, [4, 6, 5], [4, 6, 5, 3]);
  }

  method Precommitted(order: set<Hash> -> seq<Hash>) returns (r: Round)
    requires IsIteration(order)
    ensures Stands(r, [4, 6, 5, 3]) && fresh(r) && fresh(r.graph) && fresh(r.precommit)
    ensures r.precommit.votes == COMMITTED && r.prevoteGhost == Some((4, 2)) && r.prevote.votes == PREVOTED
    ensures r.estimate.Some? && r.estimate.value.0 == 0 && r.completable
  {
    r := TwoPrecommits(order);
    ghost var before := r.Results();
    Precommit(r, 2, 0, [4, 6, 5, 3], [4, 6, 5, 3]);
    Settle(r, before);
  }

  /** With three precommits the round is completable and its estimate block 0. Then one more precommit and one
      equivocation, which is tolerated, give block 1 a supermajority. */
  method EstimateCanBeTooLow(order: set<Hash> -> seq<Hash>)
    returns (r: Round, estimate: Option<(Hash, nat)>, completable: bool)
    requires IsIteration(order)
    ensures estimate.Some? && estimate.value.0 == 0 && completable
    ensures r.Valid() && r.prevoteGhost == Some((4, 2)) && AtOrBelow(r.chain, 1, 4) && !AtOrBelow(r.chain, 1, 0)
    ensures Supermajority(r.voters, r.chain, r.View().Cast(Precommits), 1)
    ensures Tolerable(r.voters, r.View().Cast(Precommits))
  {
    r := Precommitted(order);
    estimate, completable := r.estimate, r.completable;
    Precommit(r, 3, 4, [4, 6, 5, 3], [4, 6, 5, 3]);
    Equivocate(r);
    InTheEnd(r);
  }

  lemma InTheEnd(r: Round)
    requires Ready(r) && r.precommit.votes == EQUIVOCATED
    ensures AtOrBelow(r.chain, 1, 4) && !AtOrBelow(r.chain, 1, 0)
    ensures Supermajority(r.voters, r.chain, r.View().Cast(Precommits), 1)
    ensures Tolerable(r.voters, r.View().Cast(Precommits))
  {
    BelowForks();
    LaterAre();
    Possibles();
    Cast();
  }

  const EQUIVOCATED: map<Id, VoteMultiplicity> := COMMITTED[3 := Single(Sign(4))][1 := Equivocated(Sign(5), Sign(3))]

  method Equivocate(r: Round)
    requires Stands(r, [4, 6, 5, 3]) && r.precommit.votes == COMMITTED[3 := Single(Sign(4))]
    modifies r, r.graph, r.precommit
    ensures Ready(r) && r.prevoteGhost == old(r.prevoteGhost) && r.prevote.votes == old(r.prevote.votes)
    ensures r.precommit.votes == EQUIVOCATED && 4 in r.graph.entries
    ensures Updated(r.View(), r.graph.entries, r.graph.order(r.graph.heads), r.prevoteGhost, old(r.Results()),
                    r.Results())
  {
    OpenStands(r, [4, 6, 5, 3]);
    FaithfulKeys(r);
    ghost var l := r.View();
    SecondEntered(l);
    var _ := r.ImportPrecommit(FORKS, Sign(3).0, 1, 0);
    FaithfulKeys(r);
  }

  lemma SecondEntered(l: Ledger)
    requires l.voters == FOUR && l.precommits.votes == COMMITTED[3 := Single(Sign(4))]
    ensures var l' := Entered(l, Precommits, 1, Sign(3));
      l'.log == l.log && l'.precommits.votes == EQUIVOCATED != l.precommits.votes && l'.prevotes == l.prevotes
  {
    var votes := l.precommits.votes;
    assert votes[1] == Single(Sign(5)) && Sign(5) != Sign(3);
    assert EQUIVOCATED[1] != votes[1];
  }
}
