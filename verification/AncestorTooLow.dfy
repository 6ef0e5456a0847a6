/** A search for an ancestor that misses a higher block, because its condition holds on two forks: block 0 with the
    blocks 1 and 2 on it, and on each of those one block with a vote and one without. */
module AncestorTooLow {
  import opened Wrappers
  import opened BlockTree
  import opened Votes
  import opened GraphSpec
  import opened MergeSpec
  import opened VoteGraphs
  import opened AncestorSearch
  import opened AncestorProofs
  import opened AncestorExample

  const FORKS: Chain := Blocks(map[1 := 0, 2 := 0, 3 := 1, 4 := 1, 5 := 2, 6 := 2],
                               map[0 := 0, 1 := 1, 2 := 1, 3 := 2, 4 := 2, 5 := 2, 6 := 2])

  const ONE: nat -> bool := (x: nat) => x >= 1

  const VOTED: Log<nat> := [(3, 1), (4, 0), (5, 1), (6, 0)]

  lemma OneMonotone()
    ensures Lawful(COUNT) && Monotone(COUNT, ONE)
  {
    CountLawful();
  }

  ghost predicate Split(es: Entries<nat>, log: Log<nat>) {
    && es.Keys == {0, 3, 4, 5, 6} && log == VOTED
    && EdgesOk(FORKS, es, 0) && DescendentsOk(es) && VotesOk(COUNT, FORKS, es, log)
  }

  lemma SplitEdge(es: Entries<nat>, log: Log<nat>, k: Hash)
    requires Split(es, log) && 3 <= k <= 6
    ensures es[k].ancestors == [if k <= 4 then 1 else 2, 0]
  {
    assert NodeOk(FORKS, es, 0, k);
    var anc := es[k].ancestors;
    assert StepDown(FORKS, k, anc, 0) && anc[0] == if k <= 4 then 1 else 2;
    assert StepDown(FORKS, k, anc, 1) && anc[1] == 0;
    assert |anc| == 2;
  }

  lemma FourVotes(s: set<Hash>)
    ensures SumIn(COUNT, VOTED, s) == (if 3 in s then 1 else 0) + (if 5 in s then 1 else 0)
  {
    assert VOTED[..3] == [(3, 1), (4, 0), (5, 1)] && VOTED[..3][..2] == [(3, 1), (4, 0)];
    assert [(3, 1), (4, 0)][..1] == [(3, 1)] && [(3, 1)][..0] == [];
    assert SumIn(COUNT, [(3, 1)], s) == if 3 in s then 1 else 0;
    assert SumIn(COUNT, [(3, 1), (4, 0)], s) == if 3 in s then 1 else 0;
    assert SumIn(COUNT, VOTED[..3], s) == (if 3 in s then 1 else 0) + (if 5 in s then 1 else 0);
  }

  lemma BelowForks()
    ensures AtOrBelow(FORKS, 0, 3) && AtOrBelow(FORKS, 1, 3) && AtOrBelow(FORKS, 1, 4) && AtOrBelow(FORKS, 2, 5)
    ensures AtOrBelow(FORKS, 2, 6)
    ensures AtOrBelow(FORKS, 0, 4) && AtOrBelow(FORKS, 0, 5) && AtOrBelow(FORKS, 0, 6)
    ensures !AtOrBelow(FORKS, 4, 3) && !AtOrBelow(FORKS, 4, 5) && !AtOrBelow(FORKS, 6, 3) && !AtOrBelow(FORKS, 6, 5)
    ensures !AtOrBelow(FORKS, 1, 0) && !AtOrBelow(FORKS, 2, 0)
  {
    assert FORKS.parent[1] == 0 && FORKS.parent[2] == 0 && FORKS.parent[3] == 1 && FORKS.parent[4] == 1;
    assert FORKS.parent[5] == 2 && FORKS.parent[6] == 2;
    assert AtOrBelow(FORKS, 0, 1) && AtOrBelow(FORKS, 0, 2);
    assert !AtOrBelow(FORKS, 4, 1) && !AtOrBelow(FORKS, 4, 2) && !AtOrBelow(FORKS, 6, 1) && !AtOrBelow(FORKS, 6, 2);
  }

  /** Blocks 1 and 2 have a vote each, blocks 4 and 6 have none. */
  lemma SplitWeights()
    ensures AtOrBelow(FORKS, 1, 4) && AtOrBelow(FORKS, 2, 6)
    ensures ONE(Weight(COUNT, FORKS, VOTED, 1)) && ONE(Weight(COUNT, FORKS, VOTED, 2))
    ensures ONE(Weight(COUNT, FORKS, VOTED, 0))
    ensures !ONE(Weight(COUNT, FORKS, VOTED, 4)) && !ONE(Weight(COUNT, FORKS, VOTED, 6))
  {
    BelowForks();
    FourVotes(Up(FORKS, 0));
    FourVotes(Up(FORKS, 1));
    FourVotes(Up(FORKS, 2));
    FourVotes(Up(FORKS, 4));
    FourVotes(Up(FORKS, 6));
  }

  /** From a block without votes the search walks down to block 0 and answers a block of its chain of merge points. */
  lemma AnswerInChain(es: Entries<nat>, order: seq<Hash>, hash: Hash, r: Option<(Hash, nat)>, start: Hash, canon: Hash,
                      hashes: seq<Hash>)
    requires Split(es, VOTED) && (hash == 4 || hash == 6)
    requires AncestorAnswer(COUNT, FORKS, es, 0, VOTED, order, hash, 2, ONE, r, start, canon, hashes)
    ensures r.Some? && r.value.0 in hashes && r.value.0 in es[hash].ancestors && canon == hash
    ensures forall i | 0 <= i < |hashes| :: hashes[i] in FORKS.number && FORKS.number[hashes[i]] == i
  {
    OneMonotone();
    SplitWeights();
    BelowForks();
    var b: Hash := r.value.0;
    AnswerMeets(COUNT, FORKS, es, 0, VOTED, ONE, start, canon, hashes, b);
    assert AtOrBelow(FORKS, canon, hash) && canon in es;
    assert NodeOk(FORKS, es, 0, 0);
    assert canon == hash;
    SplitEdge(es, VOTED, hash);
    forall i | 0 <= i < |hashes| ensures hashes[i] in FORKS.number && FORKS.number[hashes[i]] == i {
      BlockNumber(COUNT, FORKS, es, 0, VOTED, es[0].descendents, ONE, 0, hashes, i);
    }
  }

  /** Both chains being the same, they cannot have both blocks 1 and 2. */
  lemma OneIsMissed(es: Entries<nat>, hashes: seq<Hash>, r: Hash, s: Hash)
    requires Split(es, VOTED)
    requires forall i | 0 <= i < |hashes| :: hashes[i] in FORKS.number && FORKS.number[hashes[i]] == i
    requires r in hashes && r in es[4].ancestors && s in hashes && s in es[6].ancestors
    ensures !AtOrBelow(FORKS, 1, r) || !AtOrBelow(FORKS, 2, s)
  {
    BelowForks();
    SplitEdge(es, VOTED, 4);
    SplitEdge(es, VOTED, 6);
    var i :| 0 <= i < |hashes| && hashes[i] == r;
    var j :| 0 <= j < |hashes| && hashes[j] == s;
    assert r == 0 || s == 0;
  }

  method Cast(g: VoteGraph<nat>, hash: Hash, vote: nat)
    requires g.Valid() && g.chain == FORKS && 3 <= hash <= 6 && AtOrBelow(FORKS, g.base, hash)
    modifies g`entries, g`heads, g`log
    ensures g.Valid() && g.log == old(g.log) + [(hash, vote)]
  {
    g.ValidIsLoose();
    var _ := g.Insert(hash, 2, vote, FORKS);
  }

  method Grow(order: set<Hash> -> seq<Hash>) returns (g: VoteGraph<nat>)
    requires IsIteration(order)
    ensures g.Valid() && g.monoid == COUNT && g.chain == FORKS && g.base == 0 && g.log == VOTED
    ensures Split(g.entries, g.log)
  {
    OneMonotone();
    BelowForks();
    g := new VoteGraph(COUNT, order, FORKS, 0, 0);
    Cast(g, 3, 1);
    Cast(g, 4, 0);
    Cast(g, 5, 1);
    Cast(g, 6, 0);
    IsSplit(g);
  }

  lemma IsSplit(g: VoteGraph<nat>)
    requires g.Valid() && g.monoid == COUNT && g.chain == FORKS && g.base == 0 && g.bases == {0} && g.log == VOTED
    ensures Split(g.entries, g.log)
  {
    g.Open();
    FourVoted();
  }

  lemma FourVoted()
    ensures Voted(VOTED) == {3, 4, 5, 6}
  {
    assert VOTED[0].0 == 3 && VOTED[1].0 == 4 && VOTED[2].0 == 5 && VOTED[3].0 == 6;
  }

  /** Blocks 1 and 2 meet the condition and lie below blocks 4 and 6, but of the searches from there at least one
      answers block 0. */
  method HighestCanBeMissed(order: set<Hash> -> seq<Hash>) returns (g: VoteGraph<nat>, r: Option<(Hash, nat)>,
                            s: Option<(Hash, nat)>)
    requires IsIteration(order)
    ensures ONE(Weight(g.monoid, g.chain, g.log, 1)) && AtOrBelow(g.chain, 1, 4)
    ensures ONE(Weight(g.monoid, g.chain, g.log, 2)) && AtOrBelow(g.chain, 2, 6)
    ensures r.Some? && s.Some? && (!AtOrBelow(g.chain, 1, r.value.0) || !AtOrBelow(g.chain, 2, s.value.0))
  {
    OneMonotone();
    SplitWeights();
    g := Grow(order);
    ghost var start, canon, hashes, start', canon', hashes';
    r, start, canon, hashes := FindAncestor(g, 4, 2, ONE);
    s, start', canon', hashes' := FindAncestor(g, 6, 2, ONE);
    AnswerInChain(g.entries, g.order(g.heads), 4, r, start, canon, hashes);
    AnswerInChain(g.entries, g.order(g.heads), 6, s, start', canon', hashes');
    SplitEdge(g.entries, g.log, 4);
    SplitEdge(g.entries, g.log, 6);
    OneIsMissed(g.entries, hashes, r.value.0, s.value.0);
  }
}
