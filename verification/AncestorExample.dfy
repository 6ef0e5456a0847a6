/** Searches for an ancestor, started inside an edge, that go wrong: blocks 0, 1 and 2 in a row, and the blocks 3 and 4
    on 2. With one vote for each of 3 and 4 the answer is above the start, with two for 3 alone it is too low. */
module AncestorExample {
  import opened Wrappers
  import opened BlockTree
  import opened Votes
  import opened GraphSpec
  import opened VoteGraphs
  import opened AncestorSearch
  import opened AncestorProofs
  import opened AncestorExact

  const TREE: Chain := Blocks(map[1 := 0, 2 := 1, 3 := 2, 4 := 2], map[0 := 0, 1 := 1, 2 := 2, 3 := 3, 4 := 3])

  function Plus(x: nat, y: nat): nat {
    x + y
  }

  const NONE: nat := 0

  const COUNT: Monoid<nat> := Monoid(NONE, Plus)

  const TWO: nat -> bool := (x: nat) => x >= 2

  lemma CountLawful()
    ensures Lawful(COUNT) && Monotone(COUNT, TWO)
  {
  }

  /** Who is below whom. */
  lemma Below()
    ensures AtOrBelow(TREE, 0, 1) && AtOrBelow(TREE, 0, 2) && AtOrBelow(TREE, 1, 2)
    ensures AtOrBelow(TREE, 0, 3) && AtOrBelow(TREE, 1, 3) && AtOrBelow(TREE, 2, 3)
    ensures AtOrBelow(TREE, 0, 4) && AtOrBelow(TREE, 1, 4) && AtOrBelow(TREE, 2, 4)
    ensures !AtOrBelow(TREE, 3, 4) && !AtOrBelow(TREE, 4, 3) && !AtOrBelow(TREE, 2, 1)
    ensures !AtOrBelow(TREE, 3, 0) && !AtOrBelow(TREE, 3, 1) && !AtOrBelow(TREE, 3, 2)
    ensures !AtOrBelow(TREE, 4, 0) && !AtOrBelow(TREE, 4, 1) && !AtOrBelow(TREE, 4, 2)
  {
    assert TREE.parent[1] == 0 && TREE.parent[2] == 1 && TREE.parent[3] == 2 && TREE.parent[4] == 2;
    assert AtOrBelow(TREE, 0, 1) && !AtOrBelow(TREE, 2, 1) && !AtOrBelow(TREE, 3, 1) && !AtOrBelow(TREE, 4, 1);
    assert AtOrBelow(TREE, 0, 2) && AtOrBelow(TREE, 1, 2) && !AtOrBelow(TREE, 3, 2) && !AtOrBelow(TREE, 4, 2);
  }

  /** The graph after one vote for each of the two blocks. */
  ghost predicate Forked(es: Entries<nat>, log: Log<nat>) {
    && es.Keys == {0, 3, 4} && log == [(3, 1), (4, 1)]
    && EdgesOk(TREE, es, 0) && DescendentsOk(es) && VotesOk(COUNT, TREE, es, log)
  }

  lemma EdgeOf(es: Entries<nat>, k: Hash)
    requires EdgesOk(TREE, es, 0) && es.Keys == {0, 3, 4} && (k == 3 || k == 4)
    ensures es[k].ancestors == [2, 1, 0]
  {
    assert NodeOk(TREE, es, 0, k);
    var anc := es[k].ancestors;
    assert StepDown(TREE, k, anc, 0) && anc[0] == 2;
    assert StepDown(TREE, k, anc, 1) && anc[1] == 1;
    assert StepDown(TREE, k, anc, 2) && anc[2] == 0;
    assert |anc| == 3;
  }

  lemma Weighs(log: Log<nat>, b: Hash)
    requires log == [(3, 1), (4, 1)] && b in TREE.number
    ensures Weight(COUNT, TREE, log, b) == if b == 3 || b == 4 then 1 else 2
  {
    Below();
    var s := Up(TREE, b);
    assert log[..1] == [(3, 1)] && log[..1][..0] == [];
    assert SumIn(COUNT, log[..1], s) == if 3 in s then 1 else 0;
  }

  lemma OnlyTrunk(es: Entries<nat>, log: Log<nat>)
    requires Forked(es, log)
    ensures Exclusive(COUNT, TREE, es, log, TWO)
  {
    Below();
    forall x, y | InGraph(es, x) && InGraph(es, y) && TWO(Weight(COUNT, TREE, log, x))
                  && TWO(Weight(COUNT, TREE, log, y))
      ensures Comparable(TREE, x, y)
    {
      Known(es, x);
      Known(es, y);
      Weighs(log, x);
      Weighs(log, y);
    }
  }

  lemma Known(es: Entries<nat>, x: Hash)
    requires EdgesOk(TREE, es, 0) && es.Keys == {0, 3, 4} && InGraph(es, x)
    ensures x in TREE.number
  {
    EdgeOf(es, 3);
    EdgeOf(es, 4);
  }

  lemma AnswerIsAbove(es: Entries<nat>, log: Log<nat>, order: seq<Hash>, r: Option<(Hash, nat)>, start: Hash,
                      canon: Hash, hashes: seq<Hash>)
    requires Forked(es, log) && AncestorAnswer(COUNT, TREE, es, 0, log, order, 1, 1, TWO, r, start, canon, hashes)
    ensures r.Some? && !AtOrBelow(TREE, r.value.0, 1)
  {
    CountLawful();
    Below();
    EdgeOf(es, 3);
    EdgeOf(es, 4);
    OnlyTrunk(es, log);
    Weighs(log, 0);
    Weighs(log, 2);
    assert Contains(es, 3, 1) && InGraph(es, 1);
    assert Contains(es, 3, 2) && Contains(es, 4, 2);
    assert r.Some? && Contains(es, start, 1);
    EdgeStartExact(COUNT, TREE, es, 0, log, TWO, 1, start, canon, hashes, r.value.0, 2);
  }

  lemma TwoVotes(log: Log<nat>)
    requires log == [(3, 1), (4, 1)]
    ensures Voted(log) == {3, 4}
  {
    assert log[0].0 == 3 && log[1].0 == 4;
  }

  method Fork(order: set<Hash> -> seq<Hash>) returns (g: VoteGraph<nat>)
    requires IsIteration(order)
    ensures g.Valid() && g.monoid == COUNT && g.chain == TREE && g.base == 0 && Forked(g.entries, g.log)
  {
    CountLawful();
    Below();
    g := new VoteGraph(COUNT, order, TREE, 0, 0);
    var _ := g.Insert(3, 3, 1, TREE);
    var _ := g.Insert(4, 3, 1, TREE);
    g.Open();
    TwoVotes(g.log);
  }

  /** Whatever the order of the heads, the highest block with two votes at or below block 1 is answered as one above
      it. */
  method AncestorCanBeAbove(order: set<Hash> -> seq<Hash>) returns (r: Option<(Hash, nat)>)
    requires IsIteration(order)
    ensures r.Some? && !AtOrBelow(TREE, r.value.0, 1)
  {
    CountLawful();
    var g := Fork(order);
    ghost var start, canon, hashes;
    r, start, canon, hashes := FindAncestor(g, 1, 1, TWO);
    AnswerIsAbove(g.entries, g.log, g.order(g.heads), r, start, canon, hashes);
  }

  // ---- One edge ----

  /** The graph after a double vote for block 3. */
  ghost predicate Straight(es: Entries<nat>, log: Log<nat>) {
    && es.Keys == {0, 3} && log == [(3, 2)]
    && EdgesOk(TREE, es, 0) && DescendentsOk(es) && VotesOk(COUNT, TREE, es, log)
  }

  lemma StraightEdge(es: Entries<nat>)
    requires EdgesOk(TREE, es, 0) && es.Keys == {0, 3}
    ensures es[3].ancestors == [2, 1, 0] && es[0].ancestors == []
    ensures forall x | InGraph(es, x) :: AtOrBelow(TREE, x, 3) && x in TREE.number
  {
    Below();
    assert NodeOk(TREE, es, 0, 3) && NodeOk(TREE, es, 0, 0);
    var anc := es[3].ancestors;
    assert StepDown(TREE, 3, anc, 0) && anc[0] == 2;
    assert StepDown(TREE, 3, anc, 1) && anc[1] == 1;
    assert StepDown(TREE, 3, anc, 2) && anc[2] == 0;
    assert |anc| == 3;
  }

  lemma StraightWeighs(log: Log<nat>, b: Hash)
    requires log == [(3, 2)] && AtOrBelow(TREE, b, 3)
    ensures Weight(COUNT, TREE, log, b) == 2
  {
    var s := Up(TREE, b);
    assert 3 in TREE.number && 3 in s;
    assert log[..0] == [] && SumIn(COUNT, log[..0], s) == 0;
  }

  lemma StraightExclusive(es: Entries<nat>, log: Log<nat>)
    requires Straight(es, log)
    ensures Exclusive(COUNT, TREE, es, log, TWO)
  {
    StraightEdge(es);
    forall x, y | InGraph(es, x) && InGraph(es, y) && TWO(Weight(COUNT, TREE, log, x))
                  && TWO(Weight(COUNT, TREE, log, y))
      ensures Comparable(TREE, x, y)
    {
      BelowLinear(TREE, x, y, 3);
    }
  }

  lemma AnswerIsLow(es: Entries<nat>, log: Log<nat>, order: seq<Hash>, r: Option<(Hash, nat)>, start: Hash, canon: Hash,
                    hashes: seq<Hash>)
    requires Straight(es, log) && AncestorAnswer(COUNT, TREE, es, 0, log, order, 1, 1, TWO, r, start, canon, hashes)
    ensures r == Some((0, 0)) && TWO(Weight(COUNT, TREE, log, 1))
  {
    CountLawful();
    Below();
    StraightEdge(es);
    StraightExclusive(es, log);
    StraightWeighs(log, 0);
    StraightWeighs(log, 1);
    assert Contains(es, 3, 1) && InGraph(es, 1);
    assert r.Some? && start == 3;
    EdgeStartExact(COUNT, TREE, es, 0, log, TWO, 1, start, canon, hashes, r.value.0, 2);
    assert AtOrBelow(TREE, r.value.0, 1);
    if r.value.0 == 1 {
      OneEdgeMissed(COUNT, TREE, es, 0, log, TWO, 1, start, canon, hashes, 1);
    }
  }

  method Line(order: set<Hash> -> seq<Hash>) returns (g: VoteGraph<nat>)
    requires IsIteration(order)
    ensures g.Valid() && g.monoid == COUNT && g.chain == TREE && g.base == 0 && Straight(g.entries, g.log)
  {
    CountLawful();
    Below();
    g := new VoteGraph(COUNT, order, TREE, 0, 0);
    var _ := g.Insert(3, 3, 2, TREE);
    g.Open();
    assert g.log[0].0 == 3;
    assert Voted(g.log) == {3};
  }

  /** Block 1 has two votes, and the highest block at or below it with two votes is answered as block 0. */
  method AncestorCanBeMissed(order: set<Hash> -> seq<Hash>) returns (g: VoteGraph<nat>, r: Option<(Hash, nat)>)
    requires IsIteration(order)
    ensures g.Valid() && g.chain == TREE && InGraph(g.entries, 1) && TWO(Weight(g.monoid, g.chain, g.log, 1))
    ensures r == Some((0, 0))
  {
    CountLawful();
    g := Line(order);
    ghost var start, canon, hashes;
    r, start, canon, hashes := FindAncestor(g, 1, 1, TWO);
    StraightEdge(g.entries);
    assert Contains(g.entries, 3, 1);
    AnswerIsLow(g.entries, g.log, g.order(g.heads), r, start, canon, hashes);
  }
}
