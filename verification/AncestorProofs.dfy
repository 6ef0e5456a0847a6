/** What the answers of `find_ancestor` mean. */
module AncestorProofs {
  import opened Wrappers
  import opened BlockTree
  import opened Votes
  import opened GraphSpec
  import opened MergeSpec
  import opened GhostProofs
  import opened AncestorSearch

  /** No two blocks of the graph on different forks meet the condition. */
  ghost predicate Exclusive<V>(m: Monoid<V>, c: Chain, es: Entries<V>, log: Log<V>, cond: V -> bool) {
    forall x, y {:trigger InGraph(es, x), InGraph(es, y)} |
      InGraph(es, x) && InGraph(es, y) && cond(Weight(m, c, log, x))
      && cond(Weight(m, c, log, y)) :: Comparable(c, x, y)
  }

  /** Two edges share a block. */
  ghost predicate TwoContain<V>(es: Entries<V>, y: Hash) {
    exists d, e :: d != e && Contains(es, d, y) && Contains(es, e, y)
  }

  ghost predicate AllMergeBelow<V>(m: Monoid<V>, c: Chain, es: Entries<V>, log: Log<V>, ds: seq<Hash>, cond: V -> bool,
                                   key: Hash, x: Hash)
    requires (forall d | d in ds :: d in es) && key in es
  {
    forall y {:trigger MergeAt(m, c, es, log, ds, cond, y)} |
      AtOrBelow(c, y, x) && y in c.number && es[key].number < c.number[y] :: MergeAt(m, c, es, log, ds, cond, y)
  }

  /** A merge point that branches off the path from `key` to `x`. */
  ghost predicate Rival<V>(m: Monoid<V>, c: Chain, es: Entries<V>, log: Log<V>, ds: seq<Hash>, cond: V -> bool,
                           key: Hash, x: Hash, z: Hash)
    requires forall d | d in ds :: d in es
  {
    && MergeAt(m, c, es, log, ds, cond, z) && z in c.parent && AtOrBelow(c, key, c.parent[z])
    && AtOrBelow(c, c.parent[z], x) && c.parent[z] != x && !AtOrBelow(c, z, x)
  }

  ghost predicate NoRival<V>(m: Monoid<V>, c: Chain, es: Entries<V>, log: Log<V>, ds: seq<Hash>, cond: V -> bool,
                             key: Hash, x: Hash)
    requires forall d | d in ds :: d in es
  {
    forall z :: !Rival(m, c, es, log, ds, cond, key, x, z)
  }

  /** A merge chain passes through `x` when every block up to `x` is a merge point and no merge point branches off. */
  lemma {:induction false} ChainPasses<V>(m: Monoid<V>, c: Chain, es: Entries<V>, base: Hash, log: Log<V>,
                                          ds: seq<Hash>, cond: V -> bool, key: Hash, hashes: seq<Hash>, x: Hash, i: nat)
    requires EdgesOk(c, es, base) && ChildrenOf(es, key, ds)
    requires MergeChain(m, c, es, log, ds, cond, key, hashes) && Maximal(m, c, es, log, ds, cond, Last(hashes))
    requires x in c.number && AtOrBelow(c, key, x) && AllMergeBelow(m, c, es, log, ds, cond, key, x)
    requires NoRival(m, c, es, log, ds, cond, key, x)
    requires es[key].number + i <= c.number[x]
    ensures i < |hashes| && AtOrBelow(c, hashes[i], x) && hashes[i] in c.number
    ensures c.number[hashes[i]] == es[key].number + i
  {
    assert NodeOk(c, es, base, key);
    if i > 0 {
      ChainPasses(m, c, es, base, log, ds, cond, key, hashes, x, i - 1);
      var b := hashes[i - 1];
      var y := ChildTowards(c, b, x);
      BelowNumber(c, y, x);
      assert MergeAt(m, c, es, log, ds, cond, y);
      if i < |hashes| {
        assert MergeLink(m, c, es, log, ds, cond, hashes, i);
        BlockNumber(m, c, es, base, log, ds, cond, key, hashes, i);
        BlockNumber(m, c, es, base, log, ds, cond, key, hashes, i - 1);
        assert !Rival(m, c, es, log, ds, cond, key, x, hashes[i]);
        SameHeight(c, hashes[i], y, x);
      }
    }
  }

  lemma SameHeight(c: Chain, z: Hash, y: Hash, x: Hash)
    requires x in c.number && AtOrBelow(c, y, x) && y in c.number && z in c.number && c.number[z] == c.number[y]
    requires Comparable(c, z, x)
    ensures z == y
  {
    BelowNumber(c, y, x);
    if AtOrBelow(c, z, x) {
      BelowLinear(c, z, y, x);
      BelowNumber(c, z, y);
    } else {
      BelowNumber(c, x, z);
    }
  }

  lemma ChainHas<V>(m: Monoid<V>, c: Chain, es: Entries<V>, base: Hash, log: Log<V>, ds: seq<Hash>, cond: V -> bool,
                    key: Hash, hashes: seq<Hash>, x: Hash)
    requires EdgesOk(c, es, base) && ChildrenOf(es, key, ds)
    requires MergeChain(m, c, es, log, ds, cond, key, hashes) && Maximal(m, c, es, log, ds, cond, Last(hashes))
    requires x in c.number && AtOrBelow(c, key, x) && AllMergeBelow(m, c, es, log, ds, cond, key, x)
    requires NoRival(m, c, es, log, ds, cond, key, x)
    ensures es[key].number <= c.number[x] && c.number[x] - es[key].number < |hashes|
    ensures hashes[c.number[x] - es[key].number] == x
  {
    assert NodeOk(c, es, base, key);
    BelowNumber(c, key, x);
    var i := c.number[x] - es[key].number;
    ChainPasses(m, c, es, base, log, ds, cond, key, hashes, x, i);
    BelowNumber(c, hashes[i], x);
  }

  /** A block of the chain in the edge of `canon` is at or below the answer. */
  lemma TopIsAbove<V>(m: Monoid<V>, c: Chain, es: Entries<V>, base: Hash, log: Log<V>, cond: V -> bool, start: Hash,
                      canon: Hash, hashes: seq<Hash>, r: Hash, x: Hash)
    requires EdgesOk(c, es, base) && Trail(m, c, es, log, cond, start, canon, hashes, r)
    requires x in hashes && x in es[canon].ancestors
    ensures AtOrBelow(c, x, r)
  {
    var key := Last(es[canon].ancestors);
    var i :| 0 <= i < |hashes| && hashes[i] == r && TopIndex(es, canon, hashes, i);
    var j :| 0 <= j < |hashes| && hashes[j] == x;
    BlockNumber(m, c, es, base, log, es[key].descendents, cond, key, hashes, i);
    BlockNumber(m, c, es, base, log, es[key].descendents, cond, key, hashes, j);
    assert NodeOk(c, es, base, canon);
    PathMember(c, canon, es[canon].ancestors, x);
    PathMember(c, canon, es[canon].ancestors, r);
    BelowLinear(c, x, r, canon);
  }

  /** The answer is in `canon`'s edge, at or above the node under it, and meets the condition. */
  lemma AnswerMeets<V(!new)>(m: Monoid<V>, c: Chain, es: Entries<V>, base: Hash, log: Log<V>, cond: V -> bool,
                             start: Hash, canon: Hash, hashes: seq<Hash>, r: Hash)
    requires Lawful(m) && Monotone(m, cond) && EdgesOk(c, es, base) && VotesOk(m, c, es, log)
    requires Trail(m, c, es, log, cond, start, canon, hashes, r)
    ensures r in es[canon].ancestors && AtOrBelow(c, r, canon) && r != canon && AtOrBelow(c, r, start)
    ensures AtOrBelow(c, Last(es[canon].ancestors), r) && cond(Weight(m, c, log, r)) && InGraph(es, r)
  {
    var key := Last(es[canon].ancestors);
    var ds := es[key].descendents;
    var i :| 0 <= i < |hashes| && hashes[i] == r && TopIndex(es, canon, hashes, i);
    assert NodeOk(c, es, base, canon);
    PathMember(c, canon, es[canon].ancestors, r);
    BelowTrans(c, r, canon, start);
    if i > 0 {
      var d := ChainEnd(m, c, es, base, log, ds, cond, key, hashes, i);
      SelSumBelowWeight(m, c, es, base, log, ds, r, cond);
    }
    assert Contains(es, canon, r);
  }

  /** From a node that fails the condition the answer is at or above every node below that meets it. */
  lemma AboveNodes<V(!new)>(m: Monoid<V>, c: Chain, es: Entries<V>, base: Hash, log: Log<V>, cond: V -> bool,
                            start: Hash, canon: Hash, hashes: seq<Hash>, r: Hash, k: Hash)
    requires Lawful(m) && Monotone(m, cond) && EdgesOk(c, es, base) && VotesOk(m, c, es, log)
    requires Trail(m, c, es, log, cond, start, canon, hashes, r) && start in es && !cond(Weight(m, c, log, start))
    requires k in es && AtOrBelow(c, k, start) && cond(Weight(m, c, log, k))
    ensures AtOrBelow(c, k, r)
  {
    AnswerMeets(m, c, es, base, log, cond, start, canon, hashes, r);
    assert NodeOk(c, es, base, start) && NodeOk(c, es, base, canon) && NodeOk(c, es, base, k);
    BelowLinear(c, k, canon, start);
    BelowLinear(c, canon, k, start);
    if AtOrBelow(c, canon, k) {
      WeightMonotone(m, c, log, canon, k, cond);
    }
    NodeBelowParent(c, es, base, k, canon);
    BelowTrans(c, k, Last(es[canon].ancestors), r);
  }

  /** Whatever block the search starts from: it finds one exactly when the base meets the condition, and what it finds
      is in the graph and meets it. */
  lemma AnswerFound<V(!new)>(m: Monoid<V>, c: Chain, es: Entries<V>, base: Hash, log: Log<V>, order: seq<Hash>,
                             hash: Hash, number: nat, cond: V -> bool, r: Option<(Hash, nat)>, start: Hash, canon: Hash,
                             hashes: seq<Hash>)
    requires Lawful(m) && Monotone(m, cond) && EdgesOk(c, es, base) && VotesOk(m, c, es, log) && InGraph(es, hash)
    requires AncestorAnswer(m, c, es, base, log, order, hash, number, cond, r, start, canon, hashes)
    ensures r.None? <==> !cond(Weight(m, c, log, base))
    ensures r.Some? ==> InGraph(es, r.value.0) && cond(Weight(m, c, log, r.value.0))
  {
    if hash in es && cond(Weight(m, c, log, hash)) {
      BaseMeets(m, c, es, base, log, cond, hash);
    } else if r.Some? {
      AnswerMeets(m, c, es, base, log, cond, start, canon, hashes, r.value.0);
    }
  }

  /** A block inside the edge of a failing child that meets the condition is a merge point. */
  lemma MeetsInEdge<V(!new)>(m: Monoid<V>, c: Chain, es: Entries<V>, base: Hash, log: Log<V>, cond: V -> bool,
                             key: Hash, canon: Hash, y: Hash)
    requires Lawful(m) && Monotone(m, cond) && EdgesOk(c, es, base) && DescendentsOk(es) && VotesOk(m, c, es, log)
    requires IsChild(es, key, canon) && key in es && ChildrenOf(es, key, es[key].descendents)
    requires y in es[canon].ancestors && y != key && cond(Weight(m, c, log, y))
    requires !cond(es[canon].cumulative) || exists d :: d != canon && Contains(es, d, y)
    ensures MergeAt(m, c, es, log, es[key].descendents, cond, y)
  {
    var ds := es[key].descendents;
    EdgeParent(c, es, base, canon, y);
    forall d | Contains(es, d, y) ensures d in Sel(es, ds, y) {
      ContainingSameParent(c, es, base, y, canon, d);
      assert IsChild(es, key, d);
    }
    BaseBelow(c, es, base, key);
    assert NodeOk(c, es, base, canon);
    PathMember(c, canon, es[canon].ancestors, y);
    BelowTrans(c, base, key, y);
    assert Contains(es, canon, y);
    WeightOfContained(m, c, es, base, log, y, Sel(es, ds, y));
    if |Sel(es, ds, y)| < 2 {
      assert Sel(es, ds, y) == [canon];
      SumOfOne(m, c, es, log, canon);
    }
  }

  /** All blocks from just above `key` up to `x`, in the edge of a failing child, are merge points. */
  lemma AllMeetInEdge<V(!new)>(m: Monoid<V>, c: Chain, es: Entries<V>, base: Hash, log: Log<V>, cond: V -> bool,
                               key: Hash, canon: Hash, x: Hash)
    requires Lawful(m) && Monotone(m, cond) && EdgesOk(c, es, base) && DescendentsOk(es) && VotesOk(m, c, es, log)
    requires IsChild(es, key, canon) && key in es && ChildrenOf(es, key, es[key].descendents)
    requires x in es[canon].ancestors && x != key && cond(Weight(m, c, log, x))
    requires !cond(es[canon].cumulative) || exists d :: d != canon && Contains(es, d, x)
    ensures AllMergeBelow(m, c, es, log, es[key].descendents, cond, key, x)
  {
    assert NodeOk(c, es, base, canon) && NodeOk(c, es, base, key);
    PathMember(c, canon, es[canon].ancestors, x);
    PathMember(c, canon, es[canon].ancestors, key);
    EdgeParent(c, es, base, canon, x);
    forall y | AtOrBelow(c, y, x) && y in c.number && es[key].number < c.number[y]
      ensures MergeAt(m, c, es, log, es[key].descendents, cond, y)
    {
      InEdgeBelow(c, es, base, key, canon, x, y);
      WeightMonotone(m, c, log, y, x, cond);
      if cond(es[canon].cumulative) {
        var d :| d != canon && Contains(es, d, x);
        ContainingSameParent(c, es, base, x, canon, d);
        InEdgeBelow(c, es, base, key, d, x, y);
        assert Contains(es, d, y);
      }
      MeetsInEdge(m, c, es, base, log, cond, key, canon, y);
    }
  }

  lemma InEdgeBelow<V>(c: Chain, es: Entries<V>, base: Hash, key: Hash, d: Hash, x: Hash, y: Hash)
    requires EdgesOk(c, es, base) && IsChild(es, key, d) && key in es && x in es[d].ancestors
    requires AtOrBelow(c, y, x) && y in c.number && es[key].number < c.number[y]
    ensures y in es[d].ancestors && y != key
  {
    assert NodeOk(c, es, base, d) && NodeOk(c, es, base, key);
    PathMember(c, d, es[d].ancestors, x);
    PathMember(c, d, es[d].ancestors, key);
    BelowTrans(c, y, x, d);
    BelowNumber(c, y, x);
    PathCovers(c, d, es[d].ancestors, y);
  }

  /** From a node, a monotone condition that at most one fork can meet: the answer is the highest block at
      or below the node that meets it. */
  lemma FindAncestorHighest<V(!new)>(m: Monoid<V>, c: Chain, es: Entries<V>, base: Hash, log: Log<V>, cond: V -> bool,
                                     start: Hash, canon: Hash, hashes: seq<Hash>, r: Hash, x: Hash)
    requires Lawful(m) && Monotone(m, cond) && EdgesOk(c, es, base) && DescendentsOk(es) && VotesOk(m, c, es, log)
    requires start in es && !cond(es[start].cumulative) && Exclusive(m, c, es, log, cond)
    requires Trail(m, c, es, log, cond, start, canon, hashes, r)
    requires AtOrBelow(c, x, start) && cond(Weight(m, c, log, x))
    ensures AtOrBelow(c, r, start) && cond(Weight(m, c, log, r)) && AtOrBelow(c, x, r)
  {
    AnswerMeets(m, c, es, base, log, cond, start, canon, hashes, r);
    var key := Last(es[canon].ancestors);
    assert NodeOk(c, es, base, canon) && NodeOk(c, es, base, start) && NodeOk(c, es, base, key);
    PathMember(c, canon, es[canon].ancestors, key);
    BelowLinear(c, x, canon, start);
    BelowLinear(c, canon, x, start);
    if AtOrBelow(c, canon, x) {
      WeightMonotone(m, c, log, canon, x, cond);
    }
    BelowLinear(c, x, key, canon);
    if AtOrBelow(c, x, key) {
      BelowTrans(c, x, key, r);
    } else {
      PathCovers(c, canon, es[canon].ancestors, x);
      EdgeMeetingBelow(m, c, es, base, log, cond, start, canon, hashes, r, x);
    }
  }

  lemma ExclusiveNoRival<V(!new)>(m: Monoid<V>, c: Chain, es: Entries<V>, base: Hash, log: Log<V>, ds: seq<Hash>,
                                  cond: V -> bool, key: Hash, x: Hash)
    requires Lawful(m) && Monotone(m, cond) && EdgesOk(c, es, base) && (forall d | d in ds :: d in es)
    requires Exclusive(m, c, es, log, cond) && InGraph(es, x) && x in c.number && cond(Weight(m, c, log, x))
    ensures NoRival(m, c, es, log, ds, cond, key, x)
  {
    forall z ensures !Rival(m, c, es, log, ds, cond, key, x, z) {
      if Rival(m, c, es, log, ds, cond, key, x, z) {
        SelSumBelowWeight(m, c, es, base, log, ds, z, cond);
        assert Contains(es, Sel(es, ds, z)[0], z) && InGraph(es, z);
        assert Comparable(c, z, x);
        BelowNumber(c, c.parent[z], x);
        BelowNumber(c, x, z);
      }
    }
  }

  lemma EdgeMeetingBelow<V(!new)>(m: Monoid<V>, c: Chain, es: Entries<V>, base: Hash, log: Log<V>, cond: V -> bool,
                                  start: Hash, canon: Hash, hashes: seq<Hash>, r: Hash, x: Hash)
    requires Lawful(m) && Monotone(m, cond) && EdgesOk(c, es, base) && DescendentsOk(es) && VotesOk(m, c, es, log)
    requires Exclusive(m, c, es, log, cond) && Trail(m, c, es, log, cond, start, canon, hashes, r)
    requires x in es[canon].ancestors && x != Last(es[canon].ancestors) && cond(Weight(m, c, log, x))
    requires !cond(es[canon].cumulative) || exists d :: d != canon && Contains(es, d, x)
    ensures AtOrBelow(c, x, r)
  {
    var key := Last(es[canon].ancestors);
    var ds := es[key].descendents;
    assert NodeOk(c, es, base, canon);
    PathMember(c, canon, es[canon].ancestors, x);
    AllMeetInEdge(m, c, es, base, log, cond, key, canon, x);
    assert Contains(es, canon, x);
    ExclusiveNoRival(m, c, es, base, log, ds, cond, key, x);
    ChainHas(m, c, es, base, log, ds, cond, key, hashes, x);
    TopIsAbove(m, c, es, base, log, cond, start, canon, hashes, r, x);
  }

  /** From a block inside an edge, the answer can be above that block. It is at or below it exactly when the
      next block of the edge does not bring two children together with enough votes. */
  lemma EdgeStartExact<V(!new)>(m: Monoid<V>, c: Chain, es: Entries<V>, base: Hash, log: Log<V>, cond: V -> bool,
                                hash: Hash, start: Hash, canon: Hash, hashes: seq<Hash>, r: Hash, y: Hash)
    requires Lawful(m) && Monotone(m, cond) && EdgesOk(c, es, base) && DescendentsOk(es) && VotesOk(m, c, es, log)
    requires Exclusive(m, c, es, log, cond) && Trail(m, c, es, log, cond, start, canon, hashes, r)
    requires hash !in es && Contains(es, start, hash) && y in c.parent && c.parent[y] == hash && AtOrBelow(c, y, start)
    ensures AtOrBelow(c, r, hash) <==>
            !(y !in es && cond(Weight(m, c, log, y)) && TwoContain(es, y))
  {
    AnswerMeets(m, c, es, base, log, cond, start, canon, hashes, r);
    assert NodeOk(c, es, base, start);
    PathMember(c, start, es[start].ancestors, hash);
    BelowLinear(c, r, hash, start);
    BelowLinear(c, y, r, start);
    BelowNumber(c, y, start);
    if y !in es && cond(Weight(m, c, log, y)) && TwoContain(es, y) {
      EdgeStartAbove(m, c, es, base, log, cond, hash, start, canon, hashes, r, y);
      BelowNumber(c, y, r);
    } else if !AtOrBelow(c, r, hash) {
      EdgeStartMerge(m, c, es, base, log, cond, hash, start, canon, hashes, r, y);
    }
  }

  lemma EdgeStartAbove<V(!new)>(m: Monoid<V>, c: Chain, es: Entries<V>, base: Hash, log: Log<V>, cond: V -> bool,
                                hash: Hash, start: Hash, canon: Hash, hashes: seq<Hash>, r: Hash, y: Hash)
    requires Lawful(m) && Monotone(m, cond) && EdgesOk(c, es, base) && DescendentsOk(es) && VotesOk(m, c, es, log)
    requires Exclusive(m, c, es, log, cond) && Trail(m, c, es, log, cond, start, canon, hashes, r)
    requires hash !in es && Contains(es, start, hash) && y in c.parent && c.parent[y] == hash && AtOrBelow(c, y, start)
    requires y !in es && cond(Weight(m, c, log, y)) && TwoContain(es, y)
    ensures AtOrBelow(c, y, r)
  {
    var key := Last(es[start].ancestors);
    assert NodeOk(c, es, base, start);
    PathMember(c, start, es[start].ancestors, hash);
    BelowNumber(c, y, start);
    BelowNumber(c, key, hash);
    PathCovers(c, start, es[start].ancestors, y);
    if canon != start {
      NodeBelowParent(c, es, base, canon, start);
      BelowTrans(c, canon, key, hash);
      assert AtOrBelow(c, hash, y);
      BelowTrans(c, canon, hash, y);
      WeightMonotone(m, c, log, canon, y, cond);
    } else {
      var d, e :| d != e && Contains(es, d, y) && Contains(es, e, y);
      var f := if d == start then e else d;
      assert f != start && Contains(es, f, y);
      EdgeMeetingBelow(m, c, es, base, log, cond, start, canon, hashes, r, y);
    }
  }

  lemma EdgeStartMerge<V(!new)>(m: Monoid<V>, c: Chain, es: Entries<V>, base: Hash, log: Log<V>, cond: V -> bool,
                                hash: Hash, start: Hash, canon: Hash, hashes: seq<Hash>, r: Hash, y: Hash)
    requires Lawful(m) && Monotone(m, cond) && EdgesOk(c, es, base) && DescendentsOk(es) && VotesOk(m, c, es, log)
    requires Trail(m, c, es, log, cond, start, canon, hashes, r)
    requires hash !in es && Contains(es, start, hash) && y in c.parent && c.parent[y] == hash && AtOrBelow(c, y, start)
    requires !AtOrBelow(c, r, hash)
    ensures y !in es && cond(Weight(m, c, log, y)) && TwoContain(es, y)
  {
    AnswerMeets(m, c, es, base, log, cond, start, canon, hashes, r);
    var key := Last(es[start].ancestors);
    assert NodeOk(c, es, base, start) && NodeOk(c, es, base, key);
    PathMember(c, start, es[start].ancestors, hash);
    BelowLinear(c, r, hash, start);
    if canon != start {
      NodeBelowParent(c, es, base, canon, start);
      BelowTrans(c, canon, key, hash);
      BelowTrans(c, r, canon, hash);
    }
    BelowLinear(c, y, r, start);
    BelowNumber(c, key, hash);
    WeightMonotone(m, c, log, y, r, cond);
    var ds := es[key].descendents;
    var i :| 0 <= i < |hashes| && hashes[i] == r && TopIndex(es, canon, hashes, i);
    assert i > 0 && MergeLink(m, c, es, log, ds, cond, hashes, i);
    var d, e := Sel(es, ds, r)[0], Sel(es, ds, r)[1];
    assert IsChild(es, key, d) && IsChild(es, key, e) && d != e;
    InEdgeBelow(c, es, base, key, d, r, y);
    InEdgeBelow(c, es, base, key, e, r, y);
    EdgeParent(c, es, base, d, y);
    assert Contains(es, d, y) && Contains(es, e, y);
  }
}
