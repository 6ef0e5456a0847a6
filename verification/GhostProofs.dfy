/** Why the end of a maximal merge chain is the highest block of its branch that meets the condition. */
module GhostProofs {
  import opened Wrappers
  import opened BlockTree
  import opened Votes
  import opened GraphSpec
  import opened MergeSpec

  /** A block of the graph that meets the condition, with nothing of the graph above it that does. */
  ghost predicate Heaviest<V>(m: Monoid<V>, c: Chain, es: Entries<V>, log: Log<V>, cond: V -> bool, r: Hash) {
    && InGraph(es, r) && cond(Weight(m, c, log, r))
    && (forall y {:trigger InGraph(es, y)} | InGraph(es, y) && AtOrBelow(c, r, y)
        && y != r :: !cond(Weight(m, c, log, y)))
  }

  lemma {:induction false} ChildTowards(c: Chain, b: Hash, y: Hash) returns (x: Hash)
    requires AtOrBelow(c, b, y) && b != y && y in c.number
    ensures x in c.parent && c.parent[x] == b && AtOrBelow(c, x, y)
    decreases c.number[y]
  {
    if c.parent[y] == b {
      x := y;
    } else {
      x := ChildTowards(c, b, c.parent[y]);
    }
  }

  /** The end of a merge chain: the node itself, or a block inside the edge of one of the merging children. */
  lemma ChainEnd<V>(m: Monoid<V>, c: Chain, es: Entries<V>, base: Hash, log: Log<V>, ds: seq<Hash>, cond: V -> bool,
                    key: Hash, hashes: seq<Hash>, i: nat)
    returns (d: Hash)
    requires EdgesOk(c, es, base) && ChildrenOf(es, key, ds) && MergeChain(m, c, es, log, ds, cond, key, hashes)
    requires 0 < i < |hashes|
    ensures d in ds && Contains(es, d, hashes[i]) && hashes[i] !in es && hashes[i] in c.number
    ensures AtOrBelow(c, key, hashes[i]) && c.number[hashes[i]] == es[key].number + i
    ensures cond(SelSum(m, c, es, log, ds, hashes[i]))
  {
    assert MergeLink(m, c, es, log, ds, cond, hashes, i);
    var b := hashes[i];
    d := Sel(es, ds, b)[0];
    assert IsChild(es, key, d);
    assert NodeOk(c, es, base, d) && NodeOk(c, es, base, key);
    PathMember(c, d, es[d].ancestors, b);
    if i > 1 {
      var e := ChainEnd(m, c, es, base, log, ds, cond, key, hashes, i - 1);
    }
    assert c.number[b] == es[key].number + i;
    EdgeParent(c, es, base, d, b);
  }

  /** A node at, or just above in its edge, a child block of the chain's end is a child of `key` above that end. */
  lemma NextNodes<V>(m: Monoid<V>, c: Chain, es: Entries<V>, base: Hash, log: Log<V>, ds: seq<Hash>, cond: V -> bool,
                     key: Hash, hashes: seq<Hash>, y: Hash, d: Hash)
    requires EdgesOk(c, es, base) && ChildrenOf(es, key, ds) && MergeChain(m, c, es, log, ds, cond, key, hashes)
    requires y in c.parent && c.parent[y] == Last(hashes)
    requires d in es && (d == y || (y !in es && Contains(es, d, y)))
    ensures IsChild(es, key, d) && Last(hashes) in es[d].ancestors
  {
    var b := Last(hashes);
    assert NodeOk(c, es, base, d) && NodeOk(c, es, base, key);
    EndNumber(m, c, es, base, log, ds, cond, key, hashes);
    if d == y {
      BaseBelow(c, es, base, key);
      BelowNumber(c, base, key);
      assert d != base;
      assert StepDown(c, d, es[d].ancestors, 0);
    } else {
      EdgeParent(c, es, base, d, y);
    }
    assert b in es[d].ancestors;
    if |hashes| > 1 {
      var e := ChainEnd(m, c, es, base, log, ds, cond, key, hashes, |hashes| - 1);
      ContainingSameParent(c, es, base, b, d, e);
    } else {
      var i :| 0 <= i < |es[d].ancestors| && es[d].ancestors[i] == key;
      assert i == |es[d].ancestors| - 1;
    }
  }

  lemma EndNumber<V>(m: Monoid<V>, c: Chain, es: Entries<V>, base: Hash, log: Log<V>, ds: seq<Hash>, cond: V -> bool,
                     key: Hash, hashes: seq<Hash>)
    requires EdgesOk(c, es, base) && ChildrenOf(es, key, ds) && MergeChain(m, c, es, log, ds, cond, key, hashes)
    ensures Last(hashes) in c.number && c.number[Last(hashes)] == es[key].number + |hashes| - 1
    ensures AtOrBelow(c, key, Last(hashes))
    ensures InGraph(es, Last(hashes))
  {
    assert NodeOk(c, es, base, key);
    if |hashes| > 1 {
      var d := ChainEnd(m, c, es, base, log, ds, cond, key, hashes, |hashes| - 1);
    }
  }

  /** Every child of `key` above the chain's end is among the candidates. */
  ghost predicate Covers<V>(es: Entries<V>, key: Hash, ds: seq<Hash>, b: Hash) {
    forall d | IsChild(es, key, d) && b in es[d].ancestors :: d in ds
  }

  /** The weight of a block just above the chain's end comes from a single failing child, or from a
      failing merge: it does not meet the condition. */
  lemma NextFails<V(!new)>(m: Monoid<V>, c: Chain, es: Entries<V>, base: Hash, log: Log<V>, ds: seq<Hash>,
                           cond: V -> bool, key: Hash, hashes: seq<Hash>, y: Hash, x: Hash)
    requires Lawful(m) && EdgesOk(c, es, base) && VotesOk(m, c, es, log)
    requires ChildrenOf(es, key, ds) && MergeChain(m, c, es, log, ds, cond, key, hashes)
    requires Maximal(m, c, es, log, ds, cond, Last(hashes))
    requires Covers(es, key, ds, Last(hashes)) && (forall d | d in ds :: !cond(es[d].cumulative))
    requires y in c.parent && c.parent[y] == Last(hashes) && x in es && AtOrBelow(c, y, x)
    ensures !cond(Weight(m, c, log, y))
  {
    if y in es {
      NextNodes(m, c, es, base, log, ds, cond, key, hashes, y, y);
    } else {
      EndNumber(m, c, es, base, log, ds, cond, key, hashes);
      BaseBelow(c, es, base, key);
      BelowTrans(c, base, key, Last(hashes));
      assert AtOrBelow(c, Last(hashes), y);
      BelowTrans(c, base, Last(hashes), y);
      var d := ContainingNode(c, es, base, y, x);
      forall e | Contains(es, e, y) ensures e in Sel(es, ds, y) {
        NextNodes(m, c, es, base, log, ds, cond, key, hashes, y, e);
      }
      WeightOfContained(m, c, es, base, log, y, Sel(es, ds, y));
      assert !MergeAt(m, c, es, log, ds, cond, y);
      if |Sel(es, ds, y)| < 2 {
        assert Sel(es, ds, y) == [d];
        SumOfOne(m, c, es, log, d);
      }
    }
  }

  /** The end of a maximal merge chain is the heaviest block of its branch. */
  lemma EndIsHeaviest<V(!new)>(m: Monoid<V>, c: Chain, es: Entries<V>, base: Hash, log: Log<V>, ds: seq<Hash>,
                               cond: V -> bool, key: Hash, hashes: seq<Hash>)
    requires Lawful(m) && Monotone(m, cond) && EdgesOk(c, es, base) && VotesOk(m, c, es, log)
    requires ChildrenOf(es, key, ds) && MergeChain(m, c, es, log, ds, cond, key, hashes)
    requires Maximal(m, c, es, log, ds, cond, Last(hashes))
    requires Covers(es, key, ds, Last(hashes)) && (forall d | d in ds :: !cond(es[d].cumulative))
             && cond(es[key].cumulative)
    ensures Heaviest(m, c, es, log, cond, Last(hashes))
  {
    var b := Last(hashes);
    EndNumber(m, c, es, base, log, ds, cond, key, hashes);
    EndMeets(m, c, es, base, log, ds, cond, key, hashes);
    forall y | InGraph(es, y) && AtOrBelow(c, b, y) && y != b ensures !cond(Weight(m, c, log, y)) {
      var x := NodeAbove(c, es, base, y);
      BelowNumber(c, y, x);
      var y' := ChildTowards(c, b, y);
      BelowTrans(c, y', y, x);
      NextFails(m, c, es, base, log, ds, cond, key, hashes, y', x);
      if cond(Weight(m, c, log, y)) {
        WeightMonotone(m, c, log, y', y, cond);
      }
    }
  }

  lemma EndMeets<V(!new)>(m: Monoid<V>, c: Chain, es: Entries<V>, base: Hash, log: Log<V>, ds: seq<Hash>,
                          cond: V -> bool, key: Hash, hashes: seq<Hash>)
    requires Lawful(m) && Monotone(m, cond) && EdgesOk(c, es, base) && VotesOk(m, c, es, log)
    requires ChildrenOf(es, key, ds) && MergeChain(m, c, es, log, ds, cond, key, hashes) && cond(es[key].cumulative)
    ensures cond(Weight(m, c, log, Last(hashes)))
  {
    if |hashes| > 1 {
      var d := ChainEnd(m, c, es, base, log, ds, cond, key, hashes, |hashes| - 1);
      SelSumBelowWeight(m, c, es, base, log, ds, Last(hashes), cond);
    }
  }

  // ---- Restarting from a block inside an edge ----

  /** All children of `key` with `h` in their edge, for a block `h` in some edge above `key`. */
  ghost predicate AllAbove<V>(es: Entries<V>, key: Hash, ds: seq<Hash>, h: Hash) {
    && h !in es && ds != []
    && (forall d :: d in ds <==> Contains(es, d, h))
  }

  lemma CoversBeyond<V>(c: Chain, es: Entries<V>, base: Hash, key: Hash, ds: seq<Hash>, h: Hash, b: Hash)
    requires EdgesOk(c, es, base) && ChildrenOf(es, key, ds) && AllAbove(es, key, ds, h) && AtOrBelow(c, h, b)
    ensures Covers(es, key, ds, b)
  {
    assert Contains(es, ds[0], h) && NodeOk(c, es, base, ds[0]) && IsChild(es, key, ds[0]);
    PathMember(c, ds[0], es[ds[0]].ancestors, h);
    PathMember(c, ds[0], es[ds[0]].ancestors, key);
    BelowNumber(c, key, h);
    forall d | IsChild(es, key, d) && b in es[d].ancestors ensures Contains(es, d, h) {
      assert NodeOk(c, es, base, d);
      PathMember(c, d, es[d].ancestors, b);
      PathMember(c, d, es[d].ancestors, key);
      BelowTrans(c, h, b, d);
      BelowNumber(c, h, b);
      PathCovers(c, d, es[d].ancestors, h);
    }
  }

  /** The chain's end and the cached block lie on one line. */
  lemma EndComparable<V>(m: Monoid<V>, c: Chain, es: Entries<V>, base: Hash, log: Log<V>, ds: seq<Hash>,
                         cond: V -> bool, key: Hash, hashes: seq<Hash>, h: Hash)
    requires EdgesOk(c, es, base) && ChildrenOf(es, key, ds) && MergeChain(m, c, es, log, ds, cond, key, hashes)
    requires AllAbove(es, key, ds, h)
    ensures Last(hashes) in c.number && h in c.number
    ensures c.number[h] <= c.number[Last(hashes)] ==> AtOrBelow(c, h, Last(hashes))
    ensures c.number[h] > c.number[Last(hashes)] ==> AtOrBelow(c, Last(hashes), h)
    ensures c.number[h] > es[key].number && AtOrBelow(c, key, h)
  {
    var d := ds[0];
    assert Contains(es, d, h) && IsChild(es, key, d);
    EndNumber(m, c, es, base, log, ds, cond, key, hashes);
    if |hashes| > 1 {
      d := ChainEnd(m, c, es, base, log, ds, cond, key, hashes, |hashes| - 1);
      assert IsChild(es, key, d) && Contains(es, d, h);
    }
    assert NodeOk(c, es, base, d) && NodeOk(c, es, base, key);
    PathMember(c, d, es[d].ancestors, h);
    PathMember(c, d, es[d].ancestors, key);
    PathMember(c, d, es[d].ancestors, Last(hashes));
    BelowNumber(c, key, h);
    BelowLinear(c, h, Last(hashes), d);
    BelowLinear(c, Last(hashes), h, d);
  }

  /** If the cached block still meets the condition, the constrained chain climbs at least to it. */
  lemma ReachesCached<V(!new)>(m: Monoid<V>, c: Chain, es: Entries<V>, base: Hash, log: Log<V>, ds: seq<Hash>,
                               cond: V -> bool, key: Hash, hashes: seq<Hash>, h: Hash)
    requires Lawful(m) && EdgesOk(c, es, base) && VotesOk(m, c, es, log)
    requires ChildrenOf(es, key, ds) && MergeChain(m, c, es, log, ds, cond, key, hashes)
    requires Maximal(m, c, es, log, ds, cond, Last(hashes))
    requires AllAbove(es, key, ds, h) && (forall d | d in ds :: !cond(es[d].cumulative)) && cond(Weight(m, c, log, h))
    ensures AtOrBelow(c, h, Last(hashes))
  {
    EndComparable(m, c, es, base, log, ds, cond, key, hashes, h);
    var b := Last(hashes);
    if c.number[b] < c.number[h] {
      var y := ChildTowards(c, b, h);
      EndNumber(m, c, es, base, log, ds, cond, key, hashes);
      forall d | d in ds ensures y in es[d].ancestors {
        assert Contains(es, d, h) && IsChild(es, key, d);
        assert NodeOk(c, es, base, d) && NodeOk(c, es, base, key);
        PathMember(c, d, es[d].ancestors, h);
        PathMember(c, d, es[d].ancestors, key);
        BelowTrans(c, y, h, d);
        BelowNumber(c, y, h);
        PathCovers(c, d, es[d].ancestors, y);
      }
      SelAll(es, ds, y);
      BaseBelow(c, es, base, key);
      BelowTrans(c, base, key, h);
      WeightOfContained(m, c, es, base, log, h, ds);
      assert !MergeAt(m, c, es, log, ds, cond, y);
      if |ds| == 1 {
        assert ds == [ds[0]];
        SumOfOne(m, c, es, log, ds[0]);
      }
    }
  }

  /** If the cached block no longer meets the condition, the constrained chain stays below it. */
  lemma StopsBelowCached<V(!new)>(m: Monoid<V>, c: Chain, es: Entries<V>, base: Hash, log: Log<V>, ds: seq<Hash>,
                                  cond: V -> bool, key: Hash, hashes: seq<Hash>, h: Hash)
    requires Lawful(m) && Monotone(m, cond) && EdgesOk(c, es, base) && VotesOk(m, c, es, log)
    requires ChildrenOf(es, key, ds) && MergeChain(m, c, es, log, ds, cond, key, hashes)
    requires AllAbove(es, key, ds, h) && !cond(Weight(m, c, log, h)) && cond(es[key].cumulative)
    ensures AtOrBelow(c, Last(hashes), h)
  {
    EndComparable(m, c, es, base, log, ds, cond, key, hashes, h);
    EndMeets(m, c, es, base, log, ds, cond, key, hashes);
    if AtOrBelow(c, h, Last(hashes)) {
      WeightMonotone(m, c, log, h, Last(hashes), cond);
    }
  }
}
