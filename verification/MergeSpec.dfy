/** Merge points: blocks inside edges where the votes of several children of a node come together. */
module MergeSpec {
  import opened Wrappers
  import opened BlockTree
  import opened Votes
  import opened GraphSpec

  /** The nodes of `ds` whose edges have `y`, in order. */
  function Sel<V>(es: Entries<V>, ds: seq<Hash>, y: Hash): (r: seq<Hash>)
    requires forall d | d in ds :: d in es
    ensures forall x :: x in r <==> x in ds && y in es[x].ancestors
    ensures NoDup(ds) ==> NoDup(r)
  {
    if ds == [] then []
    else
      var rest := Sel(es, ds[..|ds| - 1], y);
      var d := ds[|ds| - 1];
      assert d in ds && ds == ds[..|ds| - 1] + [d];
      if y in es[d].ancestors then rest + [d] else rest
  }

  lemma SelAppend<V>(es: Entries<V>, ds: seq<Hash>, d: Hash, y: Hash)
    requires forall x | x in ds :: x in es
    requires d in es
    ensures Sel(es, ds + [d], y) == if y in es[d].ancestors then Sel(es, ds, y) + [d] else Sel(es, ds, y)
  {
    assert (ds + [d])[..|ds|] == ds;
  }

  /** Selecting by a lower block first makes no difference. */
  lemma {:induction false} SelSel<V>(es: Entries<V>, ds: seq<Hash>, b: Hash, y: Hash)
    requires forall d | d in ds :: d in es
    requires forall d | d in ds && y in es[d].ancestors :: b in es[d].ancestors
    ensures Sel(es, Sel(es, ds, b), y) == Sel(es, ds, y)
  {
    if ds != [] {
      var init, d := ds[..|ds| - 1], Last(ds);
      assert ds == init + [d];
      SelSel(es, init, b, y);
      if b in es[d].ancestors {
        SelAppend(es, Sel(es, init, b), d, y);
      }
    }
  }

  lemma {:induction false} SelAll<V>(es: Entries<V>, ds: seq<Hash>, y: Hash)
    requires forall d | d in ds :: d in es && y in es[d].ancestors
    ensures Sel(es, ds, y) == ds
  {
    if ds != [] {
      SelAll(es, ds[..|ds| - 1], y);
      var d := ds[|ds| - 1];
      assert d in ds && ds == ds[..|ds| - 1] + [d];
    }
  }

  /** The combined votes of the nodes of `ds` above `y`. */
  ghost function SelSum<V>(m: Monoid<V>, c: Chain, es: Entries<V>, log: Log<V>, ds: seq<Hash>, y: Hash): V
    requires forall d | d in ds :: d in es
  {
    SumIn(m, log, UpAll(c, Sel(es, ds, y)))
  }

  /** At least two nodes of `ds` meet at `y`, and together they satisfy the condition. */
  ghost predicate MergeAt<V>(m: Monoid<V>, c: Chain, es: Entries<V>, log: Log<V>, ds: seq<Hash>, cond: V -> bool,
                             y: Hash)
    requires forall d | d in ds :: d in es
  {
    |Sel(es, ds, y)| >= 2 && cond(SelSum(m, c, es, log, ds, y))
  }

  ghost predicate ChildrenOf<V>(es: Entries<V>, key: Hash, ds: seq<Hash>) {
    key in es && NoDup(ds) && forall d | d in ds :: IsChild(es, key, d)
  }

  /** Consecutive merge points from `key` upwards. */
  ghost predicate MergeChain<V>(m: Monoid<V>, c: Chain, es: Entries<V>, log: Log<V>, ds: seq<Hash>, cond: V -> bool,
                                key: Hash, hashes: seq<Hash>)
    requires forall d | d in ds :: d in es
  {
    && |hashes| > 0 && hashes[0] == key
    && (forall i | 0 < i < |hashes| :: MergeLink(m, c, es, log, ds, cond, hashes, i))
  }

  ghost predicate MergeLink<V>(m: Monoid<V>, c: Chain, es: Entries<V>, log: Log<V>, ds: seq<Hash>, cond: V -> bool,
                               hashes: seq<Hash>, i: int)
    requires (forall d | d in ds :: d in es) && 0 < i < |hashes|
  {
    MergeAt(m, c, es, log, ds, cond, hashes[i]) && hashes[i] in c.parent && c.parent[hashes[i]] == hashes[i - 1]
  }

  lemma MergeChainExtend<V>(m: Monoid<V>, c: Chain, es: Entries<V>, log: Log<V>, ds: seq<Hash>, cond: V -> bool,
                            key: Hash, hashes: seq<Hash>, y: Hash)
    requires (forall d | d in ds :: d in es) && MergeChain(m, c, es, log, ds, cond, key, hashes)
    requires MergeAt(m, c, es, log, ds, cond, y) && y in c.parent && c.parent[y] == Last(hashes)
    ensures MergeChain(m, c, es, log, ds, cond, key, hashes + [y])
  {
    var longer := hashes + [y];
    forall i | 0 < i < |longer| ensures MergeLink(m, c, es, log, ds, cond, longer, i) {
      assert i < |hashes| ==> MergeLink(m, c, es, log, ds, cond, hashes, i);
    }
  }

  /** The blocks of a merge chain are below one another. */
  lemma {:induction false} ChainAscends<V>(m: Monoid<V>, c: Chain, es: Entries<V>, log: Log<V>, ds: seq<Hash>,
                                           cond: V -> bool, key: Hash, hashes: seq<Hash>, i: nat, j: nat)
    requires (forall d | d in ds :: d in es) && MergeChain(m, c, es, log, ds, cond, key, hashes) && i <= j < |hashes|
    ensures AtOrBelow(c, hashes[i], hashes[j])
    decreases j
  {
    if i < j {
      ChainAscends(m, c, es, log, ds, cond, key, hashes, i, j - 1);
      assert MergeLink(m, c, es, log, ds, cond, hashes, j);
    }
  }

  /** No further merge point above the end of the chain. */
  ghost predicate Maximal<V>(m: Monoid<V>, c: Chain, es: Entries<V>, log: Log<V>, ds: seq<Hash>, cond: V -> bool,
                             b: Hash)
    requires forall d | d in ds :: d in es
  {
    forall y {:trigger MergeAt(m, c, es, log, ds, cond, y)} | y in c.parent && c.parent[y] == b ::
      !MergeAt(m, c, es, log, ds, cond, y)
  }

  lemma EdgeParent<V>(c: Chain, es: Entries<V>, base: Hash, d: Hash, y: Hash)
    requires EdgesOk(c, es, base) && Contains(es, d, y) && y != Last(es[d].ancestors)
    ensures y in c.parent && c.parent[y] in es[d].ancestors && y !in es
  {
    var anc := es[d].ancestors;
    var i :| 0 <= i < |anc| && anc[i] == y;
    assert NodeOk(c, es, base, d);
    assert StepDown(c, d, anc, i + 1);
  }

  /** The votes gathered at a block are among those above it. */
  lemma SelSumBelowWeight<V(!new)>(m: Monoid<V>, c: Chain, es: Entries<V>, base: Hash, log: Log<V>, ds: seq<Hash>,
                                   y: Hash, cond: V -> bool)
    requires Lawful(m) && Monotone(m, cond) && EdgesOk(c, es, base) && (forall d | d in ds :: d in es)
    requires cond(SelSum(m, c, es, log, ds, y))
    ensures cond(Weight(m, c, log, y))
  {
    var sel := Sel(es, ds, y);
    forall i | 0 <= i < |log| && log[i].0 in UpAll(c, sel) ensures log[i].0 in Up(c, y) {
      var d :| d in sel && AtOrBelow(c, d, log[i].0);
      assert NodeOk(c, es, base, d);
      PathMember(c, d, es[d].ancestors, y);
      BelowTrans(c, y, d, log[i].0);
    }
    SumMonotone(m, log, UpAll(c, sel), Up(c, y), cond);
  }

  /** A single node gathers its own cumulative vote. */
  lemma SumOfOne<V(!new)>(m: Monoid<V>, c: Chain, es: Entries<V>, log: Log<V>, d: Hash)
    requires VotesOk(m, c, es, log) && d in es
    ensures SumIn(m, log, UpAll(c, [d])) == es[d].cumulative
  {
    assert UpAll(c, [d]) == Up(c, d) by {
      assert forall x | x in Up(c, d) :: d in [d] && AtOrBelow(c, d, x);
    }
  }

  // ---- One level of the search ----

  /** Once `j` children are scanned at number `n`: `blocks` has the votes gathered per block, and none
      gathered from two or more children satisfies the condition. */
  ghost predicate Scanned<V>(m: Monoid<V>, c: Chain, es: Entries<V>, log: Log<V>, seen: seq<Hash>, n: nat,
                             cond: V -> bool, blocks: map<Hash, V>)
    requires forall d | d in seen :: d in es
  {
    && (forall y {:trigger y in blocks} :: y in blocks <==> y in c.number && c.number[y] == n && Sel(es, seen, y) != [])
    && (forall y {:trigger blocks[y]} | y in blocks :: blocks[y] == SelSum(m, c, es, log, seen, y))
    && (forall y {:trigger MergeAt(m, c, es, log, seen, cond, y)} | y in c.number && c.number[y] == n ::
          !MergeAt(m, c, es, log, seen, cond, y))
  }

  /** One more child leaves the votes gathered at other blocks alone, and adds its own at its block. */
  lemma ScanBlock<V(!new)>(m: Monoid<V>, c: Chain, es: Entries<V>, base: Hash, log: Log<V>, key: Hash, seen: seq<Hash>,
                           d: Hash, y: Hash)
    requires Lawful(m) && EdgesOk(c, es, base) && VotesOk(m, c, es, log)
    requires ChildrenOf(es, key, seen) && IsChild(es, key, d) && d !in seen
    requires forall x | x in seen + [d] :: x in es
    ensures y !in es[d].ancestors ==> Sel(es, seen + [d], y) == Sel(es, seen, y)
    ensures y in es[d].ancestors ==>
              && Sel(es, seen + [d], y) == Sel(es, seen, y) + [d]
              && SelSum(m, c, es, log, seen + [d], y) == m.add(SelSum(m, c, es, log, seen, y), es[d].cumulative)
              && (Sel(es, seen, y) == [] ==> SelSum(m, c, es, log, seen + [d], y) == es[d].cumulative)
  {
    SelAppend(es, seen, d, y);
    if y in es[d].ancestors {
      forall x | x in Sel(es, seen, y) ensures !Comparable(c, x, d) {
        ChildrenIncomparable(c, es, base, key, x, d);
      }
      UpAllExtend(m, c, log, Sel(es, seen, y), d);
      if Sel(es, seen, y) == [] {
        assert [] + [d] == [d];
        SumOfOne(m, c, es, log, d);
      }
    }
  }

  /** What scanning child `d` does to the gathered votes. */
  function ScanEntry<V>(m: Monoid<V>, e: Entry<V>, n: nat, blocks: map<Hash, V>): map<Hash, V> {
    match e.AncestorBlock(n)
    case None => blocks
    case Some(y) => blocks[y := if y in blocks then m.add(blocks[y], e.cumulative) else e.cumulative]
  }

  /** Scanning child `d` as seen at one block of the level. */
  lemma ScanAt<V(!new)>(m: Monoid<V>, c: Chain, es: Entries<V>, base: Hash, log: Log<V>, key: Hash, seen: seq<Hash>,
                        d: Hash, n: nat, cond: V -> bool, blocks: map<Hash, V>, y: Hash)
    requires Lawful(m) && EdgesOk(c, es, base) && VotesOk(m, c, es, log)
    requires ChildrenOf(es, key, seen) && IsChild(es, key, d) && d !in seen
    requires forall x | x in seen + [d] :: x in es
    requires Scanned(m, c, es, log, seen, n, cond, blocks) && y in c.number && c.number[y] == n
    ensures var blocks' := ScanEntry(m, es[d], n, blocks);
      && (y in blocks' <==> Sel(es, seen + [d], y) != [])
      && (y in blocks' ==> blocks'[y] == SelSum(m, c, es, log, seen + [d], y))
      && (MergeAt(m, c, es, log, seen + [d], cond, y) ==>
            es[d].AncestorBlock(n) == Some(y) && y in blocks && cond(blocks'[y]))
      && (es[d].AncestorBlock(n) == Some(y) && y in blocks && cond(blocks'[y]) ==>
            MergeAt(m, c, es, log, seen + [d], cond, y))
  {
    AncestorBlockMeaning(c, es, base, d, y, n);
    ScanBlock(m, c, es, base, log, key, seen, d, y);
    assert !MergeAt(m, c, es, log, seen, cond, y);
  }

  lemma ScanStep<V(!new)>(m: Monoid<V>, c: Chain, es: Entries<V>, base: Hash, log: Log<V>, key: Hash, seen: seq<Hash>,
                          d: Hash, n: nat, cond: V -> bool, blocks: map<Hash, V>)
    requires Lawful(m) && EdgesOk(c, es, base) && VotesOk(m, c, es, log)
    requires ChildrenOf(es, key, seen) && IsChild(es, key, d) && d !in seen
    requires forall x | x in seen + [d] :: x in es
    requires Scanned(m, c, es, log, seen, n, cond, blocks)
    ensures es[d].AncestorBlock(n).Some? ==>
              var y := es[d].AncestorBlock(n).value; y in c.number && c.number[y] == n && y in es[d].ancestors
    ensures var blocks' := ScanEntry(m, es[d], n, blocks);
            var hit := es[d].AncestorBlock(n).Some? && es[d].AncestorBlock(n).value in blocks
            && cond(blocks'[es[d].AncestorBlock(n).value]);
            if hit then MergeAt(m, c, es, log, seen + [d], cond, es[d].AncestorBlock(n).value)
            else Scanned(m, c, es, log, seen + [d], n, cond, blocks')
  {
    assert NodeOk(c, es, base, d);
    if es[d].AncestorBlock(n).Some? {
      PathAt(c, d, es[d].ancestors, es[d].number - n - 1);
    }
    var blocks', more := ScanEntry(m, es[d], n, blocks), seen + [d];
    if es[d].AncestorBlock(n).Some? && es[d].AncestorBlock(n).value in blocks
    && cond(blocks'[es[d].AncestorBlock(n).value]) {
      ScanAt(m, c, es, base, log, key, seen, d, n, cond, blocks, es[d].AncestorBlock(n).value);
    } else {
      forall y ensures y in blocks' <==> y in c.number && c.number[y] == n && Sel(es, more, y) != [] {
        if y in c.number && c.number[y] == n {
          ScanAt(m, c, es, base, log, key, seen, d, n, cond, blocks, y);
        }
      }
      forall y | y in blocks' ensures blocks'[y] == SelSum(m, c, es, log, more, y) {
        ScanAt(m, c, es, base, log, key, seen, d, n, cond, blocks, y);
      }
      forall y | y in c.number && c.number[y] == n ensures !MergeAt(m, c, es, log, more, cond, y) {
        ScanAt(m, c, es, base, log, key, seen, d, n, cond, blocks, y);
      }
    }
  }
}
