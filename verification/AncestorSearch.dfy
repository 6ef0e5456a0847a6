/** `find_ancestor`: the highest block at or below a given one that meets a condition. */
module AncestorSearch {
  import opened Wrappers
  import opened BlockTree
  import opened Votes
  import opened GraphSpec
  import opened MergeSpec
  import opened Search
  import opened GhostProofs
  import opened VoteGraphs

  /** The node the search walks down from: the block itself, or the first node found with it in its edge. */
  ghost predicate WalkStart<V>(c: Chain, es: Entries<V>, order: seq<Hash>, hash: Hash, start: Hash) {
    if hash in es then start == hash else FirstContaining(c, es, order, hash, start)
  }

  /** How an answer `r` comes about: `canon` is on the way down from `start`, the node under it meets the
      condition, and `r` is the last block of the merge chain from there that lies in `canon`'s edge. */
  ghost predicate Trail<V>(m: Monoid<V>, c: Chain, es: Entries<V>, log: Log<V>, cond: V -> bool, start: Hash,
                           canon: Hash, hashes: seq<Hash>, r: Hash) {
    && canon in es && |es[canon].ancestors| > 0 && AtOrBelow(c, canon, start)
    && (canon == start || !cond(es[canon].cumulative))
    && Last(es[canon].ancestors) in es && cond(es[Last(es[canon].ancestors)].cumulative)
    && TopOfChain(m, c, es, log, cond, canon, Last(es[canon].ancestors), hashes, r)
  }

  ghost predicate TopOfChain<V>(m: Monoid<V>, c: Chain, es: Entries<V>, log: Log<V>, cond: V -> bool, canon: Hash,
                                key: Hash, hashes: seq<Hash>, r: Hash)
    requires key in es && canon in es
  {
    && ChildrenOf(es, key, es[key].descendents)
    && MergeChain(m, c, es, log, es[key].descendents, cond, key, hashes)
    && Maximal(m, c, es, log, es[key].descendents, cond, Last(hashes))
    && IsTop(es, canon, hashes, r)
  }

  ghost predicate IsTop<V>(es: Entries<V>, canon: Hash, hashes: seq<Hash>, r: Hash)
    requires canon in es
  {
    exists i :: 0 <= i < |hashes| && hashes[i] == r && TopIndex(es, canon, hashes, i)
  }

  ghost predicate TopIndex<V>(es: Entries<V>, canon: Hash, hashes: seq<Hash>, i: int)
    requires canon in es && 0 <= i < |hashes|
  {
    hashes[i] in es[canon].ancestors && forall j | i < j < |hashes| :: hashes[j] !in es[canon].ancestors
  }

  /** Walks down from `canonical` to the first node that meets the condition. */
  method WalkBack<V(!new)>(ghost c: Chain, es: Entries<V>, ghost base: Hash, canonical: Hash, cond: V -> bool)
    returns (found: Option<Hash>, canon: Hash)
    requires EdgesOk(c, es, base) && canonical in es && canonical != base
    ensures canon in es && |es[canon].ancestors| > 0 && AtOrBelow(c, canon, canonical)
    ensures canon == canonical || !cond(es[canon].cumulative)
    ensures found.Some? ==>
              found.value == Last(es[canon].ancestors) && found.value in es && cond(es[found.value].cumulative)
    ensures found.None? ==> !cond(es[base].cumulative)
  {
    canon := canonical;
    assert NodeOk(c, es, base, canon);
    var nodeKey := es[canon].AncestorNode().value;
    StepsDown(c, es, base, canon, canonical);
    while !cond(es[nodeKey].cumulative)
      invariant canon in es && |es[canon].ancestors| > 0 && nodeKey == Last(es[canon].ancestors) && nodeKey in es
      invariant AtOrBelow(c, canon, canonical) && (canon == canonical || !cond(es[canon].cumulative))
      decreases es[nodeKey].number
    {
      assert NodeOk(c, es, base, nodeKey);
      if es[nodeKey].AncestorNode().None? {
        return None, canon;
      }
      StepsDown(c, es, base, canon, canonical);
      var lower := es[nodeKey].AncestorNode().value;
      PathMember(c, nodeKey, es[nodeKey].ancestors, lower);
      assert NodeOk(c, es, base, lower);
      canon := nodeKey;
      nodeKey := lower;
    }
    return Some(nodeKey), canon;
  }

  /** The last block of the chain that lies in the edge of `canon`, searched from the top. */
  method TopInEdge<V(!new)>(m: Monoid<V>, ghost c: Chain, es: Entries<V>, ghost base: Hash, ghost log: Log<V>,
                            ghost cond: V -> bool,
                            canon: Hash, hashes: seq<Hash>, bestNumber: nat, ghost key: Hash, ghost ds: seq<Hash>)
    returns (r: (Hash, nat))
    requires EdgesOk(c, es, base) && IsChild(es, key, canon) && ChildrenOf(es, key, ds)
    requires MergeChain(m, c, es, log, ds, cond, key, hashes)
    requires Last(hashes) in c.number && bestNumber == c.number[Last(hashes)]
    ensures IsTop(es, canon, hashes, r.0) && r.0 in c.number && r.1 == c.number[r.0]
  {
    EndNumber(m, c, es, base, log, ds, cond, key, hashes);
    assert NodeOk(c, es, base, key);
    var i := |hashes| - 1;
    while true
      invariant 0 <= i < |hashes|
      invariant forall j | i < j < |hashes| :: hashes[j] !in es[canon].ancestors
      decreases i
    {
      BlockNumber(m, c, es, base, log, ds, cond, key, hashes, i);
      var number := bestNumber - (|hashes| - 1 - i);
      AncestorBlockMeaning(c, es, base, canon, hashes[i], number);
      if es[canon].InDirectAncestry(hashes[i], number) == Some(true) {
        assert TopIndex(es, canon, hashes, i);
        return (hashes[i], number);
      }
      i := i - 1;
    }
  }

  lemma BlockNumber<V>(m: Monoid<V>, c: Chain, es: Entries<V>, base: Hash, log: Log<V>, ds: seq<Hash>, cond: V -> bool,
                       key: Hash, hashes: seq<Hash>, i: nat)
    requires EdgesOk(c, es, base) && ChildrenOf(es, key, ds) && MergeChain(m, c, es, log, ds, cond, key, hashes)
    requires i < |hashes|
    ensures hashes[i] in c.number && c.number[hashes[i]] == es[key].number + i && AtOrBelow(c, key, hashes[i])
  {
    assert NodeOk(c, es, base, key);
    if i > 0 {
      var d := ChainEnd(m, c, es, base, log, ds, cond, key, hashes, i);
    }
  }

  /** What `find_ancestor` answers, with the way it was found. */
  ghost predicate AncestorAnswer<V>(m: Monoid<V>, c: Chain, es: Entries<V>, base: Hash, log: Log<V>, order: seq<Hash>,
                                    hash: Hash, number: nat, cond: V -> bool, r: Option<(Hash, nat)>, start: Hash,
                                    canon: Hash, hashes: seq<Hash>) {
    && (r.Some? ==> r.value.0 in c.number && r.value.1 == c.number[r.value.0])
    && (if !InGraph(es, hash) then r.None?
        else if hash in es && cond(Weight(m, c, log, hash)) then r == Some((hash, number))
        else
          && WalkStart(c, es, order, hash, start)
          && (r.None? <==> !cond(Weight(m, c, log, base)))
          && (r.Some? ==> Trail(m, c, es, log, cond, start, canon, hashes, r.value.0)))
  }

  /** The merge points searched are those above the node under `canon`. */
  ghost predicate ChainFrom<V>(m: Monoid<V>, es: Entries<V>, cond: V -> bool, canon: Hash, hashes: seq<Hash>) {
    && canon in es && es[canon].ancestors != [] && Last(es[canon].ancestors) in es
    && (forall d | d in es[Last(es[canon].ancestors)].descendents :: d in es)
    && hashes == MergeHashes(m, es, Last(es[canon].ancestors), es[Last(es[canon].ancestors)].descendents, cond)
  }

  /** What `find_ancestor` answers, with the chain of merge points in the order of the children. */
  ghost predicate AnswerBy<V>(m: Monoid<V>, c: Chain, es: Entries<V>, base: Hash, log: Log<V>, order: seq<Hash>,
                              hash: Hash, number: nat, cond: V -> bool, r: Option<(Hash, nat)>, start: Hash,
                              canon: Hash, hashes: seq<Hash>) {
    && AncestorAnswer(m, c, es, base, log, order, hash, number, cond, r, start, canon, hashes)
    && (r.Some? && !(hash in es && cond(Weight(m, c, log, hash))) ==> ChainFrom(m, es, cond, canon, hashes))
  }

  ghost predicate Answers<V>(m: Monoid<V>, c: Chain, es: Entries<V>, base: Hash, log: Log<V>, order: seq<Hash>,
                             hash: Hash, number: nat, cond: V -> bool, r: Option<(Hash, nat)>) {
    exists start, canon, hashes :: AnswerBy(m, c, es, base, log, order, hash, number, cond, r, start, canon, hashes)
  }

  /** The highest block at or below `hash` that meets the condition. */
  method FindAncestor<V(!new)>(g: VoteGraph<V>, hash: Hash, number: nat, cond: V -> bool)
    returns (r: Option<(Hash, nat)>, ghost start: Hash, ghost canon: Hash, ghost hashes: seq<Hash>)
    requires g.Valid() && Monotone(g.monoid, cond) && (hash in g.chain.number ==> number == g.chain.number[hash])
    ensures AnswerBy(g.monoid, g.chain, g.entries, g.base, g.log, g.order(g.heads), hash, number, cond, r, start, canon,
                     hashes)
    ensures r.None? <==> !InGraph(g.entries, hash) || !cond(Weight(g.monoid, g.chain, g.log, g.base))
  {
    g.Open();
    g.ValidIsLoose();
    ghost var m, c, es, base, log := g.monoid, g.chain, g.entries, g.base, g.log;
    start, canon, hashes := hash, hash, [];
    r := None;
    var containing := g.FindContainingNodes(hash, number);
    var canonical := hash;
    if containing.None? {
      assert NodeOk(c, es, base, hash);
      if cond(g.entries[hash].cumulative) {
        BaseMeets(m, c, es, base, log, cond, hash);
        return Some((hash, number)), start, canon, hashes;
      }
      if g.entries[hash].AncestorNode().None? {
        return;
      }
    } else if containing.value == [] {
      assert forall d :: !Contains(es, d, hash);
      return;
    } else {
      canonical := containing.value[0];
      assert Contains(es, canonical, hash);
      start := canonical;
    }
    assert WalkStart(c, es, g.order(g.heads), hash, start);
    var found, canonNode := WalkBack(c, g.entries, base, canonical, cond);
    canon := canonNode;
    if found.Some? {
      BaseMeets(m, c, es, base, log, cond, found.value);
      CandidatesOk(es, found.value, None);
      var chainHashes, bestNumber,
          ds := GhostFindMergePoint(g.monoid, c, g.entries, base, log, found.value, None, cond, true);
      var top := TopInEdge(g.monoid, c, g.entries, base, log, cond, canonNode, chainHashes, bestNumber, found.value,
                           ds);
      hashes := chainHashes;
      r := Some(top);
    }
  }

  lemma BaseMeets<V(!new)>(m: Monoid<V>, c: Chain, es: Entries<V>, base: Hash, log: Log<V>, cond: V -> bool, k: Hash)
    requires Lawful(m) && Monotone(m, cond) && EdgesOk(c, es, base) && VotesOk(m, c, es, log) && k in es
    requires cond(es[k].cumulative)
    ensures cond(Weight(m, c, log, base))
  {
    BaseBelow(c, es, base, k);
    WeightMonotone(m, c, log, base, k, cond);
  }
}
