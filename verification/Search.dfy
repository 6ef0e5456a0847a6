/** The searches over a vote-graph: the GHOST of a condition, and the highest ancestor that meets one. */
module Search {
  import opened Wrappers
  import opened BlockTree
  import opened Votes
  import opened GraphSpec
  import opened MergeSpec
  import opened GhostProofs

  /** The nodes of `ds` with block `h`, numbered `n`, in their direct ancestry. */
  function Keep<V>(es: Entries<V>, ds: seq<Hash>, h: Hash, n: nat): (kept: seq<Hash>)
    requires forall d | d in ds :: d in es
    ensures forall d | d in kept :: d in ds
  {
    if ds == [] then []
    else
      var d := ds[|ds| - 1];
      assert d in ds;
      var rest := Keep(es, ds[..|ds| - 1], h, n);
      if es[d].InDirectAncestry(h, n) == Some(true) then rest + [d] else rest
  }

  lemma {:induction false} KeepIsSel<V>(c: Chain, es: Entries<V>, base: Hash, ds: seq<Hash>, h: Hash, n: nat)
    requires EdgesOk(c, es, base) && (forall d | d in ds :: d in es) && (h in c.number ==> n == c.number[h])
    ensures Keep(es, ds, h, n) == Sel(es, ds, h)
  {
    if ds != [] {
      var d := ds[|ds| - 1];
      assert d in ds;
      KeepIsSel(c, es, base, ds[..|ds| - 1], h, n);
      AncestorBlockMeaning(c, es, base, d, h, n);
    }
  }

  ghost predicate GoodNumber(c: Chain, block: Option<(Hash, nat)>) {
    block.Some? && block.value.0 in c.number ==> block.value.1 == c.number[block.value.0]
  }

  /** The children of `key`, or only those with the given block in their edge. */
  function Candidates<V>(es: Entries<V>, key: Hash, constrain: Option<Hash>): seq<Hash>
    requires key in es && forall d | d in es[key].descendents :: d in es
  {
    match constrain
    case None => es[key].descendents
    case Some(h) => Sel(es, es[key].descendents, h)
  }

  lemma CandidatesOk<V>(es: Entries<V>, key: Hash, constrain: Option<Hash>)
    requires DescendentsOk(es) && key in es
    ensures forall d | d in es[key].descendents :: d in es
    ensures ChildrenOf(es, key, Candidates(es, key, constrain))
  {
    forall d | d in es[key].descendents ensures IsChild(es, key, d) {
    }
    assert NoDup(es[key].descendents);
  }

  function MaxNumber<V>(es: Entries<V>, ds: seq<Hash>): (n: nat)
    requires forall d | d in ds :: d in es
    ensures forall d | d in ds :: es[d].number <= n
  {
    if ds == [] then 0
    else
      var d := ds[|ds| - 1];
      assert d in ds && ds == ds[..|ds| - 1] + [d];
      var rest := MaxNumber(es, ds[..|ds| - 1]);
      if rest < es[d].number then es[d].number else rest
  }

  /** The scan of the blocks numbered `n` from the `j`-th node on: the first block at which nodes seen so far meet the
      condition together. */
  ghost function ScanFrom<V>(m: Monoid<V>, es: Entries<V>, nodes: seq<Hash>, n: nat, cond: V -> bool, j: nat,
                             blocks: map<Hash, V>): Option<Hash>
    requires j <= |nodes| && forall d | d in nodes :: d in es
    decreases |nodes| - j
  {
    if j == |nodes| then None
    else
      var d := nodes[j];
      match es[d].AncestorBlock(n)
      case None => ScanFrom(m, es, nodes, n, cond, j + 1, blocks)
      case Some(b) =>
        if b !in blocks then ScanFrom(m, es, nodes, n, cond, j + 1, blocks[b := es[d].cumulative])
        else
          var votes := m.add(blocks[b], es[d].cumulative);
          if cond(votes) then Some(b) else ScanFrom(m, es, nodes, n, cond, j + 1, blocks[b := votes])
  }

  /** The merge points found level by level above block number `number`. */
  ghost function Climb<V>(m: Monoid<V>, es: Entries<V>, nodes: seq<Hash>, number: nat, cond: V -> bool,
                          bound: nat): seq<Hash>
    requires forall d | d in nodes :: d in es
    decreases bound - number
  {
    if number >= bound then []
    else
      match ScanFrom(m, es, nodes, number + 1, cond, 0, map[])
      case None => []
      case Some(b) => [b] + Climb(m, es, Keep(es, nodes, b, number + 1), number + 1, cond, bound)
  }

  /** The whole chain of merge points from a node. */
  ghost function MergeHashes<V>(m: Monoid<V>, es: Entries<V>, key: Hash, ds: seq<Hash>, cond: V -> bool): seq<Hash>
    requires key in es && forall d | d in ds :: d in es
  {
    [key] + Climb(m, es, ds, es[key].number, cond, MaxNumber(es, ds))
  }

  /** Looks for a merge point among the blocks numbered `n` in the edges of `nodes`. */
  method ScanLevel<V(!new)>(m: Monoid<V>, es: Entries<V>, nodes: seq<Hash>, n: nat, cond: V -> bool)
    returns (best: Option<Hash>)
    requires forall d | d in nodes :: d in es
    ensures best == ScanFrom(m, es, nodes, n, cond, 0, map[])
  {
    var blocks: map<Hash, V> := map[];
    for j := 0 to |nodes|
      invariant ScanFrom(m, es, nodes, n, cond, 0, map[]) == ScanFrom(m, es, nodes, n, cond, j, blocks)
    {
      var d := nodes[j];
      var block := es[d].AncestorBlock(n);
      if block.Some? {
        if block.value in blocks {
          blocks := blocks[block.value := m.add(blocks[block.value], es[d].cumulative)];
          if cond(blocks[block.value]) {
            return block;
          }
        } else {
          blocks := blocks[block.value := es[d].cumulative];
        }
      }
    }
    return None;
  }

  /** What a scan answers is a merge point, and it misses none. */
  lemma {:induction false} ScanFromMeans<V(!new)>(m: Monoid<V>, c: Chain, es: Entries<V>, base: Hash, log: Log<V>,
                                                  key: Hash, nodes: seq<Hash>, n: nat, cond: V -> bool, j: nat,
                                                  blocks: map<Hash, V>)
    requires Lawful(m) && Monotone(m, cond) && EdgesOk(c, es, base) && VotesOk(m, c, es, log)
    requires ChildrenOf(es, key, nodes) && j <= |nodes|
    requires (forall d | d in nodes[..j] :: d in es) && Scanned(m, c, es, log, nodes[..j], n, cond, blocks)
    ensures LevelScanned(m, c, es, log, nodes, n, cond, ScanFrom(m, es, nodes, n, cond, j, blocks))
    decreases |nodes| - j
  {
    if j == |nodes| {
      assert nodes[..j] == nodes;
    } else {
      var d := nodes[j];
      assert IsChild(es, key, d) && d !in nodes[..j] && nodes[..j + 1] == nodes[..j] + [d];
      ScanStep(m, c, es, base, log, key, nodes[..j], d, n, cond, blocks);
      var block := es[d].AncestorBlock(n);
      var blocks' := ScanEntry(m, es[d], n, blocks);
      if block.Some? && block.value in blocks && cond(blocks'[block.value]) {
        MergePrefix(m, c, es, log, nodes, j + 1, cond, block.value);
      } else {
        ScanFromMeans(m, c, es, base, log, key, nodes, n, cond, j + 1, blocks');
      }
    }
  }

  /** A merge point of some of the children is one of all of them. */
  lemma MergePrefix<V(!new)>(m: Monoid<V>, c: Chain, es: Entries<V>, log: Log<V>, ds: seq<Hash>, j: nat,
                             cond: V -> bool, y: Hash)
    requires Lawful(m) && Monotone(m, cond) && (forall d | d in ds :: d in es) && j <= |ds|
    requires (forall d | d in ds[..j] :: d in es) && MergeAt(m, c, es, log, ds[..j], cond, y)
    ensures MergeAt(m, c, es, log, ds, cond, y)
    decreases |ds|
  {
    if j < |ds| {
      var init := ds[..|ds| - 1];
      assert init[..j] == ds[..j];
      MergePrefix(m, c, es, log, init, j, cond, y);
      var d := ds[|ds| - 1];
      assert d in ds && ds == init + [d];
      SelAppend(es, init, d, y);
      SumMonotone(m, log, UpAll(c, Sel(es, init, y)), UpAll(c, Sel(es, ds, y)), cond);
    } else {
      assert ds[..j] == ds;
    }
  }

  /** The children considered after the chain has reached `b`. */
  function Above<V>(es: Entries<V>, ds: seq<Hash>, key: Hash, b: Hash): seq<Hash>
    requires forall d | d in ds :: d in es
  {
    if b == key then ds else Sel(es, ds, b)
  }

  /** Narrowing to the children above `b` does not change what merges at its children blocks. */
  lemma NarrowedSame<V>(m: Monoid<V>, c: Chain, es: Entries<V>, base: Hash, log: Log<V>, ds: seq<Hash>, key: Hash,
                        b: Hash, y: Hash, cond: V -> bool)
    requires EdgesOk(c, es, base) && ChildrenOf(es, key, ds) && y in c.parent && c.parent[y] == b && y != key
    ensures Sel(es, Above(es, ds, key, b), y) == Sel(es, ds, y)
    ensures MergeAt(m, c, es, log, Above(es, ds, key, b), cond, y) <==> MergeAt(m, c, es, log, ds, cond, y)
  {
    if b != key {
      forall d | d in ds && y in es[d].ancestors ensures b in es[d].ancestors {
        assert IsChild(es, key, d);
        EdgeParent(c, es, base, d, y);
      }
      SelSel(es, ds, b, y);
    }
  }

  /** A block one above the chain's end in a child's edge has the chain's end as its parent. */
  lemma NextBlock<V>(c: Chain, es: Entries<V>, base: Hash, key: Hash, d: Hash, b: Hash, y: Hash)
    requires EdgesOk(c, es, base) && IsChild(es, key, d) && b in es[d].ancestors && y in es[d].ancestors
    requires key in c.number && b in c.number && y in c.number && c.number[y] == c.number[b] + 1
    requires c.number[key] <= c.number[b]
    ensures y in c.parent && c.parent[y] == b && y != key && y !in es && c.number[y] < es[d].number
  {
    assert NodeOk(c, es, base, d);
    EdgeParent(c, es, base, d, y);
    PathMember(c, d, es[d].ancestors, y);
    PathMember(c, d, es[d].ancestors, b);
    PathMember(c, d, es[d].ancestors, c.parent[y]);
  }

  /** The highest chain of merge points from a node that meets the condition. */
  method GhostFindMergePoint<V(!new)>(m: Monoid<V>, ghost c: Chain, es: Entries<V>, ghost base: Hash, ghost log: Log<V>,
                                      key: Hash, constrain: Option<(Hash, nat)>, cond: V -> bool, ghost exact: bool)
    returns (hashes: seq<Hash>, bestNumber: nat, ghost ds: seq<Hash>)
    requires key in es && forall d | d in es[key].descendents :: d in es
    requires exact ==>
               && Lawful(m) && Monotone(m, cond) && EdgesOk(c, es, base) && DescendentsOk(es)
               && VotesOk(m, c, es, log)
               && GoodNumber(c, constrain)
    ensures |hashes| > 0
    ensures exact ==>
              && ChildrenOf(es, key, ds) && hashes == MergeHashes(m, es, key, ds, cond)
              && ds == Candidates(es, key, if constrain.Some? then Some(constrain.value.0) else None)
              && MergeChain(m, c, es, log, ds, cond, key, hashes) && Maximal(m, c, es, log, ds, cond, Last(hashes))
              && Last(hashes) in c.number && bestNumber == c.number[Last(hashes)]
  {
    var nodes := es[key].descendents;
    if constrain.Some? {
      if exact {
        KeepIsSel(c, es, base, nodes, constrain.value.0, constrain.value.1);
      }
      nodes := Keep(es, nodes, constrain.value.0, constrain.value.1);
    }
    ds := nodes;
    hashes, bestNumber := ClimbMerges(m, es, key, nodes, cond);
    if exact {
      CandidatesOk(es, key, if constrain.Some? then Some(constrain.value.0) else None);
      MergeHashesMeans(m, c, es, base, log, key, ds, cond);
      EndNumber(m, c, es, base, log, ds, cond, key, hashes);
    }
  }

  ghost predicate Climbed<V>(m: Monoid<V>, c: Chain, es: Entries<V>, log: Log<V>, ds: seq<Hash>, cond: V -> bool,
                             key: Hash, hashes: seq<Hash>, nodes: seq<Hash>, number: nat)
    requires forall d | d in ds :: d in es
  {
    && MergeChain(m, c, es, log, ds, cond, key, hashes)
    && nodes == Above(es, ds, key, Last(hashes)) && ChildrenOf(es, key, nodes)
    && Last(hashes) in c.number && number == c.number[Last(hashes)] && es[key].number <= number
  }

  method ClimbMerges<V(!new)>(m: Monoid<V>, es: Entries<V>, key: Hash, ds: seq<Hash>, cond: V -> bool)
    returns (hashes: seq<Hash>, bestNumber: nat)
    requires key in es && forall d | d in ds :: d in es
    ensures hashes == MergeHashes(m, es, key, ds, cond) && bestNumber == es[key].number + |hashes| - 1
  {
    var nodes := ds;
    hashes := [key];
    bestNumber := es[key].number;
    TracedStart(m, es, key, ds, cond);
    var newBest := ScanLevel(m, es, nodes, bestNumber + 1, cond);
    while newBest.Some?
      invariant (forall d | d in nodes :: d in ds) && bestNumber == es[key].number + |hashes| - 1
      invariant newBest == ScanFrom(m, es, nodes, bestNumber + 1, cond, 0, map[])
      invariant Traced(m, es, key, ds, cond, hashes, nodes, bestNumber)
      decreases MaxNumber(es, ds) - bestNumber
    {
      ScanBound(m, es, ds, nodes, bestNumber + 1, cond, 0, map[]);
      TracedStep(m, es, key, ds, cond, hashes, nodes, bestNumber, newBest.value);
      bestNumber := bestNumber + 1;
      hashes := hashes + [newBest.value];
      nodes := Keep(es, nodes, newBest.value, bestNumber);
      newBest := ScanLevel(m, es, nodes, bestNumber + 1, cond);
    }
    TracedEnd(m, es, key, ds, cond, hashes, nodes, bestNumber);
  }

  /** What is found is below one of the nodes. */
  lemma {:induction false} ScanBound<V>(m: Monoid<V>, es: Entries<V>, ds: seq<Hash>, nodes: seq<Hash>, n: nat,
                                        cond: V -> bool, j: nat, blocks: map<Hash, V>)
    requires (forall d | d in ds :: d in es) && (forall d | d in nodes :: d in ds) && j <= |nodes|
    ensures ScanFrom(m, es, nodes, n, cond, j, blocks).Some? ==> n < MaxNumber(es, ds)
    decreases |nodes| - j
  {
    if j < |nodes| {
      var d := nodes[j];
      assert d in ds;
      match es[d].AncestorBlock(n)
      case None => ScanBound(m, es, ds, nodes, n, cond, j + 1, blocks);
      case Some(_) =>
    }
  }

  /** A chain of merge points that nothing follows. */
  ghost predicate WholeChain<V>(m: Monoid<V>, c: Chain, es: Entries<V>, log: Log<V>, ds: seq<Hash>, cond: V -> bool,
                                key: Hash, hashes: seq<Hash>)
    requires forall d | d in ds :: d in es
  {
    MergeChain(m, c, es, log, ds, cond, key, hashes) && Maximal(m, c, es, log, ds, cond, Last(hashes))
  }

  lemma ClimbOne<V>(m: Monoid<V>, es: Entries<V>, nodes: seq<Hash>, number: nat, cond: V -> bool, bound: nat,
                    hashes: seq<Hash>)
    requires forall d | d in nodes :: d in es
    ensures var best := ScanFrom(m, es, nodes, number + 1, cond, 0, map[]);
      hashes + Climb(m, es, nodes, number, cond, bound) ==
      if number >= bound || best.None? then hashes
      else
        var y: Hash := best.value;
        (hashes + [y]) + Climb(m, es, Keep(es, nodes, y, number + 1), number + 1, cond, bound)
  {
  }

  /** Climbing on from a chain gives a whole one. */
  lemma {:induction false} ClimbMeans<V(!new)>(m: Monoid<V>, c: Chain, es: Entries<V>, base: Hash, log: Log<V>,
                                               ds: seq<Hash>, key: Hash, hashes: seq<Hash>, nodes: seq<Hash>,
                                               number: nat, cond: V -> bool)
    requires Lawful(m) && Monotone(m, cond) && EdgesOk(c, es, base) && VotesOk(m, c, es, log) && ChildrenOf(es, key, ds)
    requires Climbed(m, c, es, log, ds, cond, key, hashes, nodes, number)
    ensures WholeChain(m, c, es, log, ds, cond, key, hashes + Climb(m, es, nodes, number, cond, MaxNumber(es, ds)))
    decreases MaxNumber(es, ds) - number
  {
    ScanMeans(m, c, es, base, log, key, nodes, number + 1, cond);
    var best := ScanFrom(m, es, nodes, number + 1, cond, 0, map[]);
    ClimbOne(m, es, nodes, number, cond, MaxNumber(es, ds), hashes);
    if best.Some? {
      var y: Hash := best.value;
      ClimbStep(m, c, es, base, log, ds, key, hashes, nodes, number, y, cond);
      ClimbMeans(m, c, es, base, log, ds, key, hashes + [y], Keep(es, nodes, y, number + 1), number + 1, cond);
    } else {
      NoneFound(m, c, es, base, log, ds, key, Last(hashes), cond);
    }
  }

  lemma ScanMeans<V(!new)>(m: Monoid<V>, c: Chain, es: Entries<V>, base: Hash, log: Log<V>, key: Hash, nodes: seq<Hash>,
                           n: nat, cond: V -> bool)
    requires Lawful(m) && Monotone(m, cond) && EdgesOk(c, es, base) && VotesOk(m, c, es, log)
    requires ChildrenOf(es, key, nodes)
    ensures LevelScanned(m, c, es, log, nodes, n, cond, ScanFrom(m, es, nodes, n, cond, 0, map[]))
  {
    assert nodes[..0] == [];
    ScanFromMeans(m, c, es, base, log, key, nodes, n, cond, 0, map[]);
  }

  /** The chain found is a maximal chain of merge points. */
  lemma MergeHashesMeans<V(!new)>(m: Monoid<V>, c: Chain, es: Entries<V>, base: Hash, log: Log<V>, key: Hash,
                                  ds: seq<Hash>, cond: V -> bool)
    requires Lawful(m) && Monotone(m, cond) && EdgesOk(c, es, base) && VotesOk(m, c, es, log) && ChildrenOf(es, key, ds)
    ensures WholeChain(m, c, es, log, ds, cond, key, MergeHashes(m, es, key, ds, cond))
  {
    assert NodeOk(c, es, base, key);
    ClimbMeans(m, c, es, base, log, ds, key, [key], ds, es[key].number, cond);
  }

  /** The climb so far is the beginning of the whole chain. */
  ghost predicate Traced<V>(m: Monoid<V>, es: Entries<V>, key: Hash, ds: seq<Hash>, cond: V -> bool, hashes: seq<Hash>,
                            nodes: seq<Hash>, number: nat) {
    TracedBehind(m, es, key, ds, cond, hashes, nodes, number, 2)
  }

  ghost predicate TracedBehind<V>(m: Monoid<V>, es: Entries<V>, key: Hash, ds: seq<Hash>, cond: V -> bool,
                                  hashes: seq<Hash>, nodes: seq<Hash>, number: nat, steps: nat) {
    if steps > 0 then TracedBehind(m, es, key, ds, cond, hashes, nodes, number, steps - 1)
    else
      && key in es && (forall d | d in ds :: d in es) && (forall d | d in nodes :: d in es)
      && MergeHashes(m, es, key, ds, cond) == hashes + Climb(m, es, nodes, number, cond, MaxNumber(es, ds))
  }

  lemma TracedStart<V>(m: Monoid<V>, es: Entries<V>, key: Hash, ds: seq<Hash>, cond: V -> bool)
    requires key in es && forall d | d in ds :: d in es
    ensures Traced(m, es, key, ds, cond, [key], ds, es[key].number)
  {
    assert TracedBehind(m, es, key, ds, cond, [key], ds, es[key].number, 0);
    assert TracedBehind(m, es, key, ds, cond, [key], ds, es[key].number, 1);
  }

  lemma TracedStep<V>(m: Monoid<V>, es: Entries<V>, key: Hash, ds: seq<Hash>, cond: V -> bool, hashes: seq<Hash>,
                      nodes: seq<Hash>, number: nat, b: Hash)
    requires key in es && (forall d | d in ds :: d in es) && (forall d | d in nodes :: d in es)
             && Traced(m, es, key, ds, cond, hashes, nodes, number)
    requires number < MaxNumber(es, ds) && ScanFrom(m, es, nodes, number + 1, cond, 0, map[]) == Some(b)
    ensures Traced(m, es, key, ds, cond, hashes + [b], Keep(es, nodes, b, number + 1), number + 1)
  {
    assert TracedBehind(m, es, key, ds, cond, hashes, nodes, number, 1);
    assert TracedBehind(m, es, key, ds, cond, hashes, nodes, number, 0);
    var kept := Keep(es, nodes, b, number + 1);
    var rest := Climb(m, es, kept, number + 1, cond, MaxNumber(es, ds));
    assert hashes + ([b] + rest) == hashes + [b] + rest;
    assert TracedBehind(m, es, key, ds, cond, hashes + [b], kept, number + 1, 0);
    assert TracedBehind(m, es, key, ds, cond, hashes + [b], kept, number + 1, 1);
  }

  lemma TracedEnd<V>(m: Monoid<V>, es: Entries<V>, key: Hash, ds: seq<Hash>, cond: V -> bool, hashes: seq<Hash>,
                     nodes: seq<Hash>, number: nat)
    requires key in es && (forall d | d in ds :: d in es) && (forall d | d in nodes :: d in es)
             && Traced(m, es, key, ds, cond, hashes, nodes, number)
    requires ScanFrom(m, es, nodes, number + 1, cond, 0, map[]) == None
    ensures hashes == MergeHashes(m, es, key, ds, cond)
  {
    assert TracedBehind(m, es, key, ds, cond, hashes, nodes, number, 1);
    assert TracedBehind(m, es, key, ds, cond, hashes, nodes, number, 0);
  }

  /** What a scan of the blocks numbered `n` answers: a merge point there, or none when there is none. */
  ghost predicate LevelScanned<V>(m: Monoid<V>, c: Chain, es: Entries<V>, log: Log<V>, nodes: seq<Hash>, n: nat,
                                  cond: V -> bool, best: Option<Hash>)
    requires forall d | d in nodes :: d in es
  {
    match best
    case Some(y) => y in c.number && c.number[y] == n && MergeAt(m, c, es, log, nodes, cond, y)
    case None => forall y | y in c.number && c.number[y] == n :: !MergeAt(m, c, es, log, nodes, cond, y)
  }

  lemma NoneFound<V>(m: Monoid<V>, c: Chain, es: Entries<V>, base: Hash, log: Log<V>, ds: seq<Hash>, key: Hash, b: Hash,
                     cond: V -> bool)
    requires EdgesOk(c, es, base) && ChildrenOf(es, key, ds) && b in c.number && es[key].number <= c.number[b]
    requires LevelScanned(m, c, es, log, Above(es, ds, key, b), c.number[b] + 1, cond, None)
    ensures Maximal(m, c, es, log, ds, cond, b)
  {
    assert NodeOk(c, es, base, key);
    forall y | y in c.parent && c.parent[y] == b ensures !MergeAt(m, c, es, log, ds, cond, y) {
      NarrowedSame(m, c, es, base, log, ds, key, b, y, cond);
    }
  }

  lemma ClimbStep<V>(m: Monoid<V>, c: Chain, es: Entries<V>, base: Hash, log: Log<V>, ds: seq<Hash>, key: Hash,
                     hashes: seq<Hash>, nodes: seq<Hash>, number: nat, y: Hash, cond: V -> bool)
    requires EdgesOk(c, es, base) && ChildrenOf(es, key, ds)
    requires Climbed(m, c, es, log, ds, cond, key, hashes, nodes, number)
    requires LevelScanned(m, c, es, log, nodes, number + 1, cond, Some(y))
    ensures number < MaxNumber(es, ds)
    ensures Climbed(m, c, es, log, ds, cond, key, hashes + [y], Keep(es, nodes, y, number + 1), number + 1)
  {
    LevelFound(m, c, es, base, log, ds, key, Last(hashes), y, cond);
    KeepIsSel(c, es, base, nodes, y, number + 1);
    MergeChainExtend(m, c, es, log, ds, cond, key, hashes, y);
    assert Last(hashes + [y]) == y;
  }

  lemma LevelFound<V>(m: Monoid<V>, c: Chain, es: Entries<V>, base: Hash, log: Log<V>, ds: seq<Hash>, key: Hash,
                      b: Hash, y: Hash, cond: V -> bool)
    requires EdgesOk(c, es, base) && ChildrenOf(es, key, ds) && b in c.number && es[key].number <= c.number[b]
    requires y in c.number && c.number[y] == c.number[b] + 1
    requires MergeAt(m, c, es, log, Above(es, ds, key, b), cond, y)
    ensures y in c.parent && c.parent[y] == b && y != key && MergeAt(m, c, es, log, ds, cond, y)
    ensures c.number[b] < MaxNumber(es, ds)
    ensures Sel(es, Above(es, ds, key, b), y) == Above(es, ds, key, y)
  {
    var d := Sel(es, Above(es, ds, key, b), y)[0];
    assert IsChild(es, key, d) && NodeOk(c, es, base, key);
    NextBlock(c, es, base, key, d, b, y);
    NarrowedSame(m, c, es, base, log, ds, key, b, y, cond);
  }
}
