/** When `find_ancestor` answers the highest block at or below a given one that meets its condition, and when not. */
module AncestorExact {
  import opened Wrappers
  import opened BlockTree
  import opened Votes
  import opened GraphSpec
  import opened MergeSpec
  import opened GhostProofs
  import opened Search
  import opened AncestorSearch
  import opened AncestorProofs

  /** `r` is the highest block at or below `hash` that meets the condition. */
  ghost predicate HighestBelow<V>(m: Monoid<V>, c: Chain, log: Log<V>, cond: V -> bool, hash: Hash, r: Hash) {
    && AtOrBelow(c, r, hash) && cond(Weight(m, c, log, r))
    && forall x | AtOrBelow(c, x, hash) && cond(Weight(m, c, log, x)) :: AtOrBelow(c, x, r)
  }

  // ---- From inside an edge ----

  /** From a block inside an edge that fails the condition, the answer is right where forks cannot both meet it. */
  lemma EdgeStartFails<V(!new)>(m: Monoid<V>, c: Chain, es: Entries<V>, base: Hash, log: Log<V>, cond: V -> bool,
                                hash: Hash, start: Hash, canon: Hash, hashes: seq<Hash>, r: Hash, y: Hash)
    requires Lawful(m) && Monotone(m, cond) && EdgesOk(c, es, base) && DescendentsOk(es) && VotesOk(m, c, es, log)
    requires Exclusive(m, c, es, log, cond) && Trail(m, c, es, log, cond, start, canon, hashes, r)
    requires hash !in es && Contains(es, start, hash) && y in c.parent && c.parent[y] == hash && AtOrBelow(c, y, start)
    requires !cond(Weight(m, c, log, hash))
    ensures HighestBelow(m, c, log, cond, hash, r)
  {
    AnswerMeets(m, c, es, base, log, cond, start, canon, hashes, r);
    assert NodeOk(c, es, base, start);
    PathMember(c, start, es[start].ancestors, hash);
    if cond(es[start].cumulative) {
      WeightMonotone(m, c, log, hash, start, cond);
    }
    if cond(Weight(m, c, log, y)) {
      assert AtOrBelow(c, hash, y);
      WeightMonotone(m, c, log, hash, y, cond);
    }
    EdgeStartExact(m, c, es, base, log, cond, hash, start, canon, hashes, r, y);
    forall x | AtOrBelow(c, x, hash) && cond(Weight(m, c, log, x)) ensures AtOrBelow(c, x, r) {
      BelowTrans(c, x, hash, start);
      FindAncestorHighest(m, c, es, base, log, cond, start, canon, hashes, r, x);
    }
  }

  /** From one that meets it, the walk stops at once. */
  lemma EdgeStartStays<V(!new)>(m: Monoid<V>, c: Chain, es: Entries<V>, base: Hash, log: Log<V>, cond: V -> bool,
                                hash: Hash, start: Hash, canon: Hash, hashes: seq<Hash>, r: Hash)
    requires Lawful(m) && Monotone(m, cond) && EdgesOk(c, es, base) && VotesOk(m, c, es, log)
    requires Trail(m, c, es, log, cond, start, canon, hashes, r)
    requires hash !in es && Contains(es, start, hash) && cond(Weight(m, c, log, hash))
    ensures canon == start
  {
    assert NodeOk(c, es, base, start);
    PathMember(c, start, es[start].ancestors, hash);
    if canon != start {
      NodeBelowParent(c, es, base, canon, start);
      BelowTrans(c, canon, Last(es[start].ancestors), hash);
      WeightMonotone(m, c, log, canon, hash, cond);
    }
  }

  /** A block of one edge only is never found from there. */
  lemma OneEdgeMissed<V(!new)>(m: Monoid<V>, c: Chain, es: Entries<V>, base: Hash, log: Log<V>, cond: V -> bool,
                               hash: Hash, start: Hash, canon: Hash, hashes: seq<Hash>, r: Hash)
    requires EdgesOk(c, es, base) && Trail(m, c, es, log, cond, start, canon, hashes, r) && hash !in es
    requires r == hash
    ensures TwoContain(es, hash)
  {
    var key := Last(es[canon].ancestors);
    var ds := es[key].descendents;
    var i :| 0 <= i < |hashes| && hashes[i] == r && TopIndex(es, canon, hashes, i);
    assert i > 0 && MergeLink(m, c, es, log, ds, cond, hashes, i);
    var d, e := Sel(es, ds, r)[0], Sel(es, ds, r)[1];
    assert IsChild(es, key, d) && IsChild(es, key, e) && d != e;
    assert Contains(es, d, hash) && Contains(es, e, hash);
  }

  /** From a block inside an edge, with a condition that forks cannot both meet, the answer is the highest block at or
      below exactly when that block fails the condition, or two edges share it and the next one, if it meets the
      condition, is a node or in one edge only. */
  lemma EdgeStartHighest<V(!new)>(m: Monoid<V>, c: Chain, es: Entries<V>, base: Hash, log: Log<V>, cond: V -> bool,
                                  hash: Hash, start: Hash, canon: Hash, hashes: seq<Hash>, r: Hash, y: Hash)
    requires Lawful(m) && Monotone(m, cond) && EdgesOk(c, es, base) && DescendentsOk(es) && VotesOk(m, c, es, log)
    requires Exclusive(m, c, es, log, cond) && Trail(m, c, es, log, cond, start, canon, hashes, r)
    requires hash !in es && Contains(es, start, hash) && y in c.parent && c.parent[y] == hash && AtOrBelow(c, y, start)
    ensures HighestBelow(m, c, log, cond, hash, r) <==>
            || !cond(Weight(m, c, log, hash))
            || (TwoContain(es, hash) && !(y !in es && cond(Weight(m, c, log, y)) && TwoContain(es, y)))
  {
    if !cond(Weight(m, c, log, hash)) {
      EdgeStartFails(m, c, es, base, log, cond, hash, start, canon, hashes, r, y);
    } else {
      EdgeStartMeets(m, c, es, base, log, cond, hash, start, canon, hashes, r, y);
    }
  }

  lemma EdgeStartMeets<V(!new)>(m: Monoid<V>, c: Chain, es: Entries<V>, base: Hash, log: Log<V>, cond: V -> bool,
                                hash: Hash, start: Hash, canon: Hash, hashes: seq<Hash>, r: Hash, y: Hash)
    requires Lawful(m) && Monotone(m, cond) && EdgesOk(c, es, base) && DescendentsOk(es) && VotesOk(m, c, es, log)
    requires Exclusive(m, c, es, log, cond) && Trail(m, c, es, log, cond, start, canon, hashes, r)
    requires hash !in es && Contains(es, start, hash) && y in c.parent && c.parent[y] == hash && AtOrBelow(c, y, start)
    requires cond(Weight(m, c, log, hash))
    ensures HighestBelow(m, c, log, cond, hash, r) <==>
            TwoContain(es, hash) && !(y !in es && cond(Weight(m, c, log, y)) && TwoContain(es, y))
  {
    EdgeStartStays(m, c, es, base, log, cond, hash, start, canon, hashes, r);
    EdgeStartExact(m, c, es, base, log, cond, hash, start, canon, hashes, r, y);
    AnswerMeets(m, c, es, base, log, cond, start, canon, hashes, r);
    assert NodeOk(c, es, base, start);
    PathMember(c, start, es[start].ancestors, hash);
    assert AtOrBelow(c, hash, hash);
    if TwoContain(es, hash) {
      var d, e :| d != e && Contains(es, d, hash) && Contains(es, e, hash);
      var f := if d == start then e else d;
      assert f != canon && Contains(es, f, hash);
      EdgeMeetingBelow(m, c, es, base, log, cond, start, canon, hashes, r, hash);
      BelowLinear(c, hash, r, start);
      if AtOrBelow(c, r, hash) {
        BelowNumber(c, r, hash);
        assert r == hash;
      }
    } else if HighestBelow(m, c, log, cond, hash, r) {
      BelowLinear(c, hash, r, start);
      BelowLinear(c, r, hash, start);
      BelowNumber(c, r, hash);
      OneEdgeMissed(m, c, es, base, log, cond, hash, start, canon, hashes, r);
    }
  }

  // ---- From a node, with any condition ----

  /** The children of `key` in some order. */
  ghost predicate Order<V>(es: Entries<V>, key: Hash, ds: seq<Hash>) {
    ChildrenOf(es, key, ds) && forall d | IsChild(es, key, d) :: d in ds
  }

  /** The order of the children does not matter for what merges where. */
  lemma MergeInOrders<V>(m: Monoid<V>, c: Chain, es: Entries<V>, log: Log<V>, key: Hash, ds: seq<Hash>, ds': seq<Hash>,
                         cond: V -> bool, y: Hash)
    requires Order(es, key, ds) && Order(es, key, ds')
    ensures MergeAt(m, c, es, log, ds, cond, y) <==> MergeAt(m, c, es, log, ds', cond, y)
  {
    var sel, sel' := Sel(es, ds, y), Sel(es, ds', y);
    forall d ensures d in sel <==> d in sel' {
      if d in sel { assert IsChild(es, key, d); }
      if d in sel' { assert IsChild(es, key, d); }
    }
    NoDupSize(sel, sel');
    NoDupSize(sel', sel);
    assert UpAll(c, sel) == UpAll(c, sel');
  }

  lemma {:induction false} NoDupSize(s: seq<Hash>, t: seq<Hash>)
    requires NoDup(s) && forall x | x in s :: x in t
    ensures |s| <= |t|
  {
    if s != [] {
      var x := s[0];
      assert x in s;
      var i :| 0 <= i < |t| && t[i] == x;
      var t' := t[..i] + t[i + 1..];
      forall y | y in s[1..] ensures y in t' {
        var j :| 0 <= j < |s[1..]| && s[1..][j] == y;
        assert s[j + 1] == y && y != x && y in s && y in t;
        var k :| 0 <= k < |t| && t[k] == y;
        assert t == t[..i] + [x] + t[i + 1..];
      }
      NoDupSize(s[1..], t');
    }
  }

  /** The last block of the chain in `canon`'s edge is at or above `x`. */
  ghost predicate TopAbove<V>(c: Chain, es: Entries<V>, canon: Hash, hashes: seq<Hash>, x: Hash)
    requires canon in es
  {
    exists r :: IsTop(es, canon, hashes, r) && AtOrBelow(c, x, r)
  }

  lemma {:induction false} TopExists<V>(es: Entries<V>, canon: Hash, hashes: seq<Hash>, i: nat) returns (k: nat)
    requires canon in es && i < |hashes| && hashes[i] in es[canon].ancestors
    ensures i <= k < |hashes| && TopIndex(es, canon, hashes, k)
    decreases |hashes| - i
  {
    if j :| i < j < |hashes| && hashes[j] in es[canon].ancestors {
      k := TopExists(es, canon, hashes, j);
    } else {
      k := i;
    }
  }

  /** A block of the chain in `canon`'s edge is at or below the last one there, and only such blocks are. */
  lemma TopAboveMeans<V>(m: Monoid<V>, c: Chain, es: Entries<V>, base: Hash, log: Log<V>, cond: V -> bool, key: Hash,
                         canon: Hash, ds: seq<Hash>, hashes: seq<Hash>, x: Hash)
    requires EdgesOk(c, es, base) && IsChild(es, key, canon) && ChildrenOf(es, key, ds)
    requires MergeChain(m, c, es, log, ds, cond, key, hashes) && x in es[canon].ancestors
    ensures TopAbove(c, es, canon, hashes, x) <==> x in hashes
  {
    assert NodeOk(c, es, base, canon);
    PathMember(c, canon, es[canon].ancestors, x);
    if x in hashes {
      var i :| 0 <= i < |hashes| && hashes[i] == x;
      var k := TopExists(es, canon, hashes, i);
      ChainAscends(m, c, es, log, ds, cond, key, hashes, i, k);
      assert IsTop(es, canon, hashes, hashes[k]);
    }
    if r :| IsTop(es, canon, hashes, r) && AtOrBelow(c, x, r) {
      var k :| 0 <= k < |hashes| && hashes[k] == r && TopIndex(es, canon, hashes, k);
      ChainCovers(m, c, es, base, log, cond, key, ds, hashes, k, x);
    }
  }

  lemma ChainCovers<V>(m: Monoid<V>, c: Chain, es: Entries<V>, base: Hash, log: Log<V>, cond: V -> bool, key: Hash,
                       ds: seq<Hash>, hashes: seq<Hash>, k: nat, x: Hash)
    requires EdgesOk(c, es, base) && ChildrenOf(es, key, ds) && MergeChain(m, c, es, log, ds, cond, key, hashes)
    requires k < |hashes| && AtOrBelow(c, key, x) && AtOrBelow(c, x, hashes[k])
    ensures x in hashes
  {
    assert NodeOk(c, es, base, key);
    BlockNumber(m, c, es, base, log, ds, cond, key, hashes, k);
    BelowNumber(c, x, hashes[k]);
    BelowNumber(c, key, x);
    var i := c.number[x] - es[key].number;
    BlockNumber(m, c, es, base, log, ds, cond, key, hashes, i);
    ChainAscends(m, c, es, log, ds, cond, key, hashes, i, k);
    SameHeight(c, x, hashes[i], hashes[k]);
  }

  /** Without a rival the chain passes through `x`, in any order. */
  lemma NoRivalPasses<V(!new)>(m: Monoid<V>, c: Chain, es: Entries<V>, base: Hash, log: Log<V>, cond: V -> bool,
                               key: Hash, ds: seq<Hash>, x: Hash)
    requires Lawful(m) && Monotone(m, cond) && EdgesOk(c, es, base) && DescendentsOk(es) && VotesOk(m, c, es, log)
    requires key in es && Order(es, key, es[key].descendents) && Order(es, key, ds)
    requires x in c.number && AtOrBelow(c, key, x) && AllMergeBelow(m, c, es, log, es[key].descendents, cond, key, x)
    requires NoRival(m, c, es, log, es[key].descendents, cond, key, x)
    ensures x in MergeHashes(m, es, key, ds, cond)
  {
    MergeHashesMeans(m, c, es, base, log, key, ds, cond);
    forall z ensures !Rival(m, c, es, log, ds, cond, key, x, z) {
      MergeInOrders(m, c, es, log, key, ds, es[key].descendents, cond, z);
      assert !Rival(m, c, es, log, es[key].descendents, cond, key, x, z);
    }
    forall y | AtOrBelow(c, y, x) && y in c.number && es[key].number < c.number[y]
      ensures MergeAt(m, c, es, log, ds, cond, y)
    {
      MergeInOrders(m, c, es, log, key, ds, es[key].descendents, cond, y);
    }
    ChainHas(m, c, es, base, log, ds, cond, key, MergeHashes(m, es, key, ds, cond), x);
  }

  lemma ChildrenInOrder<V>(es: Entries<V>, key: Hash)
    requires DescendentsOk(es) && key in es
    ensures Order(es, key, es[key].descendents)
  {
    assert NoDup(es[key].descendents);
    forall d | d in es[key].descendents ensures IsChild(es, key, d) {
    }
    forall d | IsChild(es, key, d) ensures d in es[key].descendents {
    }
  }

  /** Walking down from `start`, a node that fails, `canon` is the last that does. */
  ghost predicate StopsAt<V>(m: Monoid<V>, c: Chain, es: Entries<V>, log: Log<V>, cond: V -> bool, start: Hash,
                             canon: Hash) {
    && start in es && canon in es && |es[canon].ancestors| > 0 && AtOrBelow(c, canon, start)
    && !cond(Weight(m, c, log, canon))
    && Last(es[canon].ancestors) in es && cond(Weight(m, c, log, Last(es[canon].ancestors)))
  }

  /** The highest block that meets the condition is in the edge where the walk stops. */
  lemma HighestInEdge<V(!new)>(m: Monoid<V>, c: Chain, es: Entries<V>, base: Hash, log: Log<V>, cond: V -> bool,
                               start: Hash, canon: Hash, x: Hash)
    requires Lawful(m) && Monotone(m, cond) && EdgesOk(c, es, base) && VotesOk(m, c, es, log)
    requires StopsAt(m, c, es, log, cond, start, canon) && HighestBelow(m, c, log, cond, start, x)
    ensures x in es[canon].ancestors && AtOrBelow(c, Last(es[canon].ancestors), x) && x in c.number
  {
    var key := Last(es[canon].ancestors);
    assert NodeOk(c, es, base, canon) && NodeOk(c, es, base, start);
    PathMember(c, canon, es[canon].ancestors, key);
    BelowTrans(c, key, canon, start);
    BelowLinear(c, x, canon, start);
    BelowLinear(c, canon, x, start);
    if AtOrBelow(c, canon, x) {
      WeightMonotone(m, c, log, canon, x, cond);
    }
    BelowNumber(c, key, x);
    PathCovers(c, canon, es[canon].ancestors, x);
  }

  // ---- A rival is taken in some order ----

  lemma {:induction false} SelConcat<V>(es: Entries<V>, a: seq<Hash>, b: seq<Hash>, y: Hash)
    requires (forall d | d in a :: d in es) && (forall d | d in b :: d in es) && (forall d | d in a + b :: d in es)
    ensures Sel(es, a + b, y) == Sel(es, a, y) + Sel(es, b, y)
  {
    if b == [] {
      assert a + b == a;
    } else {
      var init, d := b[..|b| - 1], Last(b);
      assert b == init + [d] && a + b == (a + init) + [d];
      assert forall x | x in a + init :: x in a + b;
      SelConcat(es, a, init, y);
      SelAppend(es, a + init, d, y);
      SelAppend(es, init, d, y);
    }
  }

  /** A scan that meets the children of a merge point first finds it. */
  lemma {:induction false} ScanFirst<V(!new)>(m: Monoid<V>, c: Chain, es: Entries<V>, base: Hash, log: Log<V>,
                                              key: Hash, nodes: seq<Hash>, n: nat, cond: V -> bool, z: Hash, k: nat,
                                              j: nat, blocks: map<Hash, V>)
    requires Lawful(m) && Monotone(m, cond) && EdgesOk(c, es, base) && VotesOk(m, c, es, log)
    requires ChildrenOf(es, key, nodes) && j <= k <= |nodes| && z in c.number && c.number[z] == n
    requires forall i | 0 <= i < k :: nodes[i] in es && es[nodes[i]].AncestorBlock(n) == Some(z)
    requires (forall d | d in nodes[..k] :: d in es) && MergeAt(m, c, es, log, nodes[..k], cond, z)
    requires (forall d | d in nodes[..j] :: d in es) && Scanned(m, c, es, log, nodes[..j], n, cond, blocks)
    ensures ScanFrom(m, es, nodes, n, cond, j, blocks) == Some(z)
    decreases k - j
  {
    if j < k {
      var d := nodes[j];
      assert IsChild(es, key, d) && d !in nodes[..j] && nodes[..j + 1] == nodes[..j] + [d];
      assert es[d].AncestorBlock(n) == Some(z);
      ScanStep(m, c, es, base, log, key, nodes[..j], d, n, cond, blocks);
      var blocks' := ScanEntry(m, es[d], n, blocks);
      if !(z in blocks && cond(blocks'[z])) {
        ScanFirst(m, c, es, base, log, key, nodes, n, cond, z, k, j + 1, blocks');
      }
    }
  }

  /** The nodes of `ds` whose edges do not have `y`, in order. */
  ghost function Rest<V>(es: Entries<V>, ds: seq<Hash>, y: Hash): (r: seq<Hash>)
    requires forall d | d in ds :: d in es
    ensures forall x :: x in r <==> x in ds && y !in es[x].ancestors
    ensures NoDup(ds) ==> NoDup(r)
  {
    if ds == [] then []
    else
      var rest := Rest(es, ds[..|ds| - 1], y);
      var d := ds[|ds| - 1];
      assert d in ds && ds == ds[..|ds| - 1] + [d];
      if y in es[d].ancestors then rest else rest + [d]
  }

  lemma NoDupConcat(a: seq<Hash>, b: seq<Hash>)
    requires NoDup(a) && NoDup(b) && forall x | x in a :: x !in b
    ensures NoDup(a + b)
  {
    var s := a + b;
    forall i, j | 0 <= i < j < |s| ensures s[i] != s[j] {
      if i < |a| <= j {
        assert s[i] in a && s[j] == b[j - |a|];
      }
    }
  }

  /** The children with the children of `z` first. */
  ghost function Favoured<V>(es: Entries<V>, ds: seq<Hash>, z: Hash): seq<Hash>
    requires forall d | d in ds :: d in es
  {
    Sel(es, ds, z) + Rest(es, ds, z)
  }

  lemma FavouredOrder<V>(es: Entries<V>, key: Hash, ds: seq<Hash>, z: Hash)
    requires Order(es, key, ds)
    ensures Order(es, key, Favoured(es, ds, z))
  {
    NoDupConcat(Sel(es, ds, z), Rest(es, ds, z));
  }

  lemma FavouredFirst<V>(es: Entries<V>, key: Hash, ds: seq<Hash>, z: Hash, p: Hash)
    requires Order(es, key, ds) && forall d | d in ds && z in es[d].ancestors :: p in es[d].ancestors
    ensures (forall d | d in Favoured(es, ds, z) :: d in es) && Sel(es, ds, z) <= Sel(es, Favoured(es, ds, z), p)
  {
    var first, rest := Sel(es, ds, z), Rest(es, ds, z);
    assert forall d | d in first + rest :: d in es;
    SelConcat(es, first, rest, p);
    SelAll(es, first, p);
  }

  /** Below a merge point there are only merge points, down to the node. */
  lemma MergeBelow<V(!new)>(m: Monoid<V>, c: Chain, es: Entries<V>, base: Hash, log: Log<V>, key: Hash, ds: seq<Hash>,
                            cond: V -> bool, y: Hash, z: Hash)
    requires Lawful(m) && Monotone(m, cond) && EdgesOk(c, es, base) && ChildrenOf(es, key, ds)
    requires MergeAt(m, c, es, log, ds, cond, z) && AtOrBelow(c, y, z) && y in c.number && es[key].number < c.number[y]
    ensures MergeAt(m, c, es, log, ds, cond, y)
  {
    var high, low := Sel(es, ds, z), Sel(es, ds, y);
    forall d | d in high ensures d in low {
      assert IsChild(es, key, d);
      InEdgeBelow(c, es, base, key, d, z, y);
    }
    NoDupSize(high, low);
    forall b | b in UpAll(c, high) ensures b in UpAll(c, low) {
      var d :| d in high && AtOrBelow(c, d, b);
      assert d in low;
    }
    SumMonotone(m, log, UpAll(c, high), UpAll(c, low), cond);
  }

  /** A rival with none below it. */
  ghost predicate LowestRival<V>(m: Monoid<V>, c: Chain, es: Entries<V>, log: Log<V>, ds: seq<Hash>, cond: V -> bool,
                                 key: Hash, x: Hash, z: Hash)
    requires forall d | d in ds :: d in es
  {
    && Rival(m, c, es, log, ds, cond, key, x, z)
    && forall w | Rival(m, c, es, log, ds, cond, key, x, w) :: c.number[z] <= c.number[w]
  }

  lemma {:induction false} FindLowest<V>(m: Monoid<V>, c: Chain, es: Entries<V>, log: Log<V>, ds: seq<Hash>,
                                         cond: V -> bool, key: Hash, x: Hash, w: Hash) returns (z: Hash)
    requires (forall d | d in ds :: d in es) && Rival(m, c, es, log, ds, cond, key, x, w)
    ensures LowestRival(m, c, es, log, ds, cond, key, x, z)
    decreases c.number[w]
  {
    if v :| Rival(m, c, es, log, ds, cond, key, x, v) && c.number[v] < c.number[w] {
      z := FindLowest(m, c, es, log, ds, cond, key, x, v);
    } else {
      z := w;
    }
  }

  lemma OverBlock<V>(c: Chain, es: Entries<V>, base: Hash, key: Hash, z: Hash, d: Hash)
    requires EdgesOk(c, es, base) && key in es && IsChild(es, key, d) && z in es[d].ancestors
    requires z in c.parent && AtOrBelow(c, key, c.parent[z])
    ensures c.parent[z] in es[d].ancestors && es[d].AncestorBlock(c.number[z]) == Some(z)
  {
    assert NodeOk(c, es, base, d) && NodeOk(c, es, base, key);
    BelowNumber(c, key, c.parent[z]);
    PathMember(c, d, es[d].ancestors, z);
    EdgeParent(c, es, base, d, z);
  }

  /** At the level of a merge point whose children come first, it is found. */
  lemma RivalScanned<V(!new)>(m: Monoid<V>, c: Chain, es: Entries<V>, base: Hash, log: Log<V>, cond: V -> bool,
                              key: Hash, nodes: seq<Hash>, first: seq<Hash>, z: Hash)
    requires Lawful(m) && Monotone(m, cond) && EdgesOk(c, es, base) && VotesOk(m, c, es, log)
    requires ChildrenOf(es, key, nodes)
    requires first <= nodes && forall d | d in first :: d in es && z in es[d].ancestors
    requires MergeAt(m, c, es, log, first, cond, z) && z in c.parent && AtOrBelow(c, key, c.parent[z])
    ensures ScanFrom(m, es, nodes, c.number[z], cond, 0, map[]) == Some(z)
  {
    forall i | 0 <= i < |first| ensures nodes[i] in es && es[nodes[i]].AncestorBlock(c.number[z]) == Some(z) {
      assert nodes[i] == first[i] && first[i] in first && nodes[i] in nodes;
      OverBlock(c, es, base, key, z, nodes[i]);
    }
    assert nodes[..|first|] == first && nodes[..0] == [];
    ScanFirst(m, c, es, base, log, key, nodes, c.number[z], cond, z, |first|, 0, map[]);
  }

  /** In the order that has the rival's children first, they come first at its level too. */
  lemma FirstAbove<V>(c: Chain, es: Entries<V>, base: Hash, key: Hash, ds: seq<Hash>, z: Hash)
    requires EdgesOk(c, es, base) && Order(es, key, ds) && z in c.parent && AtOrBelow(c, key, c.parent[z])
    ensures Order(es, key, Favoured(es, ds, z))
    ensures Sel(es, ds, z) <= Above(es, Favoured(es, ds, z), key, c.parent[z])
    ensures ChildrenOf(es, key, Above(es, Favoured(es, ds, z), key, c.parent[z]))
  {
    FavouredOrder(es, key, ds, z);
    forall d | d in ds && z in es[d].ancestors ensures c.parent[z] in es[d].ancestors {
      assert IsChild(es, key, d);
      OverBlock(c, es, base, key, z, d);
    }
    FavouredFirst(es, key, ds, z, c.parent[z]);
  }

  /** What a scan finds just above a block of the chain. */
  lemma StepFound<V(!new)>(m: Monoid<V>, c: Chain, es: Entries<V>, base: Hash, log: Log<V>, cond: V -> bool, key: Hash,
                           ds: seq<Hash>, b: Hash, nodes: seq<Hash>, number: nat, y: Hash)
    requires Lawful(m) && Monotone(m, cond) && EdgesOk(c, es, base) && VotesOk(m, c, es, log) && ChildrenOf(es, key, ds)
    requires b in c.number && AtOrBelow(c, key, b) && nodes == Above(es, ds, key, b) && ChildrenOf(es, key, nodes)
    requires number == c.number[b] && ScanFrom(m, es, nodes, number + 1, cond, 0, map[]) == Some(y)
    ensures y in c.parent && c.parent[y] == b && MergeAt(m, c, es, log, ds, cond, y)
  {
    assert NodeOk(c, es, base, key);
    BelowNumber(c, key, b);
    ScanMeans(m, c, es, base, log, key, nodes, number + 1, cond);
    LevelFound(m, c, es, base, log, ds, key, b, y, cond);
  }

  /** Below its level, the chain climbs towards a rival that has none below it. */
  lemma TowardsRival<V>(m: Monoid<V>, c: Chain, es: Entries<V>, log: Log<V>, cond: V -> bool, key: Hash, ds: seq<Hash>,
                        x: Hash, z: Hash, y: Hash)
    requires (forall d | d in ds :: d in es) && x in c.number && LowestRival(m, c, es, log, ds, cond, key, x, z)
    requires y in c.parent && MergeAt(m, c, es, log, ds, cond, y) && AtOrBelow(c, key, c.parent[y])
    requires AtOrBelow(c, c.parent[y], c.parent[z]) && c.parent[y] != c.parent[z]
    ensures AtOrBelow(c, y, c.parent[z])
  {
    var p, b := c.parent[z], c.parent[y];
    BelowNumber(c, p, x);
    BelowNumber(c, b, p);
    BelowTrans(c, b, p, x);
    LowerOnPath(m, c, es, log, ds, cond, key, x, z, y);
    BelowLinear(c, y, p, x);
  }

  lemma LowerOnPath<V>(m: Monoid<V>, c: Chain, es: Entries<V>, log: Log<V>, ds: seq<Hash>, cond: V -> bool, key: Hash,
                       x: Hash, z: Hash, y: Hash)
    requires (forall d | d in ds :: d in es) && LowestRival(m, c, es, log, ds, cond, key, x, z)
    requires y in c.parent && c.number[y] < c.number[z] && MergeAt(m, c, es, log, ds, cond, y)
    requires AtOrBelow(c, key, c.parent[y]) && AtOrBelow(c, c.parent[y], x) && c.parent[y] != x
    ensures AtOrBelow(c, y, x)
  {
    assert !Rival(m, c, es, log, ds, cond, key, x, y);
  }

  /** A rival with none below it, whose children come first at its level. */
  ghost predicate Awaits<V>(m: Monoid<V>, c: Chain, es: Entries<V>, log: Log<V>, cond: V -> bool, key: Hash,
                            first: seq<Hash>, ds: seq<Hash>, x: Hash, z: Hash)
    requires forall d | d in ds :: d in es
  {
    && x in c.number && LowestRival(m, c, es, log, ds, cond, key, x, z)
    && first <= Above(es, ds, key, c.parent[z]) && (forall d | d in first :: d in es && z in es[d].ancestors)
    && MergeAt(m, c, es, log, first, cond, z)
  }

  /** The climb ends up at the rival. */
  lemma {:induction false} ClimbTakes<V(!new)>(m: Monoid<V>, c: Chain, es: Entries<V>, base: Hash, log: Log<V>,
                                               cond: V -> bool, key: Hash, first: seq<Hash>, ds: seq<Hash>, x: Hash,
                                               z: Hash, hashes: seq<Hash>, nodes: seq<Hash>, number: nat)
    returns (i: nat)
    requires Lawful(m) && Monotone(m, cond) && EdgesOk(c, es, base) && VotesOk(m, c, es, log) && ChildrenOf(es, key, ds)
    requires Awaits(m, c, es, log, cond, key, first, ds, x, z)
    requires Climbed(m, c, es, log, ds, cond, key, hashes, nodes, number) && AtOrBelow(c, Last(hashes), c.parent[z])
    ensures var full := hashes + Climb(m, es, nodes, number, cond, MaxNumber(es, ds)); i < |full| && full[i] == z
    decreases c.number[z] - number
  {
    var y := ClimbOnce(m, c, es, base, log, cond, key, first, ds, x, z, hashes, nodes, number);
    if y != z {
      assert Last(hashes + [y]) == y;
      var kept := Keep(es, nodes, y, number + 1);
      i := ClimbTakes(m, c, es, base, log, cond, key, first, ds, x, z, hashes + [y], kept, number + 1);
    } else {
      i := |hashes|;
    }
  }

  /** One step of the climb. */
  lemma ClimbOnce<V(!new)>(m: Monoid<V>, c: Chain, es: Entries<V>, base: Hash, log: Log<V>, cond: V -> bool, key: Hash,
                           first: seq<Hash>, ds: seq<Hash>, x: Hash, z: Hash, hashes: seq<Hash>, nodes: seq<Hash>,
                           number: nat) returns (y: Hash)
    requires Lawful(m) && Monotone(m, cond) && EdgesOk(c, es, base) && VotesOk(m, c, es, log) && ChildrenOf(es, key, ds)
    requires Awaits(m, c, es, log, cond, key, first, ds, x, z)
    requires Climbed(m, c, es, log, ds, cond, key, hashes, nodes, number) && AtOrBelow(c, Last(hashes), c.parent[z])
    ensures number < c.number[z] && (y == z || AtOrBelow(c, y, c.parent[z]))
    ensures Climbed(m, c, es, log, ds, cond, key, hashes + [y], Keep(es, nodes, y, number + 1), number + 1)
    ensures hashes + Climb(m, es, nodes, number, cond, MaxNumber(es, ds)) ==
            (hashes + [y]) + Climb(m, es, Keep(es, nodes, y, number + 1), number + 1, cond, MaxNumber(es, ds))
  {
    var b := Last(hashes);
    BelowNumber(c, b, c.parent[z]);
    EndNumber(m, c, es, base, log, ds, cond, key, hashes);
    y := NextBest(m, c, es, base, log, cond, key, first, ds, x, z, b, nodes, number);
    ClimbFound(m, c, es, base, log, cond, key, ds, hashes, nodes, number, y);
  }

  lemma ClimbFound<V(!new)>(m: Monoid<V>, c: Chain, es: Entries<V>, base: Hash, log: Log<V>, cond: V -> bool, key: Hash,
                            ds: seq<Hash>, hashes: seq<Hash>, nodes: seq<Hash>, number: nat, y: Hash)
    requires Lawful(m) && Monotone(m, cond) && EdgesOk(c, es, base) && VotesOk(m, c, es, log) && ChildrenOf(es, key, ds)
    requires Climbed(m, c, es, log, ds, cond, key, hashes, nodes, number)
    requires ScanFrom(m, es, nodes, number + 1, cond, 0, map[]) == Some(y)
    ensures Climbed(m, c, es, log, ds, cond, key, hashes + [y], Keep(es, nodes, y, number + 1), number + 1)
    ensures hashes + Climb(m, es, nodes, number, cond, MaxNumber(es, ds)) ==
            (hashes + [y]) + Climb(m, es, Keep(es, nodes, y, number + 1), number + 1, cond, MaxNumber(es, ds))
  {
    ScanMeans(m, c, es, base, log, key, nodes, number + 1, cond);
    ClimbStep(m, c, es, base, log, ds, key, hashes, nodes, number, y, cond);
    ClimbOne(m, es, nodes, number, cond, MaxNumber(es, ds), hashes);
  }

  lemma NextBest<V(!new)>(m: Monoid<V>, c: Chain, es: Entries<V>, base: Hash, log: Log<V>, cond: V -> bool, key: Hash,
                          first: seq<Hash>, ds: seq<Hash>, x: Hash, z: Hash, b: Hash, nodes: seq<Hash>, number: nat)
    returns (y: Hash)
    requires Lawful(m) && Monotone(m, cond) && EdgesOk(c, es, base) && VotesOk(m, c, es, log) && ChildrenOf(es, key, ds)
    requires Awaits(m, c, es, log, cond, key, first, ds, x, z) && nodes == Above(es, ds, key, b)
    requires ChildrenOf(es, key, nodes)
    requires b in c.number && AtOrBelow(c, key, b) && AtOrBelow(c, b, c.parent[z])
    requires b in c.number && number == c.number[b]
    ensures ScanFrom(m, es, nodes, number + 1, cond, 0, map[]) == Some(y)
    ensures y == z || AtOrBelow(c, y, c.parent[z])
  {
    if b == c.parent[z] {
      y := AtRival(m, c, es, base, log, cond, key, first, ds, x, z, b, nodes, number);
    } else {
      y := NextTowards(m, c, es, base, log, cond, key, ds, x, z, b, nodes, number);
    }
  }

  lemma AtRival<V(!new)>(m: Monoid<V>, c: Chain, es: Entries<V>, base: Hash, log: Log<V>, cond: V -> bool, key: Hash,
                         first: seq<Hash>, ds: seq<Hash>, x: Hash, z: Hash, b: Hash, nodes: seq<Hash>, number: nat)
    returns (y: Hash)
    requires Lawful(m) && Monotone(m, cond) && EdgesOk(c, es, base) && VotesOk(m, c, es, log) && ChildrenOf(es, key, ds)
    requires Awaits(m, c, es, log, cond, key, first, ds, x, z) && nodes == Above(es, ds, key, b)
    requires ChildrenOf(es, key, nodes)
    requires b == c.parent[z]
    requires b in c.number && number == c.number[b]
    ensures y == z && ScanFrom(m, es, nodes, number + 1, cond, 0, map[]) == Some(y)
  {
    y := z;
    RivalScanned(m, c, es, base, log, cond, key, nodes, first, z);
  }

  /** The next block towards a rival is found. */
  lemma ScanFinds<V(!new)>(m: Monoid<V>, c: Chain, es: Entries<V>, base: Hash, log: Log<V>, cond: V -> bool, key: Hash,
                           ds: seq<Hash>, b: Hash, nodes: seq<Hash>, number: nat, z: Hash) returns (y: Hash)
    requires Lawful(m) && Monotone(m, cond) && EdgesOk(c, es, base) && VotesOk(m, c, es, log) && ChildrenOf(es, key, ds)
    requires MergeAt(m, c, es, log, ds, cond, z) && z in c.number && AtOrBelow(c, b, z) && b != z
    requires b in c.number && AtOrBelow(c, key, b) && nodes == Above(es, ds, key, b) && ChildrenOf(es, key, nodes)
    requires b in c.number && number == c.number[b]
    ensures ScanFrom(m, es, nodes, number + 1, cond, 0, map[]) == Some(y)
  {
    assert NodeOk(c, es, base, key);
    BelowNumber(c, key, b);
    ScanMeans(m, c, es, base, log, key, nodes, number + 1, cond);
    var w := ChildTowards(c, b, z);
    MergeBelow(m, c, es, base, log, key, ds, cond, w, z);
    NarrowedSame(m, c, es, base, log, ds, key, b, w, cond);
    var best := ScanFrom(m, es, nodes, number + 1, cond, 0, map[]);
    assert best.Some?;
    y := best.value;
  }

  lemma NextTowards<V(!new)>(m: Monoid<V>, c: Chain, es: Entries<V>, base: Hash, log: Log<V>, cond: V -> bool,
                             key: Hash, ds: seq<Hash>, x: Hash, z: Hash, b: Hash, nodes: seq<Hash>, number: nat)
    returns (y: Hash)
    requires Lawful(m) && Monotone(m, cond) && EdgesOk(c, es, base) && VotesOk(m, c, es, log) && ChildrenOf(es, key, ds)
    requires x in c.number && LowestRival(m, c, es, log, ds, cond, key, x, z)
    requires b in c.number && AtOrBelow(c, key, b) && AtOrBelow(c, b, c.parent[z]) && b != c.parent[z]
    requires nodes == Above(es, ds, key, b) && ChildrenOf(es, key, nodes)
    requires b in c.number && number == c.number[b]
    ensures ScanFrom(m, es, nodes, number + 1, cond, 0, map[]) == Some(y)
    ensures AtOrBelow(c, y, c.parent[z])
  {
    BelowNumber(c, b, c.parent[z]);
    assert AtOrBelow(c, b, z);
    y := ScanFinds(m, c, es, base, log, cond, key, ds, b, nodes, number, z);
    StepFound(m, c, es, base, log, cond, key, ds, b, nodes, number, y);
    TowardsRival(m, c, es, log, cond, key, ds, x, z, y);
  }

  /** With a rival there is an order that misses `x`. */
  lemma RivalTaken<V(!new)>(m: Monoid<V>, c: Chain, es: Entries<V>, base: Hash, log: Log<V>, cond: V -> bool, key: Hash,
                            ds: seq<Hash>, x: Hash, z: Hash)
    requires Lawful(m) && Monotone(m, cond) && EdgesOk(c, es, base) && VotesOk(m, c, es, log) && Order(es, key, ds)
    requires x in c.number && LowestRival(m, c, es, log, ds, cond, key, x, z)
    ensures Order(es, key, Favoured(es, ds, z)) && z in MergeHashes(m, es, key, Favoured(es, ds, z), cond)
  {
    var ds' := Favoured(es, ds, z);
    FirstAbove(c, es, base, key, ds, z);
    var first := Sel(es, ds, z);
    SelAll(es, first, z);
    SameRivals(m, c, es, log, ds, ds', cond, key, x, z);
    assert NodeOk(c, es, base, key);
    var i := ClimbTakes(m, c, es, base, log, cond, key, first, ds', x, z, [key], ds', es[key].number);
  }

  lemma SameRivals<V>(m: Monoid<V>, c: Chain, es: Entries<V>, log: Log<V>, ds: seq<Hash>, ds': seq<Hash>,
                      cond: V -> bool, key: Hash, x: Hash, z: Hash)
    requires Order(es, key, ds) && Order(es, key, ds') && LowestRival(m, c, es, log, ds, cond, key, x, z)
    ensures LowestRival(m, c, es, log, ds', cond, key, x, z)
  {
    forall w ensures Rival(m, c, es, log, ds', cond, key, x, w) <==> Rival(m, c, es, log, ds, cond, key, x, w) {
      MergeInOrders(m, c, es, log, key, ds, ds', cond, w);
    }
  }

  /** A chain through a rival of `x` does not have `x`. */
  lemma RivalMisses<V>(m: Monoid<V>, c: Chain, es: Entries<V>, base: Hash, log: Log<V>, cond: V -> bool, key: Hash,
                       ds: seq<Hash>, hashes: seq<Hash>, x: Hash, z: Hash)
    requires EdgesOk(c, es, base) && ChildrenOf(es, key, ds) && MergeChain(m, c, es, log, ds, cond, key, hashes)
    requires x in c.number && Rival(m, c, es, log, ds, cond, key, x, z) && z in hashes
    ensures x !in hashes
  {
    if x in hashes {
      var i :| 0 <= i < |hashes| && hashes[i] == z;
      var j :| 0 <= j < |hashes| && hashes[j] == x;
      BlockNumber(m, c, es, base, log, ds, cond, key, hashes, i);
      BlockNumber(m, c, es, base, log, ds, cond, key, hashes, j);
      BelowNumber(c, c.parent[z], x);
      ChainAscends(m, c, es, log, ds, cond, key, hashes, i, j);
    }
  }

  /** In every order the answer is at or above `x` exactly when no rival branches off on the way to it. */
  lemma AboveInEveryOrder<V(!new)>(m: Monoid<V>, c: Chain, es: Entries<V>, base: Hash, log: Log<V>, cond: V -> bool,
                                   key: Hash, canon: Hash, x: Hash)
    requires Lawful(m) && Monotone(m, cond) && EdgesOk(c, es, base) && DescendentsOk(es) && VotesOk(m, c, es, log)
    requires key in es && Order(es, key, es[key].descendents) && IsChild(es, key, canon) && x in es[canon].ancestors
    requires AllMergeBelow(m, c, es, log, es[key].descendents, cond, key, x)
    ensures (forall ds | Order(es, key, ds) :: TopAbove(c, es, canon, MergeHashes(m, es, key, ds, cond), x)) <==>
            NoRival(m, c, es, log, es[key].descendents, cond, key, x)
  {
    assert NodeOk(c, es, base, canon);
    PathMember(c, canon, es[canon].ancestors, x);
    if NoRival(m, c, es, log, es[key].descendents, cond, key, x) {
      forall ds | Order(es, key, ds) ensures TopAbove(c, es, canon, MergeHashes(m, es, key, ds, cond), x) {
        NoRivalPasses(m, c, es, base, log, cond, key, ds, x);
        MergeHashesMeans(m, c, es, base, log, key, ds, cond);
        TopAboveMeans(m, c, es, base, log, cond, key, canon, ds, MergeHashes(m, es, key, ds, cond), x);
      }
    } else {
      var w :| Rival(m, c, es, log, es[key].descendents, cond, key, x, w);
      var ds := RivalHides(m, c, es, base, log, cond, key, x, w);
      MergeHashesMeans(m, c, es, base, log, key, ds, cond);
      TopAboveMeans(m, c, es, base, log, cond, key, canon, ds, MergeHashes(m, es, key, ds, cond), x);
    }
  }

  lemma RivalHides<V(!new)>(m: Monoid<V>, c: Chain, es: Entries<V>, base: Hash, log: Log<V>, cond: V -> bool, key: Hash,
                            x: Hash, w: Hash) returns (ds': seq<Hash>)
    requires Lawful(m) && Monotone(m, cond) && EdgesOk(c, es, base) && DescendentsOk(es) && VotesOk(m, c, es, log)
    requires key in es && Order(es, key, es[key].descendents) && x in c.number
    requires Rival(m, c, es, log, es[key].descendents, cond, key, x, w)
    ensures Order(es, key, ds') && x !in MergeHashes(m, es, key, ds', cond)
  {
    var ds := es[key].descendents;
    var z := FindLowest(m, c, es, log, ds, cond, key, x, w);
    RivalTaken(m, c, es, base, log, cond, key, ds, x, z);
    ds' := Favoured(es, ds, z);
    SameRivals(m, c, es, log, ds, ds', cond, key, x, z);
    MergeHashesMeans(m, c, es, base, log, key, ds', cond);
    RivalMisses(m, c, es, base, log, cond, key, ds', MergeHashes(m, es, key, ds', cond), x, z);
  }

  /** From a node that fails, a block below it that meets the condition is at or below the answer, whatever the order of
      the children, exactly when no rival branches off between the node found and that block. */
  lemma NodeStartBounds<V(!new)>(m: Monoid<V>, c: Chain, es: Entries<V>, base: Hash, log: Log<V>, cond: V -> bool,
                                 canon: Hash, x: Hash)
    requires Lawful(m) && Monotone(m, cond) && EdgesOk(c, es, base) && DescendentsOk(es) && VotesOk(m, c, es, log)
    requires canon in es && !cond(Weight(m, c, log, canon)) && x in es[canon].ancestors && cond(Weight(m, c, log, x))
    ensures var key := Last(es[canon].ancestors);
      && key in es && Order(es, key, es[key].descendents)
      && ((forall ds | Order(es, key, ds) :: TopAbove(c, es, canon, MergeHashes(m, es, key, ds, cond), x)) <==>
          NoRival(m, c, es, log, es[key].descendents, cond, key, x))
  {
    var key := Last(es[canon].ancestors);
    assert NodeOk(c, es, base, canon);
    ChildrenInOrder(es, key);
    if x != key {
      AllMeetInEdge(m, c, es, base, log, cond, key, canon, x);
    } else {
      NothingBetween(m, c, es, base, log, cond, key);
    }
    AboveInEveryOrder(m, c, es, base, log, cond, key, canon, x);
  }

  lemma NothingBetween<V>(m: Monoid<V>, c: Chain, es: Entries<V>, base: Hash, log: Log<V>, cond: V -> bool, key: Hash)
    requires EdgesOk(c, es, base) && key in es && forall d | d in es[key].descendents :: d in es
    ensures AllMergeBelow(m, c, es, log, es[key].descendents, cond, key, key)
  {
    assert NodeOk(c, es, base, key);
    forall y | AtOrBelow(c, y, key) && y in c.number ensures c.number[y] <= es[key].number {
      BelowNumber(c, y, key);
    }
  }

  /** From a block inside an edge that meets the condition, that block is at or below the answer, whatever the order of
      the children, exactly when two edges share it and no rival branches off on the way to it. */
  lemma EdgeStartBounds<V(!new)>(m: Monoid<V>, c: Chain, es: Entries<V>, base: Hash, log: Log<V>, cond: V -> bool,
                                 start: Hash, x: Hash)
    requires Lawful(m) && Monotone(m, cond) && EdgesOk(c, es, base) && DescendentsOk(es) && VotesOk(m, c, es, log)
    requires x !in es && Contains(es, start, x) && cond(Weight(m, c, log, x))
    ensures var key := Last(es[start].ancestors);
      && key in es && Order(es, key, es[key].descendents)
      && ((forall ds | Order(es, key, ds) :: TopAbove(c, es, start, MergeHashes(m, es, key, ds, cond), x)) <==>
          TwoContain(es, x) && NoRival(m, c, es, log, es[key].descendents, cond, key, x))
  {
    var key := Last(es[start].ancestors);
    assert NodeOk(c, es, base, start);
    ChildrenInOrder(es, key);
    if TwoContain(es, x) {
      var d, e :| d != e && Contains(es, d, x) && Contains(es, e, x);
      var f := if d == start then e else d;
      assert f != start && Contains(es, f, x);
      AllMeetInEdge(m, c, es, base, log, cond, key, start, x);
      AboveInEveryOrder(m, c, es, base, log, cond, key, start, x);
    } else {
      var ds := es[key].descendents;
      MergeHashesMeans(m, c, es, base, log, key, ds, cond);
      TopAboveMeans(m, c, es, base, log, cond, key, start, ds, MergeHashes(m, es, key, ds, cond), x);
      if x in MergeHashes(m, es, key, ds, cond) {
        SharedInChain(m, c, es, base, log, cond, key, ds, MergeHashes(m, es, key, ds, cond), x);
      }
    }
  }

  lemma SharedInChain<V>(m: Monoid<V>, c: Chain, es: Entries<V>, base: Hash, log: Log<V>, cond: V -> bool, key: Hash,
                         ds: seq<Hash>, hashes: seq<Hash>, x: Hash)
    requires EdgesOk(c, es, base) && ChildrenOf(es, key, ds) && MergeChain(m, c, es, log, ds, cond, key, hashes)
    requires x in hashes && x !in es
    ensures TwoContain(es, x)
  {
    var i :| 0 <= i < |hashes| && hashes[i] == x;
    assert i > 0 && MergeLink(m, c, es, log, ds, cond, hashes, i);
    var d, e := Sel(es, ds, x)[0], Sel(es, ds, x)[1];
    assert IsChild(es, key, d) && IsChild(es, key, e) && d != e;
    assert Contains(es, d, x) && Contains(es, e, x);
  }

  /** From a node that fails, with any condition: the answer is the highest block at or below that meets it, whatever
      the order of the children, exactly when no rival branches off the path between the node found and that block. */
  lemma HighestInEveryOrder<V(!new)>(m: Monoid<V>, c: Chain, es: Entries<V>, base: Hash, log: Log<V>, cond: V -> bool,
                                     start: Hash, canon: Hash, x: Hash)
    requires Lawful(m) && Monotone(m, cond) && EdgesOk(c, es, base) && DescendentsOk(es) && VotesOk(m, c, es, log)
    requires StopsAt(m, c, es, log, cond, start, canon) && HighestBelow(m, c, log, cond, start, x)
    ensures var key := Last(es[canon].ancestors);
      && Order(es, key, es[key].descendents)
      && ((forall ds | Order(es, key, ds) :: IsTop(es, canon, MergeHashes(m, es, key, ds, cond), x)) <==>
          NoRival(m, c, es, log, es[key].descendents, cond, key, x))
  {
    var key := Last(es[canon].ancestors);
    HighestInEdge(m, c, es, base, log, cond, start, canon, x);
    NodeStartBounds(m, c, es, base, log, cond, canon, x);
    forall ds | Order(es, key, ds)
      ensures IsTop(es, canon, MergeHashes(m, es, key, ds, cond), x) <==>
              TopAbove(c, es, canon, MergeHashes(m, es, key, ds, cond), x)
    {
      MergeHashesMeans(m, c, es, base, log, key, ds, cond);
      TopIsHighest(m, c, es, base, log, cond, start, canon, ds, MergeHashes(m, es, key, ds, cond), x);
    }
  }

  lemma TopIsHighest<V(!new)>(m: Monoid<V>, c: Chain, es: Entries<V>, base: Hash, log: Log<V>, cond: V -> bool,
                              start: Hash, canon: Hash, ds: seq<Hash>, hashes: seq<Hash>, x: Hash)
    requires Lawful(m) && Monotone(m, cond) && EdgesOk(c, es, base)
    requires StopsAt(m, c, es, log, cond, start, canon) && HighestBelow(m, c, log, cond, start, x)
    requires ChildrenOf(es, Last(es[canon].ancestors), ds)
    requires MergeChain(m, c, es, log, ds, cond, Last(es[canon].ancestors), hashes)
    ensures IsTop(es, canon, hashes, x) <==> TopAbove(c, es, canon, hashes, x)
  {
    var key := Last(es[canon].ancestors);
    if r :| IsTop(es, canon, hashes, r) && AtOrBelow(c, x, r) {
      var k :| 0 <= k < |hashes| && hashes[k] == r && TopIndex(es, canon, hashes, k);
      assert NodeOk(c, es, base, canon) && NodeOk(c, es, base, start);
      PathMember(c, canon, es[canon].ancestors, r);
      BelowTrans(c, r, canon, start);
      if k > 0 {
        var d := ChainEnd(m, c, es, base, log, ds, cond, key, hashes, k);
        SelSumBelowWeight(m, c, es, base, log, ds, r, cond);
      }
      assert AtOrBelow(c, r, x);
      BelowNumber(c, r, start);
      BelowNumber(c, x, r);
      BelowNumber(c, r, x);
    }
    if IsTop(es, canon, hashes, x) {
      assert AtOrBelow(c, x, x);
    }
  }

  /** A block at or below the start that meets the condition is at or below the answer, when no rival branches off
      between the node found and it. In the edge of a node that meets the condition two edges must share it. */
  lemma AnswerAbove<V(!new)>(m: Monoid<V>, c: Chain, es: Entries<V>, base: Hash, log: Log<V>, cond: V -> bool,
                             start: Hash, canon: Hash, hashes: seq<Hash>, r: Hash, x: Hash)
    requires Lawful(m) && Monotone(m, cond) && EdgesOk(c, es, base) && DescendentsOk(es) && VotesOk(m, c, es, log)
    requires Trail(m, c, es, log, cond, start, canon, hashes, r) && ChainFrom(m, es, cond, canon, hashes)
    requires AtOrBelow(c, x, canon) && x != canon && cond(Weight(m, c, log, x))
    requires cond(es[canon].cumulative) && !AtOrBelow(c, x, Last(es[canon].ancestors)) ==> TwoContain(es, x)
    requires var key := Last(es[canon].ancestors);
      AtOrBelow(c, key, x) ==> NoRival(m, c, es, log, es[key].descendents, cond, key, x)
    ensures AtOrBelow(c, x, r)
  {
    AnswerMeets(m, c, es, base, log, cond, start, canon, hashes, r);
    var key := Last(es[canon].ancestors);
    assert NodeOk(c, es, base, canon) && NodeOk(c, es, base, key);
    PathMember(c, canon, es[canon].ancestors, key);
    BelowLinear(c, x, key, canon);
    BelowLinear(c, key, x, canon);
    if AtOrBelow(c, x, key) {
      BelowTrans(c, x, key, r);
    } else {
      PathCovers(c, canon, es[canon].ancestors, x);
      ChildrenInOrder(es, key);
      MeetsTogether(m, c, es, base, log, cond, key, canon, x);
      NoRivalPasses(m, c, es, base, log, cond, key, es[key].descendents, x);
      TopIsAbove(m, c, es, base, log, cond, start, canon, hashes, r, x);
    }
  }

  lemma MeetsTogether<V(!new)>(m: Monoid<V>, c: Chain, es: Entries<V>, base: Hash, log: Log<V>, cond: V -> bool,
                               key: Hash, canon: Hash, x: Hash)
    requires Lawful(m) && Monotone(m, cond) && EdgesOk(c, es, base) && DescendentsOk(es) && VotesOk(m, c, es, log)
    requires IsChild(es, key, canon) && key in es && ChildrenOf(es, key, es[key].descendents)
    requires x in es[canon].ancestors && x != key && cond(Weight(m, c, log, x))
    requires cond(es[canon].cumulative) ==> TwoContain(es, x)
    ensures AllMergeBelow(m, c, es, log, es[key].descendents, cond, key, x)
  {
    if cond(es[canon].cumulative) {
      var d, e :| d != e && Contains(es, d, x) && Contains(es, e, x);
      var f := if d == canon then e else d;
      assert f != canon && Contains(es, f, x);
    }
    AllMeetInEdge(m, c, es, base, log, cond, key, canon, x);
  }
}
