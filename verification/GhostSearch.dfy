/** `find_ghost`: the best descendent of a block that meets a condition, searched from the base or
    restarted from a cached block. */
module GhostSearch {
  import opened Wrappers
  import opened BlockTree
  import opened Votes
  import opened GraphSpec
  import opened MergeSpec
  import opened Search
  import opened GhostProofs
  import opened GraphLoose
  import opened VoteGraphs

  /** The first node of `ds` that meets the condition by itself. */
  function FirstHeavy<V>(es: Entries<V>, ds: seq<Hash>, cond: V -> bool): (r: Option<Hash>)
    requires forall d | d in ds :: d in es
    ensures r.Some? ==> var d: Hash := r.value; d in ds && d in es && cond(es[d].cumulative)
    ensures r.None? ==> forall d | d in ds :: !cond(es[d].cumulative)
  {
    if ds == [] then None
    else
      var d := ds[0];
      assert d in ds && ds == [d] + ds[1..];
      if cond(es[d].cumulative) then Some(d) else FirstHeavy(es, ds[1..], cond)
  }

  /** Hops from node to child while some child meets the condition; the first hop may be constrained to
      children with a given block in their edge. */
  method Descend<V(!new)>(ghost c: Chain, es: Entries<V>, ghost base: Hash, start: Hash, constrain: Option<(Hash, nat)>,
                          cond: V -> bool, ghost exact: bool)
    returns (key: Hash, constrained: bool)
    requires Upward(c, es) && start in es && cond(es[start].cumulative)
    requires exact ==> EdgesOk(c, es, base) && DescendentsOk(es) && GoodNumber(c, constrain)
    ensures key in es && cond(es[key].cumulative) && forall d | d in es[key].descendents :: d in es
    ensures constrained ==> constrain.Some? && key == start
    ensures exact ==>
              && AtOrBelow(c, start, key)
              && (!constrained && constrain.Some? ==> HeavyOver(c, es, constrain.value.0, key, cond))
              && (forall d | d in Candidates(es, key, if constrained then Some(constrain.value.0) else None) ::
                    !cond(es[d].cumulative))
  {
    key := start;
    constrained := constrain.Some?;
    ChildrenKnown(c, es, key);
    var ds := es[key].descendents;
    if constrained {
      if exact {
        KeepIsSel(c, es, base, ds, constrain.value.0, constrain.value.1);
      }
      ds := Keep(es, ds, constrain.value.0, constrain.value.1);
    }
    var next := FirstHeavy(es, ds, cond);
    while next.Some?
      invariant key in es && cond(es[key].cumulative) && (forall d | d in es[key].descendents :: d in es)
      invariant constrained ==> constrain.Some? && key == start
      invariant (forall d | d in ds :: d in es[key].descendents) && next == FirstHeavy(es, ds, cond)
      invariant exact ==> AtOrBelow(c, start, key)
      invariant exact ==> ds == Candidates(es, key, if constrained then Some(constrain.value.0) else None)
      invariant exact && !constrained && constrain.Some? ==> HeavyOver(c, es, constrain.value.0, key, cond)
      decreases HigherBlocks(c, es, key)
    {
      HigherNext(c, es, key, next.value);
      if exact {
        HopOver(c, es, base, start, key, next.value, constrain, constrained, cond);
      }
      key := next.value;
      constrained := false;
      ChildrenKnown(c, es, key);
      ds := es[key].descendents;
      next := FirstHeavy(es, ds, cond);
    }
  }

  /** A node at or below `key` with the block in its edge meets the condition. */
  ghost predicate HeavyOver<V>(c: Chain, es: Entries<V>, h: Hash, key: Hash, cond: V -> bool) {
    exists d :: Contains(es, d, h) && AtOrBelow(c, d, key) && cond(es[d].cumulative)
  }

  ghost function HigherBlocks<V>(c: Chain, es: Entries<V>, key: Hash): set<Hash> {
    set y | y in es && y in c.number && key in c.number && c.number[y] > c.number[key]
  }

  lemma HigherNext<V>(c: Chain, es: Entries<V>, key: Hash, d: Hash)
    requires Upward(c, es) && key in es && d in es[key].descendents
    ensures HigherBlocks(c, es, d) < HigherBlocks(c, es, key)
  {
    assert ChildAbove(c, es, key, d);
    assert d in HigherBlocks(c, es, key) && d !in HigherBlocks(c, es, d);
  }

  lemma ChildrenKnown<V>(c: Chain, es: Entries<V>, key: Hash)
    requires Upward(c, es) && key in es
    ensures forall d | d in es[key].descendents :: d in es
  {
    forall d | d in es[key].descendents ensures d in es {
      assert ChildAbove(c, es, key, d);
    }
  }

  lemma HopOver<V>(c: Chain, es: Entries<V>, base: Hash, start: Hash, key: Hash, d: Hash,
                   constrain: Option<(Hash, nat)>, constrained: bool, cond: V -> bool)
    requires EdgesOk(c, es, base) && DescendentsOk(es) && key in es && d in es[key].descendents && d in es
    requires AtOrBelow(c, start, key) && cond(es[d].cumulative)
    requires constrained ==> constrain.Some? && constrain.value.0 in es[d].ancestors
    requires !constrained && constrain.Some? ==> HeavyOver(c, es, constrain.value.0, key, cond)
    ensures AtOrBelow(c, start, d) && (constrain.Some? ==> HeavyOver(c, es, constrain.value.0, d, cond))
  {
    assert IsChild(es, key, d);
    assert NodeOk(c, es, base, d);
    PathMember(c, d, es[d].ancestors, key);
    BelowTrans(c, start, key, d);
    if constrained {
      assert Contains(es, d, constrain.value.0) && AtOrBelow(c, d, d);
    } else if constrain.Some? {
      var e :| Contains(es, e, constrain.value.0) && AtOrBelow(c, e, key) && cond(es[e].cumulative);
      BelowTrans(c, e, key, d);
    }
  }

  /** Where a search for `best` starts: at the node itself, at the node under the edge it lies in, or
      at the base when it is not in the graph. */
  ghost predicate StartsAt<V>(es: Entries<V>, base: Hash, best: Option<(Hash, nat)>, start: Hash) {
    match best
    case None => start == base
    case Some((h, _)) =>
      if h in es then start == h
      else if InGraph(es, h) then exists d :: Contains(es, d, h) && IsChild(es, start, d)
      else start == base
  }

  /** What `find_ghost` answers. */
  ghost predicate GhostAnswer<V>(m: Monoid<V>, c: Chain, es: Entries<V>, base: Hash, log: Log<V>,
                                 best: Option<(Hash, nat)>, cond: V -> bool, r: Option<(Hash, nat)>) {
    && (forall start | start in es && StartsAt(es, base, best, start) :: r.None? <==> !cond(Weight(m, c, log, start)))
    && (r.Some? ==>
          var b: Hash := r.value.0;
          && b in c.number && r.value.1 == c.number[b] && InGraph(es, b) && cond(Weight(m, c, log, b))
          && (if best.None? || !InGraph(es, best.value.0)
              then AtOrBelow(c, base, b) && Heaviest(m, c, es, log, cond, b)
              else if cond(Weight(m, c, log, best.value.0))
              then AtOrBelow(c, best.value.0, b) && Heaviest(m, c, es, log, cond, b)
              else AtOrBelow(c, b, best.value.0)))
  }

  /** The start node of a search, and whether the first hop is constrained to edges with the cached block. */
  method FindStart<V(!new)>(g: VoteGraph<V>, best: Option<(Hash, nat)>)
    returns (start: Hash, constrain: Option<(Hash, nat)>)
    requires g.Loose() && (best.Some? ==> g.Valid() && GoodNumber(g.chain, best))
    ensures start in g.entries && StartsAt(g.entries, g.base, best, start)
    ensures constrain == if best.Some? && best.value.0 !in g.entries && InGraph(g.entries, best.value.0) then best
                         else None
  {
    g.OpenLoose();
    start, constrain := g.base, None;
    if best.Some? {
      g.Open();
      var (hash, number) := best.value;
      var containing := g.FindContainingNodes(hash, number);
      if containing.None? {
        start := hash;
      } else if containing.value != [] {
        var d := containing.value[0];
        assert Contains(g.entries, d, hash) && NodeOk(g.chain, g.entries, g.base, d);
        start := g.entries[d].AncestorNode().value;
        assert IsChild(g.entries, start, d);
        constrain := best;
      } else {
        assert forall d :: !Contains(g.entries, d, hash);
      }
    }
  }

  /** The best GHOST descendent of `best`, or of the base. From the base there is one exactly when the base meets the
      condition, whatever numbers were claimed for the blocks. */
  method FindGhost<V(!new)>(g: VoteGraph<V>, best: Option<(Hash, nat)>, cond: V -> bool)
    returns (r: Option<(Hash, nat)>)
    requires Monotone(g.monoid, cond) && ((g.Valid() && GoodNumber(g.chain, best)) || (g.Loose() && best.None?))
    ensures best.None? ==> (r.None? <==> !cond(Weight(g.monoid, g.chain, g.log, g.base)))
    ensures g.Valid() && GoodNumber(g.chain, best) ==>
              GhostAnswer(g.monoid, g.chain, g.entries, g.base, g.log, best, cond, r)
  {
    ghost var exact := g.Valid() && GoodNumber(g.chain, best);
    if exact {
      g.ValidIsLoose();
    }
    var start, constrain := FindStart(g, best);
    g.OpenLoose();
    if exact {
      g.Open();
    }
    if !cond(g.entries[start].cumulative) {
      r := None;
      if exact {
        NoAnswer(g.monoid, g.chain, g.entries, g.base, g.log, best, cond, start);
      }
      return;
    }
    var key, constrained := Descend(g.chain, g.entries, g.base, start, constrain, cond, exact);
    ghost var m, c, es, base, log := g.monoid, g.chain, g.entries, g.base, g.log;
    var hashes, number, ds := GhostFindMergePoint(g.monoid, c, g.entries, base, log, key,
                                                  if constrained then best else None, cond, exact);
    r := Some((Last(hashes), number));
    if exact {
      if constrained {
        AnswerInEdge(m, c, es, base, log, best, cond, start, ds, hashes);
      } else {
        AnswerFromNode(m, c, es, base, log, best, cond, start, key, ds, hashes);
      }
    }
  }

  lemma StartUnique<V>(c: Chain, es: Entries<V>, base: Hash, best: Option<(Hash, nat)>, s: Hash, t: Hash)
    requires EdgesOk(c, es, base) && StartsAt(es, base, best, s) && StartsAt(es, base, best, t)
    ensures s == t
  {
    if best.Some? && best.value.0 !in es && InGraph(es, best.value.0) {
      var h: Hash := best.value.0;
      var d :| Contains(es, d, h) && IsChild(es, s, d);
      var e :| Contains(es, e, h) && IsChild(es, t, e);
      ContainingSameParent(c, es, base, h, d, e);
    }
  }

  lemma NoAnswer<V>(m: Monoid<V>, c: Chain, es: Entries<V>, base: Hash, log: Log<V>, best: Option<(Hash, nat)>,
                    cond: V -> bool, start: Hash)
    requires EdgesOk(c, es, base) && VotesOk(m, c, es, log)
    requires start in es && StartsAt(es, base, best, start) && !cond(es[start].cumulative)
    ensures GhostAnswer(m, c, es, base, log, best, cond, None)
  {
    forall s | s in es && StartsAt(es, base, best, s) ensures !cond(Weight(m, c, log, s)) {
      StartUnique(c, es, base, best, s, start);
    }
  }

  /** The start's weight decides whether there is an answer. */
  lemma HasAnswer<V>(m: Monoid<V>, c: Chain, es: Entries<V>, base: Hash, log: Log<V>, best: Option<(Hash, nat)>,
                     cond: V -> bool, start: Hash)
    requires EdgesOk(c, es, base) && VotesOk(m, c, es, log)
    requires start in es && StartsAt(es, base, best, start) && cond(es[start].cumulative)
    ensures forall s | s in es && StartsAt(es, base, best, s) :: cond(Weight(m, c, log, s))
  {
    forall s | s in es && StartsAt(es, base, best, s) ensures cond(Weight(m, c, log, s)) {
      StartUnique(c, es, base, best, s, start);
    }
  }

  /** The search ended above the start node, free to follow any child. */
  lemma AnswerFromNode<V(!new)>(m: Monoid<V>, c: Chain, es: Entries<V>, base: Hash, log: Log<V>,
                                best: Option<(Hash, nat)>, cond: V -> bool, start: Hash, key: Hash, ds: seq<Hash>,
                                hashes: seq<Hash>)
    requires Lawful(m) && Monotone(m, cond) && EdgesOk(c, es, base) && DescendentsOk(es) && VotesOk(m, c, es, log)
    requires start in es && StartsAt(es, base, best, start) && cond(es[start].cumulative)
    requires key in es && AtOrBelow(c, start, key) && cond(es[key].cumulative) && ds == es[key].descendents
    requires ChildrenOf(es, key, ds)
    requires best.Some? && best.value.0 !in es && InGraph(es, best.value.0) ==>
               HeavyOver(c, es, best.value.0, key, cond)
    requires MergeChain(m, c, es, log, ds, cond, key, hashes) && Maximal(m, c, es, log, ds, cond, Last(hashes))
    requires forall d | d in ds :: !cond(es[d].cumulative)
    ensures Last(hashes) in c.number
    ensures GhostAnswer(m, c, es, base, log, best, cond, Some((Last(hashes), c.number[Last(hashes)])))
  {
    var b := Last(hashes);
    HasAnswer(m, c, es, base, log, best, cond, start);
    EndNumber(m, c, es, base, log, ds, cond, key, hashes);
    assert Covers(es, key, ds, b);
    EndIsHeaviest(m, c, es, base, log, ds, cond, key, hashes);
    BelowTrans(c, start, key, b);
    if best.Some? && best.value.0 !in es && InGraph(es, best.value.0) {
      var h: Hash := best.value.0;
      var d :| Contains(es, d, h) && AtOrBelow(c, d, key) && cond(es[d].cumulative);
      assert NodeOk(c, es, base, d);
      PathMember(c, d, es[d].ancestors, h);
      WeightMonotone(m, c, log, h, d, cond);
      BelowTrans(c, h, d, key);
      BelowTrans(c, h, key, b);
    }
  }

  /** The search stayed in the edges above the cached block. */
  lemma AnswerInEdge<V(!new)>(m: Monoid<V>, c: Chain, es: Entries<V>, base: Hash, log: Log<V>,
                              best: Option<(Hash, nat)>, cond: V -> bool, key: Hash, ds: seq<Hash>, hashes: seq<Hash>)
    requires Lawful(m) && Monotone(m, cond) && EdgesOk(c, es, base) && DescendentsOk(es) && VotesOk(m, c, es, log)
    requires key in es && StartsAt(es, base, best, key) && cond(es[key].cumulative)
    requires best.Some? && best.value.0 !in es && InGraph(es, best.value.0)
    requires (forall d | d in es[key].descendents :: d in es) && ds == Sel(es, es[key].descendents, best.value.0)
             && ChildrenOf(es, key, ds)
    requires MergeChain(m, c, es, log, ds, cond, key, hashes) && Maximal(m, c, es, log, ds, cond, Last(hashes))
    requires forall d | d in ds :: !cond(es[d].cumulative)
    ensures Last(hashes) in c.number
    ensures GhostAnswer(m, c, es, base, log, best, cond, Some((Last(hashes), c.number[Last(hashes)])))
  {
    var b, h: Hash := Last(hashes), best.value.0;
    HasAnswer(m, c, es, base, log, best, cond, key);
    EndNumber(m, c, es, base, log, ds, cond, key, hashes);
    EndMeets(m, c, es, base, log, ds, cond, key, hashes);
    var d :| Contains(es, d, h) && IsChild(es, key, d);
    forall e | Contains(es, e, h) ensures e in ds {
      ContainingSameParent(c, es, base, h, d, e);
      assert IsChild(es, key, e);
    }
    assert d in ds && AllAbove(es, key, ds, h);
    if cond(Weight(m, c, log, h)) {
      ReachesCached(m, c, es, base, log, ds, cond, key, hashes, h);
      CoversBeyond(c, es, base, key, ds, h, b);
      EndIsHeaviest(m, c, es, base, log, ds, cond, key, hashes);
    } else {
      StopsBelowCached(m, c, es, base, log, ds, cond, key, hashes, h);
    }
  }
}
