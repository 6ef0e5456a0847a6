/** Restarting the GHOST search from a cached block. */
module GhostRestart {
  import opened Wrappers
  import opened BlockTree
  import opened Votes
  import opened GraphSpec
  import opened GhostProofs
  import opened GhostSearch
  import opened AncestorProofs

  /** The node a search starts from is at or below the cached block. */
  lemma StartBelow<V>(c: Chain, es: Entries<V>, base: Hash, best: (Hash, nat)) returns (start: Hash)
    requires EdgesOk(c, es, base) && InGraph(es, best.0)
    ensures start in es && StartsAt(es, base, Some(best), start) && AtOrBelow(c, start, best.0)
    ensures AtOrBelow(c, base, best.0)
  {
    if best.0 in es {
      start := best.0;
    } else {
      var d :| Contains(es, d, best.0);
      assert NodeOk(c, es, base, d);
      PathMember(c, d, es[d].ancestors, best.0);
      start := Last(es[d].ancestors);
      assert IsChild(es, start, d);
    }
    BaseBelow(c, es, base, start);
    BelowTrans(c, base, start, best.0);
  }

  /** Where blocks on different forks cannot both meet a condition, a search restarted from a cached block that meets it
      answers what a search from the base does. */
  lemma RestartAgrees<V(!new)>(m: Monoid<V>, c: Chain, es: Entries<V>, base: Hash, log: Log<V>, cond: V -> bool,
                               best: (Hash, nat),
                               r: Option<(Hash, nat)>, s: Option<(Hash, nat)>)
    requires Lawful(m) && Monotone(m, cond) && EdgesOk(c, es, base) && Exclusive(m, c, es, log, cond)
    requires InGraph(es, best.0) && cond(Weight(m, c, log, best.0))
    requires GhostAnswer(m, c, es, base, log, None, cond, r) && GhostAnswer(m, c, es, base, log, Some(best), cond, s)
    ensures r.Some? && r == s && AtOrBelow(c, best.0, r.value.0)
  {
    var start := StartBelow(c, es, base, best);
    WeightMonotone(m, c, log, start, best.0, cond);
    WeightMonotone(m, c, log, base, best.0, cond);
    assert StartsAt(es, base, None, base);
    var x: Hash, y: Hash := r.value.0, s.value.0;
    assert InGraph(es, x) && InGraph(es, y);
    assert Comparable(c, x, y);
  }
}
