/** A vote-graph is determined by the votes in it: the order they came in does not matter. */
module GraphUnique {
  import opened Wrappers
  import opened BlockTree
  import opened Votes
  import opened GraphSpec
  import opened VoteGraphs

  lemma {:induction false} PathsAgree(c: Chain, h: Hash, p: seq<Hash>, q: seq<Hash>, i: nat)
    requires IsPath(c, h, p) && IsPath(c, h, q) && i < |p| && i < |q|
    ensures p[i] == q[i]
  {
    assert StepDown(c, h, p, i) && StepDown(c, h, q, i);
    if i > 0 {
      PathsAgree(c, h, p, q, i - 1);
    }
  }

  /** The nodes determine the edges. */
  lemma EdgeUnique<V>(c: Chain, es: Entries<V>, fs: Entries<V>, base: Hash, k: Hash)
    requires EdgesOk(c, es, base) && EdgesOk(c, fs, base) && es.Keys == fs.Keys && k in es
    ensures es[k].ancestors == fs[k].ancestors && es[k].number == fs[k].number
  {
    assert NodeOk(c, es, base, k) && NodeOk(c, fs, base, k);
    if k != base {
      var p, q := es[k].ancestors, fs[k].ancestors;
      var n := if |p| < |q| then |p| else |q|;
      PathsAgree(c, k, p, q, n - 1);
      assert |p| == |q|;
      forall i | 0 <= i < n ensures p[i] == q[i] {
        PathsAgree(c, k, p, q, i);
      }
    }
  }

  lemma SameDescendents<V>(c: Chain, es: Entries<V>, fs: Entries<V>, base: Hash, k: Hash, d: Hash)
    requires EdgesOk(c, es, base) && EdgesOk(c, fs, base) && es.Keys == fs.Keys && k in es && DescendentsOk(es)
    requires DescendentsOk(fs)
    ensures d in es[k].descendents <==> d in fs[k].descendents
  {
    if d in es {
      EdgeUnique(c, es, fs, base, d);
    }
    assert IsChild(es, k, d) <==> IsChild(fs, k, d);
  }

  lemma SameHeads<V>(c: Chain, es: Entries<V>, fs: Entries<V>, base: Hash, heads: set<Hash>, tips: set<Hash>)
    requires EdgesOk(c, es, base) && EdgesOk(c, fs, base) && es.Keys == fs.Keys && DescendentsOk(es)
    requires DescendentsOk(fs)
    requires HeadsOk(es, heads) && HeadsOk(fs, tips)
    ensures heads == tips
  {
    forall k ensures k in heads <==> k in tips {
      if k in es {
        if es[k].descendents != [] {
          SameDescendents(c, es, fs, base, k, es[k].descendents[0]);
        }
        if fs[k].descendents != [] {
          SameDescendents(c, es, fs, base, k, fs[k].descendents[0]);
        }
      }
    }
  }

  // ---- The order of votes ----

  ghost function Moved<V>(log: Log<V>, i: nat): Log<V>
    requires i < |log|
  {
    log[..i] + log[i + 1..]
  }

  /** A vote may as well have come last. */
  lemma {:induction false} MoveLast<V(!new)>(m: Monoid<V>, log: Log<V>, s: set<Hash>, i: nat)
    requires Lawful(m) && i < |log|
    ensures SumIn(m, log, s) == if log[i].0 in s then m.add(SumIn(m, Moved(log, i), s), log[i].1)
                                else SumIn(m, Moved(log, i), s)
  {
    var last := |log| - 1;
    if i == last {
      assert Moved(log, i) == log[..last];
    } else {
      var init, rest := log[..last], Moved(log, i);
      MoveLast(m, init, s, i);
      assert rest[..|rest| - 1] == Moved(init, i) && rest[|rest| - 1] == log[last];
      var sum, x, y := SumIn(m, Moved(init, i), s), log[i].1, log[last].1;
      Rearrange(m, sum, y, x);
    }
  }

  lemma MovedVotes<V>(log: Log<V>, i: nat)
    requires i < |log|
    ensures multiset(Moved(log, i)) == multiset(log) - multiset{log[i]}
  {
    assert log == log[..i] + ([log[i]] + log[i + 1..]);
    assert multiset(log) == multiset(log[..i]) + multiset([log[i]] + log[i + 1..]);
    assert multiset([log[i]] + log[i + 1..]) == multiset{log[i]} + multiset(log[i + 1..]);
  }

  lemma {:induction false} SumPermuted<V(!new)>(m: Monoid<V>, log: Log<V>, other: Log<V>, s: set<Hash>)
    requires Lawful(m) && multiset(log) == multiset(other)
    ensures SumIn(m, log, s) == SumIn(m, other, s)
  {
    if log == [] {
      assert |multiset(other)| == |other|;
    } else {
      var last := |log| - 1;
      var x := log[last];
      assert x in multiset(other);
      var i :| 0 <= i < |other| && other[i] == x;
      MoveLast(m, other, s, i);
      assert Moved(log, last) == log[..last];
      MovedVotes(log, last);
      MovedVotes(other, i);
      SumPermuted(m, log[..last], Moved(other, i), s);
    }
  }

  lemma {:induction false} SameVoted<V>(log: Log<V>, other: Log<V>)
    requires multiset(log) == multiset(other)
    ensures Voted(log) == Voted(other)
  {
    forall h ensures h in Voted(log) <==> h in Voted(other) {
      VotedSame(log, other, h);
      VotedSame(other, log, h);
    }
  }

  lemma VotedSame<V>(log: Log<V>, other: Log<V>, h: Hash)
    requires multiset(log) == multiset(other)
    ensures h in Voted(log) ==> h in Voted(other)
  {
    if h in Voted(log) {
      var i :| 0 <= i < |log| && log[i].0 == h;
      assert log[i] in multiset(other);
      var j :| 0 <= j < |other| && other[j] == log[i];
    }
  }

  /** Two graphs over the same tree with the same bases and the same votes, in whatever order they came in, are the same
      graph: the same nodes with the same numbers, edges, children and cumulative votes, and the same heads. */
  lemma OrderIndependent<V(!new)>(g: VoteGraph<V>, f: VoteGraph<V>)
    requires g.Valid() && f.Valid() && g.chain == f.chain && g.monoid == f.monoid && g.base == f.base
    requires g.bases == f.bases
    requires multiset(g.log) == multiset(f.log)
    ensures g.entries.Keys == f.entries.Keys && g.heads == f.heads
    ensures forall k | k in g.entries :: SameEntry(g.entries, f.entries, k)
  {
    g.Open();
    f.Open();
    SameVoted(g.log, f.log);
    SameHeads(g.chain, g.entries, f.entries, g.base, g.heads, f.heads);
    forall k | k in g.entries ensures SameEntry(g.entries, f.entries, k) {
      EdgeUnique(g.chain, g.entries, f.entries, g.base, k);
      forall d ensures d in g.entries[k].descendents <==> d in f.entries[k].descendents {
        SameDescendents(g.chain, g.entries, f.entries, g.base, k, d);
      }
      SumPermuted(g.monoid, g.log, f.log, Up(g.chain, k));
    }
  }

  ghost predicate SameEntry<V>(es: Entries<V>, fs: Entries<V>, k: Hash)
    requires k in es
  {
    && k in fs && es[k].number == fs[k].number && es[k].ancestors == fs[k].ancestors
       && es[k].cumulative == fs[k].cumulative
    && forall d :: d in es[k].descendents <==> d in fs[k].descendents
  }
}
