/** Each change to the vote-graph keeps it a faithful compression of the block tree. */
module GraphUpdates {
  import opened Wrappers
  import opened BlockTree
  import opened Votes
  import opened GraphSpec

  // ---- A new leaf ----

  ghost predicate IsEdgeTo<V>(c: Chain, es: Entries<V>, h: Hash, edge: seq<Hash>) {
    && IsPath(c, h, edge) && |edge| > 0 && Last(edge) in es
    && (forall i | 0 <= i < |edge| - 1 :: edge[i] !in es)
  }

  function Appended<V>(es: Entries<V>, h: Hash, e: Entry<V>, p: Hash): Entries<V>
    requires p in es
  {
    es[p := es[p].(descendents := es[p].descendents + [h])][h := e]
  }

  lemma AppendEdges<V>(c: Chain, es: Entries<V>, base: Hash, h: Hash, e: Entry<V>)
    requires EdgesOk(c, es, base) && h !in es && h in c.number && (forall d :: !Contains(es, d, h))
    requires e.number == c.number[h] && IsEdgeTo(c, es, h, e.ancestors)
    ensures EdgesOk(c, Appended(es, h, e, Last(e.ancestors)), base)
  {
    var es' := Appended(es, h, e, Last(e.ancestors));
    forall k | k in es' ensures NodeOk(c, es', base, k) {
      if k != h {
        assert NodeOk(c, es, base, k) && !Contains(es, k, h);
      } else {
        PathAt(c, h, e.ancestors, 0);
        forall i | 0 <= i < |e.ancestors| - 1 ensures e.ancestors[i] !in es' {
          PathAt(c, h, e.ancestors, i);
        }
      }
    }
  }

  lemma AppendDescendents<V>(c: Chain, es: Entries<V>, base: Hash, heads: set<Hash>, h: Hash, e: Entry<V>)
    requires EdgesOk(c, es, base) && DescendentsOk(es) && HeadsOk(es, heads)
    requires h !in es && h in c.number && (forall d :: !Contains(es, d, h))
    requires IsEdgeTo(c, es, h, e.ancestors) && e.descendents == []
    ensures DescendentsOk(Appended(es, h, e, Last(e.ancestors)))
    ensures HeadsOk(Appended(es, h, e, Last(e.ancestors)), heads - {Last(e.ancestors)} + {h})
  {
    var p := Last(e.ancestors);
    var es' := Appended(es, h, e, p);
    PathAt(c, h, e.ancestors, |e.ancestors| - 1);
    forall k, d | k in es' ensures d in es'[k].descendents <==> IsChild(es', k, d) {
      if k == h {
        assert !IsChild(es', h, d) by {
          assert !Contains(es, d, h);
        }
      } else {
        assert d in es[k].descendents <==> IsChild(es, k, d);
        assert d != h ==> (IsChild(es', k, d) <==> IsChild(es, k, d));
      }
    }
    assert !IsChild(es, p, h) && NoDup(es[p].descendents);
    forall k | k in es' ensures NoDup(es'[k].descendents) {
      assert k != h ==> NoDup(es[k].descendents);
    }
  }

  lemma AppendVotes<V>(m: Monoid<V>, c: Chain, es: Entries<V>, base: Hash, log: Log<V>, h: Hash, e: Entry<V>)
    requires EdgesOk(c, es, base) && VotesOk(m, c, es, log)
    requires h !in es && h in c.number && AtOrBelow(c, base, h) && (forall d :: !Contains(es, d, h))
    requires IsEdgeTo(c, es, h, e.ancestors) && e.cumulative == m.zero
    ensures VotesOk(m, c, Appended(es, h, e, Last(e.ancestors)), log)
  {
    forall i | 0 <= i < |log| ensures log[i].0 !in Up(c, h) {
      if AtOrBelow(c, h, log[i].0) {
        var d := ContainingNode(c, es, base, h, log[i].0);
      }
    }
    SumNone(m, log, Up(c, h));
  }

  // ---- A node inside existing edges ----

  /** The elements of `s` that are not in `t`, in order. */
  function Without(s: seq<Hash>, t: seq<Hash>): (r: seq<Hash>)
    ensures forall x :: x in r <==> x in s && x !in t
    ensures NoDup(s) ==> NoDup(r)
  {
    if s == [] then []
    else
      var rest := Without(s[..|s| - 1], t);
      assert s == s[..|s| - 1] + [Last(s)];
      if Last(s) in t then rest else rest + [Last(s)]
  }

  /** The nodes of `ds` have their edges cut at `h`, which takes over the lower part. */
  ghost predicate Branched<V>(es: Entries<V>, es': Entries<V>, ds: seq<Hash>, h: Hash, n: nat, p: Hash) {
    && h !in es && p in es && p !in ds && |ds| > 0
    && es'.Keys == es.Keys + {h}
    && (forall d | d in ds ::
          d in es && n < es[d].number && es[d].number - n < |es[d].ancestors|
          && es'[d] == es[d].(ancestors := es[d].ancestors[..es[d].number - n]))
    && es'[p] == es[p].(descendents := Without(es[p].descendents, ds) + [h])
    && (forall k | k in es && k !in ds && k != p :: es'[k] == es[k])
    && es'[h].number == n && es'[h].descendents == ds
    && ds[0] in es && n < es[ds[0]].number && es[ds[0]].number - n < |es[ds[0]].ancestors|
    && es'[h].ancestors == es[ds[0]].ancestors[es[ds[0]].number - n..]
  }

  ghost predicate AllContaining<V>(es: Entries<V>, ds: seq<Hash>, h: Hash) {
    NoDup(ds) && forall d :: d in ds <==> Contains(es, d, h)
  }

  lemma PathSlice(c: Chain, h: Hash, path: seq<Hash>, k: nat)
    requires IsPath(c, h, path) && 0 < k <= |path|
    ensures IsPath(c, h, path[..k])
    ensures IsPath(c, path[k - 1], path[k..])
  {
    var front, tail, top := path[..k], path[k..], path[k - 1];
    forall i | 0 <= i < |front| ensures StepDown(c, h, front, i) {
      assert StepDown(c, h, path, i);
    }
    forall i | 0 <= i < |tail| ensures StepDown(c, top, tail, i) {
      assert StepDown(c, h, path, i + k);
    }
  }

  /** Where each containing edge is cut, and that it is cut at `h`. */
  lemma CutPoint<V>(c: Chain, es: Entries<V>, base: Hash, d: Hash, h: Hash)
    requires EdgesOk(c, es, base) && h !in es && Contains(es, d, h)
    ensures h in c.number && c.number[h] < es[d].number && es[d].number - c.number[h] < |es[d].ancestors|
    ensures es[d].ancestors[es[d].number - c.number[h] - 1] == h
    ensures Last(es[d].ancestors) in es && AtOrBelow(c, Last(es[d].ancestors), h)
  {
    assert NodeOk(c, es, base, d);
    PathMember(c, d, es[d].ancestors, h);
  }

  /** Both halves of an edge cut at `h` are edges once `h` is a node. */
  lemma CutEdge<V>(c: Chain, es: Entries<V>, base: Hash, d: Hash, h: Hash)
    requires EdgesOk(c, es, base) && h !in es && Contains(es, d, h)
    requires h in c.number && c.number[h] < es[d].number && es[d].number - c.number[h] < |es[d].ancestors|
    ensures var upper, lower := es[d].ancestors[..es[d].number - c.number[h]],
            es[d].ancestors[es[d].number - c.number[h]..];
      && IsPath(c, d, upper) && Last(upper) == h && IsPath(c, h, lower) && Last(lower) == Last(es[d].ancestors)
      && (forall i | 0 <= i < |upper| - 1 :: upper[i] !in es && upper[i] != h)
      && (forall i | 0 <= i < |lower| - 1 :: lower[i] !in es && lower[i] != h)
  {
    CutPoint(c, es, base, d, h);
    assert NodeOk(c, es, base, d);
    var anc := es[d].ancestors;
    var cut := es[d].number - c.number[h];
    PathSlice(c, d, anc, cut);
    forall i | 0 <= i < |anc| - 1 && i != cut - 1 ensures anc[i] !in es && anc[i] != h {
      PathAt(c, d, anc, i);
    }
  }

  lemma CutEdgeOk<V>(c: Chain, es: Entries<V>, es': Entries<V>, base: Hash, ds: seq<Hash>, h: Hash, p: Hash, k: Hash)
    requires EdgesOk(c, es, base) && h in c.number && Contains(es, k, h)
    requires Branched(es, es', ds, h, c.number[h], p) && k in ds
    ensures NodeOk(c, es', base, k) && Last(es'[k].ancestors) == h
  {
    CutEdge(c, es, base, k, h);
    assert NodeOk(c, es, base, k);
  }

  lemma NewNodeOk<V>(c: Chain, es: Entries<V>, es': Entries<V>, base: Hash, d: Hash, h: Hash)
    requires EdgesOk(c, es, base) && h !in es && Contains(es, d, h) && es'.Keys == es.Keys + {h}
    requires h in c.number && c.number[h] < es[d].number && es[d].number - c.number[h] < |es[d].ancestors|
    requires es'[h].number == c.number[h] && es'[h].ancestors == es[d].ancestors[es[d].number - c.number[h]..]
    ensures NodeOk(c, es', base, h)
  {
    CutEdge(c, es, base, d, h);
    CutPoint(c, es, base, d, h);
  }

  lemma BranchEdges<V>(c: Chain, es: Entries<V>, es': Entries<V>, base: Hash, ds: seq<Hash>, h: Hash, p: Hash)
    requires EdgesOk(c, es, base) && h in c.number && AllContaining(es, ds, h)
    requires Branched(es, es', ds, h, c.number[h], p)
    ensures EdgesOk(c, es', base)
  {
    assert Contains(es, ds[0], h);
    NewNodeOk(c, es, es', base, ds[0], h);
    forall k | k in es' ensures NodeOk(c, es', base, k) {
      if k in ds {
        CutEdgeOk(c, es, es', base, ds, h, p, k);
      } else if k != h {
        OtherNodeOk(c, es, es', base, ds, h, p, k);
      }
    }
    assert !Contains(es, base, h) && base !in ds;
  }

  lemma OtherNodeOk<V>(c: Chain, es: Entries<V>, es': Entries<V>, base: Hash, ds: seq<Hash>, h: Hash, p: Hash, k: Hash)
    requires EdgesOk(c, es, base) && h in c.number && !Contains(es, k, h)
    requires Branched(es, es', ds, h, c.number[h], p) && k in es && k !in ds
    ensures NodeOk(c, es', base, k)
  {
    assert NodeOk(c, es, base, k);
    assert es'[k].ancestors == es[k].ancestors && es'[k].number == es[k].number;
  }

  lemma BranchChildren<V>(c: Chain, es: Entries<V>, es': Entries<V>, base: Hash, ds: seq<Hash>, h: Hash, p: Hash,
                          k: Hash, d: Hash)
    requires EdgesOk(c, es, base) && DescendentsOk(es) && h in c.number && AllContaining(es, ds, h)
    requires Branched(es, es', ds, h, c.number[h], p) && p == Last(es[ds[0]].ancestors) && k in es'
    ensures d in es'[k].descendents <==> IsChild(es', k, d)
  {
    CutPoint(c, es, base, ds[0], h);
    assert Last(es'[h].ancestors) == p;
    if d in ds {
      CutEdgeOk(c, es, es', base, ds, h, p, d);
      ContainingSameParent(c, es, base, h, d, ds[0]);
    } else if d != h && d in es {
      assert !Contains(es, d, h);
    }
    if k in es {
      assert d in es[k].descendents <==> IsChild(es, k, d);
    }
  }

  lemma BranchDescendents<V>(c: Chain, es: Entries<V>, es': Entries<V>, base: Hash, heads: set<Hash>, ds: seq<Hash>,
                             h: Hash, p: Hash)
    requires EdgesOk(c, es, base) && DescendentsOk(es) && HeadsOk(es, heads) && h in c.number
    requires AllContaining(es, ds, h)
    requires Branched(es, es', ds, h, c.number[h], p) && p == Last(es[ds[0]].ancestors)
    ensures DescendentsOk(es') && HeadsOk(es', heads)
  {
    forall k, d | k in es' ensures d in es'[k].descendents <==> IsChild(es', k, d) {
      BranchChildren(c, es, es', base, ds, h, p, k, d);
    }
    assert !IsChild(es, p, h);
    assert NoDup(es'[p].descendents);
    assert IsChild(es, p, ds[0]);
  }

  lemma BranchVotes<V(!new)>(m: Monoid<V>, c: Chain, es: Entries<V>, es': Entries<V>, base: Hash, log: Log<V>,
                             ds: seq<Hash>, h: Hash, p: Hash)
    requires EdgesOk(c, es, base) && VotesOk(m, c, es, log) && h in c.number && AllContaining(es, ds, h)
    requires Branched(es, es', ds, h, c.number[h], p)
    requires es'[h].cumulative == SumIn(m, log, UpAll(c, ds))
    ensures VotesOk(m, c, es', log)
  {
    CutPoint(c, es, base, ds[0], h);
    var q := Last(es[ds[0]].ancestors);
    BaseBelow(c, es, base, q);
    BelowTrans(c, base, q, h);
    WeightOfContained(m, c, es, base, log, h, ds);
    forall k | k in es' ensures es'[k].cumulative == Weight(m, c, log, k) {
      if k in ds || k == p {
        assert k in es;
      }
    }
  }

  ghost predicate CutAt<V>(es: Entries<V>, es': Entries<V>, d: Hash, n: nat) {
    && d in es && d in es' && n < es[d].number && es[d].number - n < |es[d].ancestors|
    && es'[d] == es[d].(ancestors := es[d].ancestors[..es[d].number - n])
  }

  /** After the first `i` nodes of `ds`: their edges are cut, nothing else is changed, and `e` has the
      lower part of the first edge, those nodes as children and their votes combined. */
  ghost predicate Gathered<V>(m: Monoid<V>, c: Chain, log: Log<V>, es: Entries<V>, es': Entries<V>, ds: seq<Hash>,
                              i: nat, n: nat, e: Entry<V>) {
    && 0 < |ds| && i <= |ds| && ds[0] in es && es'.Keys == es.Keys
    && (forall j | 0 <= j < i :: CutAt(es, es', ds[j], n))
    && (forall k | k in es && k !in ds[..i] :: es'[k] == es[k])
    && n < es[ds[0]].number && es[ds[0]].number - n < |es[ds[0]].ancestors|
    && e.number == n && e.ancestors == es[ds[0]].ancestors[es[ds[0]].number - n..]
    && e.descendents == ds[..i]
    && e.cumulative == SumIn(m, log, UpAll(c, ds[..i]))
  }

  lemma NextBranchWeight<V(!new)>(m: Monoid<V>, c: Chain, es: Entries<V>, base: Hash, log: Log<V>, ds: seq<Hash>,
                                  i: nat, h: Hash)
    requires Lawful(m) && EdgesOk(c, es, base) && VotesOk(m, c, es, log) && h !in es && AllContaining(es, ds, h)
    requires i < |ds|
    ensures ds[i] in es
    ensures SumIn(m, log, UpAll(c, ds[..i] + [ds[i]])) == m.add(SumIn(m, log, UpAll(c, ds[..i])), es[ds[i]].cumulative)
  {
    var d := ds[i];
    assert Contains(es, d, h);
    forall x | x in ds[..i] ensures !Comparable(c, x, d) {
      assert x in ds && Contains(es, x, h) && x != d;
      ContainingIncomparable(c, es, base, h, x, d);
    }
    UpAllExtend(m, c, log, ds[..i], d);
  }

  lemma CutStep<V>(es: Entries<V>, es': Entries<V>, ds: seq<Hash>, i: nat, n: nat)
    requires i < |ds| && NoDup(ds) && es'.Keys == es.Keys && ds[i] in es && es'[ds[i]] == es[ds[i]]
    requires forall j | 0 <= j < i :: CutAt(es, es', ds[j], n)
    requires n < es[ds[i]].number && es[ds[i]].number - n < |es[ds[i]].ancestors|
    ensures var es'' := es'[ds[i] := es[ds[i]].(ancestors := es[ds[i]].ancestors[..es[ds[i]].number - n])];
            forall j | 0 <= j < i + 1 :: CutAt(es, es'', ds[j], n)
  {
    var es'' := es'[ds[i] := es[ds[i]].(ancestors := es[ds[i]].ancestors[..es[ds[i]].number - n])];
    forall j | 0 <= j < i + 1 ensures CutAt(es, es'', ds[j], n) {
      assert j < i ==> CutAt(es, es', ds[j], n);
    }
  }

  /** The parent of a cut edge is not cut itself. */
  lemma ParentNotCut<V>(c: Chain, es: Entries<V>, base: Hash, d: Hash, h: Hash)
    requires EdgesOk(c, es, base) && h !in es && Contains(es, d, h)
    ensures |es[d].ancestors| > 0 && Last(es[d].ancestors) in es && !Contains(es, Last(es[d].ancestors), h)
  {
    assert NodeOk(c, es, base, d);
    CutPoint(c, es, base, d, h);
    var p := Last(es[d].ancestors);
    PathMember(c, d, es[d].ancestors, p);
    if Contains(es, p, h) {
      ContainingIncomparable(c, es, base, h, d, p);
    }
  }

  function WithBranch<V>(cut: Entries<V>, h: Hash, e: Entry<V>): Entries<V>
    requires |e.ancestors| > 0 && Last(e.ancestors) in cut
  {
    var p := Last(e.ancestors);
    cut[p := cut[p].(descendents := Without(cut[p].descendents, e.descendents) + [h])][h := e]
  }

  lemma GatheredIsBranched<V>(m: Monoid<V>, c: Chain, log: Log<V>, es: Entries<V>, cut: Entries<V>, ds: seq<Hash>,
                              h: Hash, n: nat, e: Entry<V>)
    requires Gathered(m, c, log, es, cut, ds, |ds|, n, e)
    requires h !in es && Last(e.ancestors) in es && Last(e.ancestors) !in ds
    ensures Branched(es, WithBranch(cut, h, e), ds, h, n, Last(e.ancestors))
  {
    assert ds[..|ds|] == ds;
    var es' := WithBranch(cut, h, e);
    forall d | d in ds ensures CutAt(es, es', d, n) {
      var j :| 0 <= j < |ds| && ds[j] == d;
      assert CutAt(es, cut, ds[j], n);
    }
  }

  /** Making a contained block a node keeps the graph a faithful compression. */
  lemma BranchOk<V(!new)>(m: Monoid<V>, c: Chain, es: Entries<V>, cut: Entries<V>, base: Hash, heads: set<Hash>,
                          log: Log<V>, ds: seq<Hash>, h: Hash, e: Entry<V>)
    requires EdgesOk(c, es, base) && DescendentsOk(es) && HeadsOk(es, heads) && VotesOk(m, c, es, log)
    requires h !in es && h in c.number && AllContaining(es, ds, h)
    requires Gathered(m, c, log, es, cut, ds, |ds|, c.number[h], e)
    ensures |e.ancestors| > 0 && Last(e.ancestors) in cut && base in WithBranch(cut, h, e)
    ensures var es' := WithBranch(cut, h, e);
      && EdgesOk(c, es', base) && DescendentsOk(es') && HeadsOk(es', heads) && VotesOk(m, c, es', log)
      && es'.Keys == es.Keys + {h} && es'[base].number == es[base].number
  {
    assert Contains(es, ds[0], h);
    CutPoint(c, es, base, ds[0], h);
    ParentNotCut(c, es, base, ds[0], h);
    var p := Last(e.ancestors);
    assert p == Last(es[ds[0]].ancestors);
    GatheredIsBranched(m, c, log, es, cut, ds, h, c.number[h], e);
    var es' := WithBranch(cut, h, e);
    BranchEdges(c, es, es', base, ds, h, p);
    BranchDescendents(c, es, es', base, heads, ds, h, p);
    assert ds[..|ds|] == ds;
    BranchVotes(m, c, es, es', base, log, ds, h, p);
    assert NodeOk(c, es, base, base) && NodeOk(c, es', base, base);
  }

  // ---- One more vote ----

  /** `es'` is `es` with `v` added to the cumulative vote of the nodes at or below `h`. */
  ghost predicate VoteAdded<V>(m: Monoid<V>, c: Chain, es: Entries<V>, es': Entries<V>, h: Hash, v: V) {
    && es'.Keys == es.Keys
    && (forall k | k in es ::
          es'[k] == if AtOrBelow(c, k, h) then es[k].(cumulative := m.add(es[k].cumulative, v)) else es[k])
  }

  lemma VoteAddedOk<V>(m: Monoid<V>, c: Chain, es: Entries<V>, es': Entries<V>, base: Hash, heads: set<Hash>,
                       log: Log<V>, h: Hash, v: V)
    requires EdgesOk(c, es, base) && DescendentsOk(es) && HeadsOk(es, heads) && VotesOk(m, c, es, log)
    requires h in es && VoteAdded(m, c, es, es', h, v)
    ensures EdgesOk(c, es', base) && DescendentsOk(es') && HeadsOk(es', heads) && VotesOk(m, c, es', log + [(h, v)])
  {
    forall k | k in es' ensures NodeOk(c, es', base, k) {
      assert NodeOk(c, es, base, k);
    }
    forall k, d | k in es' ensures d in es'[k].descendents <==> IsChild(es', k, d) {
      assert d in es[k].descendents <==> IsChild(es, k, d);
    }
    assert NodeOk(c, es, base, h);
    forall k | k in es' ensures es'[k].cumulative == Weight(m, c, log + [(h, v)], k) {
      SumAppend(m, log, h, v, Up(c, k));
    }
  }

  // ---- A lower base ----

  function Rebased<V>(es: Entries<V>, base: Hash, n: nat, proof: seq<Hash>): Entries<V>
    requires base in es && |proof| > 0
  {
    var oldEntry := es[base].(ancestors := es[base].ancestors + proof);
    es[base := oldEntry][Last(proof) := Entry(n, [], [base], oldEntry.cumulative)]
  }

  lemma RebasedOk<V>(m: Monoid<V>, c: Chain, es: Entries<V>, base: Hash, heads: set<Hash>, log: Log<V>,
                     proof: seq<Hash>)
    requires EdgesOk(c, es, base) && DescendentsOk(es) && HeadsOk(es, heads) && VotesOk(m, c, es, log)
    requires IsPath(c, base, proof) && |proof| > 0
    ensures es[base].number >= |proof|
    ensures var es' := Rebased(es, base, es[base].number - |proof|, proof);
            EdgesOk(c, es', Last(proof)) && DescendentsOk(es') && HeadsOk(es', heads) && VotesOk(m, c, es', log)
  {
    assert es[base].number >= |proof| && AtOrBelow(c, Last(proof), base) by {
      assert NodeOk(c, es, base, base);
      PathAt(c, base, proof, |proof| - 1);
    }
    forall i, k | 0 <= i < |proof| && k in es ensures k != proof[i] && proof[i] !in es[k].ancestors {
      BelowTheBase(c, es, base, proof, i, k);
    }
    RebasedEdges(c, es, base, proof);
    RebasedDescendents(es, base, heads, es[base].number - |proof|, proof);
    LowerBaseWeight(m, c, es, base, log, Last(proof));
    RebasedVotes(m, c, es, base, log, es[base].number - |proof|, proof);
  }

  lemma LowerBaseWeight<V>(m: Monoid<V>, c: Chain, es: Entries<V>, base: Hash, log: Log<V>, h: Hash)
    requires EdgesOk(c, es, base) && VotesOk(m, c, es, log) && AtOrBelow(c, h, base)
    ensures Weight(m, c, log, h) == Weight(m, c, log, base)
  {
    forall i | 0 <= i < |log| ensures log[i].0 in Up(c, h) && log[i].0 in Up(c, base) {
      assert NodeOk(c, es, base, log[i].0);
      BaseBelow(c, es, base, log[i].0);
      BelowTrans(c, h, base, log[i].0);
    }
    SumAgree(m, log, Up(c, h), Up(c, base));
  }

  lemma RebasedVotes<V>(m: Monoid<V>, c: Chain, es: Entries<V>, base: Hash, log: Log<V>, n: nat, proof: seq<Hash>)
    requires base in es && VotesOk(m, c, es, log) && |proof| > 0
    requires Weight(m, c, log, Last(proof)) == Weight(m, c, log, base)
    ensures VotesOk(m, c, Rebased(es, base, n, proof), log)
  {
  }

  /** No block under the base is a node or lies in an edge. */
  lemma BelowTheBase<V>(c: Chain, es: Entries<V>, base: Hash, proof: seq<Hash>, i: nat, k: Hash)
    requires EdgesOk(c, es, base) && IsPath(c, base, proof) && i < |proof| && k in es
    ensures k != proof[i] && proof[i] !in es[k].ancestors
  {
    assert NodeOk(c, es, base, base) && NodeOk(c, es, base, k);
    PathAt(c, base, proof, i);
    BaseBelow(c, es, base, k);
    BelowNumber(c, base, k);
    if proof[i] in es[k].ancestors {
      var q := Last(es[k].ancestors);
      PathMember(c, k, es[k].ancestors, proof[i]);
      BaseBelow(c, es, base, q);
      BelowNumber(c, base, q);
      BelowNumber(c, q, proof[i]);
    }
  }

  lemma RebasedEdges<V>(c: Chain, es: Entries<V>, base: Hash, proof: seq<Hash>)
    requires EdgesOk(c, es, base) && IsPath(c, base, proof) && |proof| > 0
    requires forall i, k | 0 <= i < |proof| && k in es :: k != proof[i] && proof[i] !in es[k].ancestors
    requires es[base].number >= |proof|
    ensures EdgesOk(c, Rebased(es, base, es[base].number - |proof|, proof), Last(proof))
  {
    var h := Last(proof);
    var es' := Rebased(es, base, es[base].number - |proof|, proof);
    assert NodeOk(c, es, base, base);
    PathAt(c, base, proof, |proof| - 1);
    assert es'[base].ancestors == proof;
    forall k | k in es' ensures NodeOk(c, es', h, k) {
      if k == base {
        forall i | 0 <= i < |proof| - 1 ensures proof[i] !in es' {
          PathAt(c, base, proof, i);
        }
      } else if k != h {
        assert NodeOk(c, es, base, k) && h !in es[k].ancestors;
      }
    }
  }

  lemma RebasedDescendents<V>(es: Entries<V>, base: Hash, heads: set<Hash>, n: nat, proof: seq<Hash>)
    requires DescendentsOk(es) && HeadsOk(es, heads) && base in es && es[base].ancestors == [] && |proof| > 0
    requires Last(proof) !in es && forall k | k in es :: Last(proof) !in es[k].ancestors
    ensures DescendentsOk(Rebased(es, base, n, proof)) && HeadsOk(Rebased(es, base, n, proof), heads)
  {
    var h := Last(proof);
    var es' := Rebased(es, base, n, proof);
    assert es'[base].ancestors == proof;
    forall k, d | k in es' ensures d in es'[k].descendents <==> IsChild(es', k, d) {
      if k != h {
        assert d in es[k].descendents <==> IsChild(es, k, d);
      }
    }
  }
}
