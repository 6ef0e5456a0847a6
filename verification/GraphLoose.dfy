/** What is left of a vote-graph when the numbers claimed for blocks need not be right: edges are still paths of the
    block tree, children are still above their nodes, and the base still has all votes. */
module GraphLoose {
  import opened Wrappers
  import opened BlockTree
  import opened Votes
  import opened GraphSpec
  import opened GraphUpdates

  /** Every node but the base has an edge down to another node. */
  ghost predicate Linked<V>(c: Chain, es: Entries<V>, base: Hash) {
    && base in es && es[base].ancestors == []
    && (forall k {:trigger LinkOk(c, es, base, k)} | k in es :: LinkOk(c, es, base, k))
  }

  ghost predicate LinkOk<V>(c: Chain, es: Entries<V>, base: Hash, k: Hash)
    requires k in es
  {
    && k in c.number && AtOrBelow(c, base, k) && IsPath(c, k, es[k].ancestors)
    && (k != base ==> |es[k].ancestors| > 0 && Last(es[k].ancestors) in es)
  }

  /** Children are nodes above their parents. */
  ghost predicate Upward<V>(c: Chain, es: Entries<V>) {
    forall k, d {:trigger d in es[k].descendents} | k in es && d in es[k].descendents :: ChildAbove(c, es, k, d)
  }

  ghost predicate ChildAbove<V>(c: Chain, es: Entries<V>, k: Hash, d: Hash) {
    k in c.number && d in es && d in c.number && c.number[k] < c.number[d]
  }

  /** All that holds whatever numbers are claimed. */
  ghost predicate LooseOk<V>(m: Monoid<V>, c: Chain, es: Entries<V>, base: Hash, heads: set<Hash>, log: Log<V>) {
    && Linked(c, es, base) && Upward(c, es) && (forall x | x in heads :: x in es)
    && (forall i | 0 <= i < |log| :: AtOrBelow(c, base, log[i].0))
    && es[base].cumulative == Weight(m, c, log, base)
  }

  /** A faithful graph is one. */
  lemma FaithfulIsLoose<V>(m: Monoid<V>, c: Chain, es: Entries<V>, base: Hash, heads: set<Hash>, log: Log<V>)
    requires EdgesOk(c, es, base) && DescendentsOk(es) && HeadsOk(es, heads) && VotesOk(m, c, es, log)
    ensures LooseOk(m, c, es, base, heads, log)
  {
    forall k | k in es ensures LinkOk(c, es, base, k) {
      assert NodeOk(c, es, base, k);
      BaseBelow(c, es, base, k);
    }
    forall k, d | k in es && d in es[k].descendents ensures ChildAbove(c, es, k, d) {
      assert IsChild(es, k, d);
      assert NodeOk(c, es, base, k) && NodeOk(c, es, base, d);
      PathMember(c, d, es[d].ancestors, k);
    }
    forall i | 0 <= i < |log| ensures AtOrBelow(c, base, log[i].0) {
      BaseBelow(c, es, base, log[i].0);
    }
  }

  // ---- Looking for the nodes that contain a block ----

  /** One head's walk: down through unvisited nodes to the edge that has the number, if any. */
  ghost function Walk<V>(es: Entries<V>, head: Hash, visited: set<Hash>, hash: Hash, number: nat): (set<Hash>,
      Option<Hash>)
    decreases es.Keys - visited
  {
    if head in visited || head !in es then (visited, None)
    else
      match es[head].InDirectAncestry(hash, number)
      case Some(inEdge) => (visited + {head}, if inEdge then Some(head) else None)
      case None =>
        if es[head].AncestorNode().None? then (visited + {head}, None)
        else Walk(es, es[head].AncestorNode().value, visited + {head}, hash, number)
  }

  /** The walks of the first `j` heads: the nodes visited, and those found, in order. */
  ghost function Walks<V>(es: Entries<V>, list: seq<Hash>, j: nat, hash: Hash, number: nat): (set<Hash>, seq<Hash>)
    requires j <= |list|
  {
    if j == 0 then ({}, [])
    else
      var before := Walks(es, list, j - 1, hash, number);
      var one := Walk(es, list[j - 1], before.0, hash, number);
      (one.0, if one.1.Some? then before.1 + [one.1.value] else before.1)
  }

  ghost function Containing<V>(es: Entries<V>, list: seq<Hash>, hash: Hash, number: nat): seq<Hash> {
    Walks(es, list, |list|, hash, number).1
  }

  lemma {:induction false} WalkMeans<V>(es: Entries<V>, head: Hash, visited: set<Hash>, hash: Hash, number: nat)
    ensures var w := Walk(es, head, visited, hash, number);
      && visited <= w.0 && (head in es ==> head in w.0)
      && (w.1.Some? ==> w.1.value in w.0 && w.1.value !in visited && w.1.value in es &&
                        es[w.1.value].InDirectAncestry(hash, number) == Some(true))
    decreases es.Keys - visited
  {
    if head !in visited && head in es && es[head].InDirectAncestry(hash, number).None?
    && es[head].AncestorNode().Some? {
      WalkMeans(es, es[head].AncestorNode().value, visited + {head}, hash, number);
    }
  }

  /** Each node found has the block at the place its claimed number says, and is found once. */
  lemma {:induction false} WalksMean<V>(es: Entries<V>, list: seq<Hash>, j: nat, hash: Hash, number: nat)
    requires j <= |list|
    ensures var w := Walks(es, list, j, hash, number);
      && NoDup(w.1) && (forall d | d in w.1 :: d in w.0 && d in es)
      && (forall d | d in w.1 && d in es :: es[d].InDirectAncestry(hash, number) == Some(true))
  {
    if j > 0 {
      WalksMean(es, list, j - 1, hash, number);
      var before := Walks(es, list, j - 1, hash, number);
      WalkMeans(es, list[j - 1], before.0, hash, number);
    }
  }

  // ---- With right numbers, all of them are found ----

  ghost predicate RightNumber(c: Chain, hash: Hash, number: nat) {
    hash in c.number ==> number == c.number[hash]
  }

  lemma {:induction false} WalkExact<V>(c: Chain, es: Entries<V>, base: Hash, head: Hash, visited: set<Hash>,
                                        hash: Hash, number: nat, start: Hash)
    requires EdgesOk(c, es, base) && head in es && hash !in es && RightNumber(c, hash, number)
    requires Walked(es, visited, number, Some(head)) && AtOrBelow(c, head, start)
    ensures var w := Walk(es, head, visited, hash, number);
      && Walked(es, w.0, number, None)
      && (w.1.Some? ==> Contains(es, w.1.value, hash) && AtOrBelow(c, w.1.value, start))
      && (forall d | d in w.0 - visited && Contains(es, d, hash) :: w.1 == Some(d))
    decreases es.Keys - visited
  {
    if head !in visited {
      AncestorBlockMeaning(c, es, base, head, hash, number);
      assert NodeOk(c, es, base, head);
      if es[head].InDirectAncestry(hash, number).None? && es[head].AncestorNode().Some? {
        var p := es[head].AncestorNode().value;
        PathMember(c, head, es[head].ancestors, p);
        BelowTrans(c, p, head, start);
        WalkExact(c, es, base, p, visited + {head}, hash, number, start);
      }
    }
  }

  /** What the walks of the first heads have found. */
  ghost predicate FoundSoFar<V>(c: Chain, es: Entries<V>, list: seq<Hash>, j: nat, hash: Hash, number: nat)
    requires j <= |list|
  {
    var w := Walks(es, list, j, hash, number);
    && Walked(es, w.0, number, None) && (forall x | x in list[..j] :: x in w.0)
    && (forall d :: d in w.1 <==> d in w.0 && Contains(es, d, hash))
    && (w.1 != [] ==> exists i :: FoundFrom(c, es, list, hash, w.1[0], i))
  }

  lemma {:induction false} WalksExact<V>(c: Chain, es: Entries<V>, base: Hash, list: seq<Hash>, j: nat, hash: Hash,
                                         number: nat)
    requires EdgesOk(c, es, base) && hash !in es && RightNumber(c, hash, number)
    requires j <= |list| && forall x | x in list :: x in es
    ensures FoundSoFar(c, es, list, j, hash, number)
  {
    if j > 0 {
      WalksExact(c, es, base, list, j - 1, hash, number);
      var before := Walks(es, list, j - 1, hash, number);
      WalkMeans(es, list[j - 1], before.0, hash, number);
      WalkExact(c, es, base, list[j - 1], before.0, hash, number, list[j - 1]);
      var one := Walk(es, list[j - 1], before.0, hash, number);
      assert list[..j] == list[..j - 1] + [list[j - 1]];
      if one.1.Some? {
        FirstFound(c, es, base, list, j - 1, before.0, hash, number, before.1, one.1.value);
      }
    }
  }

  /** The first containing node met is the first one that any head leads to. */
  lemma FirstFound<V>(c: Chain, es: Entries<V>, base: Hash, list: seq<Hash>, j: nat, visited: set<Hash>, hash: Hash,
                      number: nat, before: seq<Hash>, head: Hash)
    requires EdgesOk(c, es, base) && hash !in es && RightNumber(c, hash, number)
    requires j < |list| && (forall x | x in list[..j] :: x in visited) && Walked(es, visited, number, None)
    requires forall d :: d in before <==> d in visited && Contains(es, d, hash)
    requires Contains(es, head, hash) && AtOrBelow(c, head, list[j])
    requires before != [] ==> exists i :: FoundFrom(c, es, list, hash, before[0], i)
    ensures exists i :: FoundFrom(c, es, list, hash, (before + [head])[0], i)
  {
    if before == [] {
      assert NodeOk(c, es, base, head);
      PathMember(c, head, es[head].ancestors, hash);
      forall i, e | 0 <= i < j && Contains(es, e, hash) ensures !AtOrBelow(c, e, list[i]) {
        if AtOrBelow(c, e, list[i]) {
          assert list[i] in list[..j];
          WalkReaches(c, es, base, visited, hash, e, list[i]);
        }
      }
      assert FoundFrom(c, es, list, hash, head, j);
      assert (before + [head])[0] == head;
    } else {
      assert (before + [head])[0] == before[0];
    }
  }

  /** Exactly the nodes whose edges have the block are found, the one that the first head leads to first. */
  lemma ContainingExact<V>(c: Chain, es: Entries<V>, base: Hash, heads: set<Hash>, list: seq<Hash>, hash: Hash,
                           number: nat)
    requires EdgesOk(c, es, base) && DescendentsOk(es) && HeadsOk(es, heads) && hash !in es
    requires RightNumber(c, hash, number)
    requires forall x :: x in list <==> x in heads
    ensures var found := Containing(es, list, hash, number);
      && AllContaining(es, found, hash) && (found != [] ==> FirstContaining(c, es, list, hash, found[0]))
  {
    WalksMean(es, list, |list|, hash, number);
    WalksExact(c, es, base, list, |list|, hash, number);
    var w := Walks(es, list, |list|, hash, number);
    forall d | Contains(es, d, hash) ensures d in w.0 {
      assert NodeOk(c, es, base, d);
      PathMember(c, d, es[d].ancestors, hash);
      var x := HeadAbove(c, es, base, heads, d);
      assert x in list[..|list|];
      WalkReaches(c, es, base, w.0, hash, d, x);
    }
  }

  // ---- A new leaf ----

  lemma AppendLoose<V>(m: Monoid<V>, c: Chain, es: Entries<V>, base: Hash, heads: set<Hash>, log: Log<V>, h: Hash,
                       e: Entry<V>)
    requires LooseOk(m, c, es, base, heads, log) && h !in es && h in c.number && AtOrBelow(c, base, h)
    requires IsEdgeTo(c, es, h, e.ancestors) && e.descendents == []
    ensures LooseOk(m, c, Appended(es, h, e, Last(e.ancestors)), base, heads - {Last(e.ancestors)} + {h}, log)
  {
    var p := Last(e.ancestors);
    var es' := Appended(es, h, e, p);
    forall k | k in es' ensures LinkOk(c, es', base, k) {
      if k != h {
        assert LinkOk(c, es, base, k);
      }
    }
    PathMember(c, h, e.ancestors, p);
    forall k, d | k in es' && d in es'[k].descendents ensures ChildAbove(c, es', k, d) {
      if d != h {
        assert d in es[k].descendents && ChildAbove(c, es, k, d);
      }
    }
  }

  // ---- A node inside edges ----

  /** The nodes of `ds` have their edges cut at number `n`, within them. */
  ghost predicate Cuttable<V>(es: Entries<V>, ds: seq<Hash>, n: nat) {
    ds != [] && NoDup(ds) && forall d | d in ds :: d in es && n < es[d].number && es[d].number - n < |es[d].ancestors|
  }

  ghost function CumulativeOf<V>(m: Monoid<V>, es: Entries<V>, ds: seq<Hash>): V
    requires forall d | d in ds :: d in es
  {
    if ds == [] then m.zero
    else
      var d := ds[|ds| - 1];
      assert d in ds && ds == ds[..|ds| - 1] + [d];
      m.add(CumulativeOf(m, es, ds[..|ds| - 1]), es[d].cumulative)
  }

  /** After the first `i` nodes of `ds`: their edges are cut, nothing else is changed, and `e` has the lower part of the
      first edge, those nodes as children and their votes combined. */
  ghost predicate Pieces<V>(m: Monoid<V>, es: Entries<V>, es': Entries<V>, ds: seq<Hash>, i: nat, n: nat, e: Entry<V>)
    requires Cuttable(es, ds, n) && i <= |ds|
  {
    es'.Keys == es.Keys && PiecesBehind(m, es, es', ds, i, n, e, 2)
  }

  ghost predicate PiecesBehind<V>(m: Monoid<V>, es: Entries<V>, es': Entries<V>, ds: seq<Hash>, i: nat, n: nat,
                                  e: Entry<V>, steps: nat)
    requires Cuttable(es, ds, n) && i <= |ds|
  {
    if steps == 0 then ArePieces(m, es, es', ds, i, n, e) else PiecesBehind(m, es, es', ds, i, n, e, steps - 1)
  }

  lemma PiecesMean<V>(m: Monoid<V>, es: Entries<V>, es': Entries<V>, ds: seq<Hash>, i: nat, n: nat, e: Entry<V>)
    requires Cuttable(es, ds, n) && i <= |ds|
    ensures Pieces(m, es, es', ds, i, n, e) <==> ArePieces(m, es, es', ds, i, n, e)
  {
    assert PiecesBehind(m, es, es', ds, i, n, e, 1) == PiecesBehind(m, es, es', ds, i, n, e, 0);
  }

  lemma FirstCut<V>(es: Entries<V>, ds: seq<Hash>, n: nat)
    requires Cuttable(es, ds, n)
    ensures ds[0] in es && n < es[ds[0]].number && es[ds[0]].number - n < |es[ds[0]].ancestors|
  {
    var d := ds[0];
    assert d in ds && d in es;
  }

  ghost predicate ArePieces<V>(m: Monoid<V>, es: Entries<V>, es': Entries<V>, ds: seq<Hash>, i: nat, n: nat,
                               e: Entry<V>)
    requires Cuttable(es, ds, n) && i <= |ds|
  {
    CutUpTo(es, es', ds, i, n) && TakenUpTo(m, es, ds, i, n, e)
  }

  ghost predicate CutUpTo<V>(es: Entries<V>, es': Entries<V>, ds: seq<Hash>, i: nat, n: nat)
    requires i <= |ds|
  {
    && es'.Keys == es.Keys
    && (forall j | 0 <= j < i :: CutAt(es, es', ds[j], n))
    && (forall k | k in es && k !in ds[..i] :: es'[k] == es[k])
  }

  ghost predicate TakenUpTo<V>(m: Monoid<V>, es: Entries<V>, ds: seq<Hash>, i: nat, n: nat, e: Entry<V>)
    requires Cuttable(es, ds, n) && i <= |ds|
  {
    FirstCut(es, ds, n);
    && e.number == n && e.ancestors == es[ds[0]].ancestors[es[ds[0]].number - n..]
    && e.descendents == ds[..i] && e.cumulative == CumulativeOf(m, es, ds[..i])
  }

  lemma CumulativeNext<V>(m: Monoid<V>, es: Entries<V>, ds: seq<Hash>, i: nat)
    requires i < |ds| && forall d | d in ds :: d in es
    ensures CumulativeOf(m, es, ds[..i + 1]) == m.add(CumulativeOf(m, es, ds[..i]), es[ds[i]].cumulative)
    ensures ds[..i + 1] == ds[..i] + [ds[i]]
  {
    assert ds[..i + 1][..i] == ds[..i];
  }

  /** Cutting one more edge leaves the others. */
  lemma CutNext<V>(es: Entries<V>, es': Entries<V>, ds: seq<Hash>, i: nat, n: nat)
    requires Cuttable(es, ds, n) && i < |ds| && CutUpTo(es, es', ds, i, n)
    ensures var d := ds[i];
      && d in es && es'[d] == es[d] && n < es[d].number && es[d].number - n < |es[d].ancestors|
      && CutUpTo(es, es'[d := CutEntry(es, d, n)], ds, i + 1, n)
  {
    var d := ds[i];
    assert d in ds && d in es && d !in ds[..i];
    assert ds[..i + 1] == ds[..i] + [d];
    CutStep(es, es', ds, i, n);
  }

  lemma TakenNext<V>(m: Monoid<V>, es: Entries<V>, ds: seq<Hash>, i: nat, n: nat, e: Entry<V>)
    requires Cuttable(es, ds, n) && i < |ds| && ds[i] in es && TakenUpTo(m, es, ds, i, n, e)
    ensures TakenUpTo(m, es, ds, i + 1, n, WithPiece(m, e, ds[i], es[ds[i]].cumulative))
  {
    CumulativeNext(m, es, ds, i);
  }

  lemma PiecesNext<V>(m: Monoid<V>, es: Entries<V>, es': Entries<V>, ds: seq<Hash>, i: nat, n: nat, e: Entry<V>)
    requires Cuttable(es, ds, n) && i < |ds| && Pieces(m, es, es', ds, i, n, e)
    ensures ds[i] in es' && es'[ds[i]] == es[ds[i]] && ds[i] in es
    ensures n < es[ds[i]].number && es[ds[i]].number - n < |es[ds[i]].ancestors|
    ensures Pieces(m, es, es'[ds[i] := CutEntry(es, ds[i], n)], ds, i + 1, n,
                   WithPiece(m, e, ds[i], es[ds[i]].cumulative))
  {
    PiecesMean(m, es, es', ds, i, n, e);
    CutNext(es, es', ds, i, n);
    TakenNext(m, es, ds, i, n, e);
    PiecesMean(m, es, es'[ds[i] := CutEntry(es, ds[i], n)], ds, i + 1, n, WithPiece(m, e, ds[i], es[ds[i]].cumulative));
  }

  ghost function CutEntry<V>(es: Entries<V>, d: Hash, n: nat): Entry<V>
    requires d in es && n <= es[d].number && es[d].number - n <= |es[d].ancestors|
  {
    es[d].(ancestors := es[d].ancestors[..es[d].number - n])
  }

  ghost function WithPiece<V>(m: Monoid<V>, e: Entry<V>, d: Hash, votes: V): Entry<V> {
    e.(descendents := e.descendents + [d], cumulative := m.add(e.cumulative, votes))
  }

  /** With right numbers, these are the votes at the block. */
  lemma PiecesGathered<V(!new)>(m: Monoid<V>, c: Chain, es: Entries<V>, es': Entries<V>, base: Hash, log: Log<V>,
                                ds: seq<Hash>, h: Hash, e: Entry<V>)
    requires Lawful(m) && EdgesOk(c, es, base) && VotesOk(m, c, es, log) && h !in es && h in c.number
    requires AllContaining(es, ds, h) && Cuttable(es, ds, c.number[h]) && Pieces(m, es, es', ds, |ds|, c.number[h], e)
    ensures Gathered(m, c, log, es, es', ds, |ds|, c.number[h], e)
  {
    PiecesMean(m, es, es', ds, |ds|, c.number[h], e);
    CumulativeMeans(m, c, es, base, log, ds, h, |ds|);
  }

  lemma {:induction false} CumulativeMeans<V(!new)>(m: Monoid<V>, c: Chain, es: Entries<V>, base: Hash, log: Log<V>,
                                                    ds: seq<Hash>, h: Hash, i: nat)
    requires Lawful(m) && EdgesOk(c, es, base) && VotesOk(m, c, es, log) && h !in es && AllContaining(es, ds, h)
    requires i <= |ds| && forall d | d in ds :: d in es
    ensures CumulativeOf(m, es, ds[..i]) == SumIn(m, log, UpAll(c, ds[..i]))
  {
    if i > 0 {
      assert ds[..i][..i - 1] == ds[..i - 1] && ds[..i] == ds[..i - 1] + [ds[i - 1]];
      CumulativeMeans(m, c, es, base, log, ds, h, i - 1);
      NextBranchWeight(m, c, es, base, log, ds, i - 1, h);
    } else {
      SumNone(m, log, UpAll(c, []));
    }
  }

  /** Each of the nodes has the block where its claimed number says. */
  ghost predicate AllMatch<V>(es: Entries<V>, ds: seq<Hash>, h: Hash, n: nat) {
    forall d | d in ds :: d in es && es[d].InDirectAncestry(h, n) == Some(true)
  }

  lemma MatchCuts<V>(c: Chain, es: Entries<V>, base: Hash, h: Hash, n: nat, d: Hash)
    requires Linked(c, es, base) && h !in es && d in es && es[d].InDirectAncestry(h, n) == Some(true)
    ensures n < es[d].number && es[d].number - n < |es[d].ancestors| && es[d].ancestors[es[d].number - n - 1] == h
    ensures d != base && Last(es[d].ancestors) in es
    ensures var cut := es[d].number - n;
      && IsPath(c, d, es[d].ancestors[..cut]) && IsPath(c, h, es[d].ancestors[cut..])
      && Last(es[d].ancestors[cut..]) == Last(es[d].ancestors)
    ensures d in c.number && h in c.number && c.number[h] < c.number[d]
  {
    assert LinkOk(c, es, base, d);
    PathSlice(c, d, es[d].ancestors, es[d].number - n);
    PathMember(c, d, es[d].ancestors, h);
  }

  lemma PieceChildren<V>(m: Monoid<V>, es: Entries<V>, cut: Entries<V>, ds: seq<Hash>, n: nat, e: Entry<V>)
    requires Cuttable(es, ds, n) && Pieces(m, es, cut, ds, |ds|, n, e)
    ensures e.descendents == ds
  {
    PiecesMean(m, es, cut, ds, |ds|, n, e);
    assert ds[..|ds|] == ds;
  }

  /** What making a block a node changes, field by field. */
  lemma BranchFields<V>(m: Monoid<V>, es: Entries<V>, cut: Entries<V>, ds: seq<Hash>, h: Hash, n: nat, e: Entry<V>)
    requires Cuttable(es, ds, n) && Pieces(m, es, cut, ds, |ds|, n, e) && h !in es
    requires |e.ancestors| > 0 && Last(e.ancestors) in es
    ensures var es', p := WithBranch(cut, h, e), Last(e.ancestors);
      && es'.Keys == es.Keys + {h} && es'[h] == e && e.descendents == ds
      && (forall x | x in es :: es'[x].cumulative == es[x].cumulative &&
            es'[x].ancestors == if x in ds then es[x].ancestors[..es[x].number - n] else es[x].ancestors)
      && (forall x | x in es && x != p :: es'[x].descendents == es[x].descendents)
      && es'[p].descendents == Without(es[p].descendents, ds) + [h]
  {
    PieceChildren(m, es, cut, ds, n, e);
    var es', p := WithBranch(cut, h, e), Last(e.ancestors);
    forall x | x in es
      ensures es'[x].cumulative == es[x].cumulative &&
              es'[x].ancestors == if x in ds then es[x].ancestors[..es[x].number - n] else es[x].ancestors
    {
      CutField(m, es, cut, ds, n, e, x);
    }
    forall x | x in es && x != p ensures es'[x].descendents == es[x].descendents {
      CutField(m, es, cut, ds, n, e, x);
    }
    CutField(m, es, cut, ds, n, e, p);
  }

  lemma CutField<V>(m: Monoid<V>, es: Entries<V>, cut: Entries<V>, ds: seq<Hash>, n: nat, e: Entry<V>, x: Hash)
    requires Cuttable(es, ds, n) && Pieces(m, es, cut, ds, |ds|, n, e) && x in es
    ensures cut[x] == if x in ds then es[x].(ancestors := es[x].ancestors[..es[x].number - n]) else es[x]
  {
    PiecesMean(m, es, cut, ds, |ds|, n, e);
    assert ds[..|ds|] == ds;
    if x in ds {
      var j :| 0 <= j < |ds| && ds[j] == x;
      assert CutAt(es, cut, ds[j], n);
    }
  }

  /** Making a block a node keeps what is left of the graph. */
  lemma BranchLoose<V>(m: Monoid<V>, c: Chain, es: Entries<V>, cut: Entries<V>, base: Hash, heads: set<Hash>,
                       log: Log<V>, ds: seq<Hash>, h: Hash, n: nat, e: Entry<V>)
    requires LooseOk(m, c, es, base, heads, log) && h !in es && AtOrBelow(c, base, h)
    requires AllMatch(es, ds, h, n) && Cuttable(es, ds, n) && Pieces(m, es, cut, ds, |ds|, n, e)
    ensures |e.ancestors| > 0 && Last(e.ancestors) in cut
    ensures LooseOk(m, c, WithBranch(cut, h, e), base, heads, log)
  {
    PiecesMean(m, es, cut, ds, |ds|, n, e);
    assert ds[0] in ds;
    MatchCuts(c, es, base, h, n, ds[0]);
    var p := Last(e.ancestors);
    PathMember(c, h, e.ancestors, p);
    BranchFields(m, es, cut, ds, h, n, e);
    var es' := WithBranch(cut, h, e);
    forall k | k in es' ensures LinkOk(c, es', base, k) {
      BranchLink(c, es, es', base, ds, h, n, k);
    }
    forall k, d | k in es' && d in es'[k].descendents ensures ChildAbove(c, es', k, d) {
      BranchAbove(c, es, es', base, ds, h, n, p, k, d);
    }
    if base in ds {
      MatchCuts(c, es, base, h, n, base);
    }
  }

  lemma BranchAbove<V>(c: Chain, es: Entries<V>, es': Entries<V>, base: Hash, ds: seq<Hash>, h: Hash, n: nat, p: Hash,
                       k: Hash, d: Hash)
    requires Linked(c, es, base) && Upward(c, es) && h !in es && AllMatch(es, ds, h, n)
    requires es'.Keys == es.Keys + {h} && k in es' && d in es'[k].descendents && es'[h].descendents == ds
    requires h in c.number && p in es && p in c.number && c.number[p] < c.number[h]
    requires forall x | x in es && x != p :: es'[x].descendents == es[x].descendents
    requires es'[p].descendents == Without(es[p].descendents, ds) + [h]
    ensures ChildAbove(c, es', k, d)
  {
    if k == h {
      MatchCuts(c, es, base, h, n, d);
    } else if d != h {
      assert d in es[k].descendents && ChildAbove(c, es, k, d);
    }
  }

  lemma BranchLink<V>(c: Chain, es: Entries<V>, es': Entries<V>, base: Hash, ds: seq<Hash>, h: Hash, n: nat, k: Hash)
    requires Linked(c, es, base) && h !in es && AtOrBelow(c, base, h) && AllMatch(es, ds, h, n) && Cuttable(es, ds, n)
    requires es'.Keys == es.Keys + {h} && k in es'
    requires ds[0] in es && n < es[ds[0]].number && es[ds[0]].number - n < |es[ds[0]].ancestors|
    requires es'[h].ancestors == es[ds[0]].ancestors[es[ds[0]].number - n..]
    requires forall x | x in es ::
               es'[x].ancestors == if x in ds then es[x].ancestors[..es[x].number - n] else es[x].ancestors
    ensures LinkOk(c, es', base, k)
  {
    if k == h {
      assert ds[0] in ds;
      MatchCuts(c, es, base, h, n, ds[0]);
    } else {
      assert LinkOk(c, es, base, k);
      if k in ds {
        MatchCuts(c, es, base, h, n, k);
      }
    }
  }

  // ---- One more vote ----

  /** `x` is on the walk from `k` down the edges. */
  ghost predicate OnWalk<V>(c: Chain, es: Entries<V>, base: Hash, k: Hash, x: Hash)
    requires Linked(c, es, base) && k in es
    decreases if k in c.number then c.number[k] else 0
  {
    x == k || (es[k].ancestors != [] && (LowerNode(c, es, base, k); OnWalk(c, es, base, Last(es[k].ancestors), x)))
  }

  lemma LowerNode<V>(c: Chain, es: Entries<V>, base: Hash, k: Hash)
    requires Linked(c, es, base) && k in es && es[k].ancestors != []
    ensures var p := Last(es[k].ancestors); p in es && p in c.number && k in c.number && c.number[p] < c.number[k]
  {
    assert LinkOk(c, es, base, k);
    PathMember(c, k, es[k].ancestors, Last(es[k].ancestors));
  }

  /** The walk ends at the base, and only passes lower nodes. */
  lemma {:induction false} WalkEnds<V>(c: Chain, es: Entries<V>, base: Hash, k: Hash, x: Hash)
    requires Linked(c, es, base) && k in es
    ensures OnWalk(c, es, base, k, base)
    ensures OnWalk(c, es, base, k, x) && x != k ==> x in c.number && k in c.number && c.number[x] < c.number[k]
    decreases if k in c.number then c.number[k] else 0
  {
    assert LinkOk(c, es, base, k);
    if es[k].ancestors != [] {
      LowerNode(c, es, base, k);
      WalkEnds(c, es, base, Last(es[k].ancestors), x);
    }
  }

  /** `es'` is `es` with `v` added to the cumulative vote of the nodes on the walk from `h`. */
  ghost predicate VoteWalked<V>(m: Monoid<V>, c: Chain, es: Entries<V>, es': Entries<V>, base: Hash, h: Hash, v: V)
    requires Linked(c, es, base) && h in es
  {
    && es'.Keys == es.Keys
    && (forall x {:trigger es[x]} {:trigger es'[x]} | x in es ::
          es'[x] == if OnWalk(c, es, base, h, x) then es[x].(cumulative := m.add(es[x].cumulative, v)) else es[x])
  }

  /** With right numbers the nodes on the walk are those below. */
  lemma {:induction false} WalkIsBelow<V>(c: Chain, es: Entries<V>, base: Hash, k: Hash, x: Hash)
    requires EdgesOk(c, es, base) && Linked(c, es, base) && k in es && x in es
    ensures OnWalk(c, es, base, k, x) <==> AtOrBelow(c, x, k)
    decreases if k in c.number then c.number[k] else 0
  {
    assert NodeOk(c, es, base, k);
    if x != k {
      if AtOrBelow(c, x, k) {
        NodeBelowParent(c, es, base, x, k);
      }
      if es[k].ancestors != [] {
        LowerNode(c, es, base, k);
        var p := Last(es[k].ancestors);
        WalkIsBelow(c, es, base, p, x);
        PathMember(c, k, es[k].ancestors, p);
        if AtOrBelow(c, x, p) {
          BelowTrans(c, x, p, k);
        }
      }
    }
  }

  lemma WalkedIsAdded<V>(m: Monoid<V>, c: Chain, es: Entries<V>, es': Entries<V>, base: Hash, h: Hash, v: V)
    requires EdgesOk(c, es, base) && Linked(c, es, base) && h in es && VoteWalked(m, c, es, es', base, h, v)
    ensures VoteAdded(m, c, es, es', h, v)
  {
    forall k | k in es ensures es'[k] == if AtOrBelow(c, k, h) then es[k].(cumulative := m.add(es[k].cumulative, v))
                                         else es[k] {
      WalkIsBelow(c, es, base, h, k);
    }
  }

  /** A vote keeps what is left of the graph: the base takes every vote. */
  lemma VoteLoose<V>(m: Monoid<V>, c: Chain, es: Entries<V>, es': Entries<V>, base: Hash, heads: set<Hash>, log: Log<V>,
                     h: Hash, v: V)
    requires LooseOk(m, c, es, base, heads, log) && h in es && VoteWalked(m, c, es, es', base, h, v)
    ensures LooseOk(m, c, es', base, heads, log + [(h, v)])
  {
    forall k | k in es' ensures LinkOk(c, es', base, k) {
      assert LinkOk(c, es, base, k);
    }
    forall k, d | k in es' && d in es'[k].descendents ensures ChildAbove(c, es', k, d) {
      assert d in es[k].descendents && ChildAbove(c, es, k, d);
    }
    WalkEnds(c, es, base, h, base);
    assert LinkOk(c, es, base, h);
    SumAppend(m, log, h, v, Up(c, base));
  }
}
