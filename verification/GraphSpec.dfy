/** What a compressed vote-graph must be, stated against the plain block tree, and the
    facts about nodes and edges that every operation and search relies on. */
module GraphSpec {
  import opened Wrappers
  import opened BlockTree
  import opened Votes

  /** A vote-node. `ancestors` is its edge: its parent first, the next lower vote-node last. */
  datatype Entry<V> = Entry(number: nat, ancestors: seq<Hash>, descendents: seq<Hash>, cumulative: V) {

    function AncestorBlock(n: nat): Option<Hash> {
      if n >= number then None
      else if number - n - 1 < |ancestors| then Some(ancestors[number - n - 1]) else None
    }

    function InDirectAncestry(h: Hash, n: nat): Option<bool> {
      match AncestorBlock(n)
      case None => None
      case Some(x) => Some(x == h)
    }

    function AncestorNode(): Option<Hash> {
      if ancestors == [] then None else Some(Last(ancestors))
    }
  }

  type Entries<V> = map<Hash, Entry<V>>

  /** `k` sits at its own number, and its edge is the chain path to the nearest lower vote-node. */
  ghost predicate NodeOk<V>(c: Chain, es: Entries<V>, base: Hash, k: Hash)
    requires k in es
  {
    && k in c.number && es[k].number == c.number[k]
    && IsPath(c, k, es[k].ancestors)
    && (k != base ==> |es[k].ancestors| > 0 && Last(es[k].ancestors) in es)
    && (forall i | 0 <= i < |es[k].ancestors| - 1 :: es[k].ancestors[i] !in es)
  }

  ghost predicate EdgesOk<V>(c: Chain, es: Entries<V>, base: Hash) {
    && base in es && es[base].ancestors == []
    && (forall k {:trigger NodeOk(c, es, base, k)} | k in es :: NodeOk(c, es, base, k))
  }

  ghost predicate IsChild<V>(es: Entries<V>, k: Hash, d: Hash) {
    d in es && |es[d].ancestors| > 0 && Last(es[d].ancestors) == k
  }

  /** `descendents` is the inverse of the edges. */
  ghost predicate DescendentsOk<V>(es: Entries<V>) {
    && (forall k {:trigger NoDup(es[k].descendents)} | k in es :: NoDup(es[k].descendents))
    && (forall k, d {:trigger d in es[k].descendents} {:trigger IsChild(es, k, d)} | k in es ::
          d in es[k].descendents <==> IsChild(es, k, d))
  }

  ghost predicate HeadsOk<V>(es: Entries<V>, heads: set<Hash>) {
    forall k :: k in heads <==> k in es && es[k].descendents == []
  }

  /** Every cumulative vote is the plain weight of its block. */
  ghost predicate VotesOk<V>(m: Monoid<V>, c: Chain, es: Entries<V>, log: Log<V>) {
    && (forall i | 0 <= i < |log| :: log[i].0 in es)
    && (forall k {:trigger es[k].cumulative} {:trigger Weight(m, c, log, k)} | k in es ::
          es[k].cumulative == Weight(m, c, log, k))
  }

  /** The block `h` lies strictly inside the edge of vote-node `d` (when `h` is no node itself). */
  ghost predicate Contains<V>(es: Entries<V>, d: Hash, h: Hash) {
    d in es && h in es[d].ancestors
  }

  /** A block is in the graph when it is a node or lies in an edge. */
  ghost predicate InGraph<V>(es: Entries<V>, h: Hash) {
    h in es || exists d :: Contains(es, d, h)
  }

  /** A block that lies strictly inside no edge. */
  ghost predicate OffEdges<V>(es: Entries<V>, h: Hash) {
    h in es || forall d :: !Contains(es, d, h)
  }

  /** Nodes stay, and new children come last. */
  ghost predicate ChildrenGrow<V>(es: Entries<V>, es': Entries<V>) {
    forall k | k in es :: k in es' && es[k].descendents <= es'[k].descendents
  }

  lemma {:induction false} BaseBelow<V>(c: Chain, es: Entries<V>, base: Hash, k: Hash)
    requires EdgesOk(c, es, base) && k in es
    ensures AtOrBelow(c, base, k)
    decreases es[k].number
  {
    assert NodeOk(c, es, base, k);
    if k != base {
      var p := Last(es[k].ancestors);
      PathMember(c, k, es[k].ancestors, p);
      assert NodeOk(c, es, base, p);
      BaseBelow(c, es, base, p);
      BelowTrans(c, base, p, k);
    }
  }

  /** Looking a block up by number finds exactly the containing edge. */
  lemma AncestorBlockMeaning<V>(c: Chain, es: Entries<V>, base: Hash, d: Hash, h: Hash, n: nat)
    requires EdgesOk(c, es, base) && d in es && (h in c.number ==> n == c.number[h])
    ensures es[d].InDirectAncestry(h, n) == Some(true) <==> Contains(es, d, h)
  {
    assert NodeOk(c, es, base, d);
    if Contains(es, d, h) {
      PathMember(c, d, es[d].ancestors, h);
    }
  }

  /** A node strictly below another is at or below that node's parent vote-node. */
  lemma NodeBelowParent<V>(c: Chain, es: Entries<V>, base: Hash, k: Hash, x: Hash)
    requires EdgesOk(c, es, base) && k in es && x in es && AtOrBelow(c, k, x) && k != x
    ensures x != base && |es[x].ancestors| > 0 && AtOrBelow(c, k, Last(es[x].ancestors))
  {
    assert NodeOk(c, es, base, x) && NodeOk(c, es, base, k);
    BelowNumber(c, k, x);
    if x == base {
      BaseBelow(c, es, base, k);
      BelowNumber(c, base, k);
    } else {
      var anc := es[x].ancestors;
      var p := Last(anc);
      PathMember(c, x, anc, p);
      BelowLinear(c, k, p, x);
      if c.number[k] > c.number[p] {
        PathCovers(c, x, anc, k);
      }
    }
  }

  /** A non-node block below a node and above the base lies in the edge of a node on the way. */
  lemma {:induction false} ContainingNode<V>(c: Chain, es: Entries<V>, base: Hash, h: Hash, x: Hash) returns (d: Hash)
    requires EdgesOk(c, es, base) && x in es && h !in es && AtOrBelow(c, h, x) && AtOrBelow(c, base, h)
    ensures Contains(es, d, h) && AtOrBelow(c, d, x)
    decreases c.number[x]
  {
    assert NodeOk(c, es, base, x);
    BelowNumber(c, h, x);
    if x == base {
      BelowNumber(c, base, h);
    }
    var anc := es[x].ancestors;
    var p := Last(anc);
    PathMember(c, x, anc, p);
    if c.number[h] >= c.number[p] {
      PathCovers(c, x, anc, h);
      d := x;
    } else {
      BelowLinear(c, h, p, x);
      d := ContainingNode(c, es, base, h, p);
      BelowTrans(c, d, p, x);
    }
  }

  /** Two nodes whose edges share a non-node block are incomparable. */
  lemma ContainingIncomparable<V>(c: Chain, es: Entries<V>, base: Hash, h: Hash, d: Hash, e: Hash)
    requires EdgesOk(c, es, base) && h !in es && Contains(es, d, h) && Contains(es, e, h) && d != e
    ensures !Comparable(c, d, e)
  {
    if AtOrBelow(c, d, e) {
      ContainingNotBelow(c, es, base, h, d, e);
    } else if AtOrBelow(c, e, d) {
      ContainingNotBelow(c, es, base, h, e, d);
    }
  }

  lemma ContainingNotBelow<V>(c: Chain, es: Entries<V>, base: Hash, h: Hash, d: Hash, e: Hash)
    requires EdgesOk(c, es, base) && h !in es && Contains(es, d, h) && Contains(es, e, h) && d != e
    ensures !AtOrBelow(c, d, e)
  {
    if AtOrBelow(c, d, e) {
      NodeBelowParent(c, es, base, d, e);
      assert NodeOk(c, es, base, d) && NodeOk(c, es, base, e);
      PathMember(c, e, es[e].ancestors, h);
      PathMember(c, d, es[d].ancestors, h);
      BelowNumber(c, Last(es[e].ancestors), h);
      BelowNumber(c, d, Last(es[e].ancestors));
    }
  }

  /** Nodes whose edges share a non-node block have the same parent vote-node. */
  lemma ContainingSameParent<V>(c: Chain, es: Entries<V>, base: Hash, h: Hash, d: Hash, e: Hash)
    requires EdgesOk(c, es, base) && h !in es && Contains(es, d, h) && Contains(es, e, h)
    ensures d != base && e != base && Last(es[d].ancestors) == Last(es[e].ancestors)
  {
    assert NodeOk(c, es, base, d) && NodeOk(c, es, base, e);
    var p, q := Last(es[d].ancestors), Last(es[e].ancestors);
    PathMember(c, d, es[d].ancestors, h);
    PathMember(c, e, es[e].ancestors, h);
    BelowTrans(c, p, h, e);
    BelowTrans(c, q, h, d);
    BelowNumber(c, q, h);
    BelowNumber(c, p, h);
    NodeBelowParent(c, es, base, p, e);
    NodeBelowParent(c, es, base, q, d);
    BelowNumber(c, p, q);
    BelowNumber(c, q, p);
  }

  /** Two different children of one node are incomparable. */
  lemma ChildrenIncomparable<V>(c: Chain, es: Entries<V>, base: Hash, k: Hash, d: Hash, e: Hash)
    requires EdgesOk(c, es, base) && IsChild(es, k, d) && IsChild(es, k, e) && d != e
    ensures !Comparable(c, d, e)
  {
    assert NodeOk(c, es, base, d) && NodeOk(c, es, base, e);
    PathMember(c, d, es[d].ancestors, k);
    PathMember(c, e, es[e].ancestors, k);
    if AtOrBelow(c, d, e) {
      NodeBelowParent(c, es, base, d, e);
      BelowNumber(c, d, k);
    } else if AtOrBelow(c, e, d) {
      NodeBelowParent(c, es, base, e, d);
      BelowNumber(c, e, k);
    }
  }

  ghost function HigherNodes<V>(es: Entries<V>, n: nat): set<Hash> {
    set y | y in es && es[y].number > n
  }

  /** Every node has a head above it. */
  lemma {:induction false} HeadAbove<V>(c: Chain, es: Entries<V>, base: Hash, heads: set<Hash>, k: Hash)
    returns (x: Hash)
    requires EdgesOk(c, es, base) && DescendentsOk(es) && HeadsOk(es, heads) && k in es
    ensures x in heads && x in es && AtOrBelow(c, k, x)
    decreases HigherNodes(es, es[k].number)
  {
    if es[k].descendents == [] {
      x := k;
    } else {
      var d := es[k].descendents[0];
      assert IsChild(es, k, d);
      assert NodeOk(c, es, base, d) && NodeOk(c, es, base, k);
      PathMember(c, d, es[d].ancestors, k);
      assert d in HigherNodes(es, es[k].number) && d !in HigherNodes(es, es[d].number);
      assert HigherNodes(es, es[d].number) < HigherNodes(es, es[k].number);
      x := HeadAbove(c, es, base, heads, d);
      BelowTrans(c, k, d, x);
    }
  }

  /** The votes above a non-node block are those above the nodes whose edges contain it. */
  lemma WeightOfContained<V(!new)>(m: Monoid<V>, c: Chain, es: Entries<V>, base: Hash, log: Log<V>, h: Hash,
                                   ds: seq<Hash>)
    requires EdgesOk(c, es, base) && VotesOk(m, c, es, log) && h !in es && AtOrBelow(c, base, h)
    requires forall d | Contains(es, d, h) :: d in ds
    requires forall d | d in ds :: Contains(es, d, h)
    ensures Weight(m, c, log, h) == SumIn(m, log, UpAll(c, ds))
  {
    forall i | 0 <= i < |log| ensures log[i].0 in Up(c, h) <==> log[i].0 in UpAll(c, ds) {
      var x := log[i].0;
      assert NodeOk(c, es, base, x);
      if AtOrBelow(c, h, x) {
        var d := ContainingNode(c, es, base, h, x);
        assert d in ds;
      }
      if x in UpAll(c, ds) {
        var d :| d in ds && AtOrBelow(c, d, x);
        assert NodeOk(c, es, base, d);
        PathMember(c, d, es[d].ancestors, h);
        BelowTrans(c, h, d, x);
      }
    }
    SumAgree(m, log, Up(c, h), UpAll(c, ds));
  }

  /** The node that a walk over `order`, from each head downwards, meets first among those containing `h`. */
  ghost predicate FirstContaining<V>(c: Chain, es: Entries<V>, order: seq<Hash>, h: Hash, d: Hash) {
    Contains(es, d, h) && exists j :: FoundFrom(c, es, order, h, d, j)
  }

  ghost predicate FoundFrom<V>(c: Chain, es: Entries<V>, order: seq<Hash>, h: Hash, d: Hash, j: int) {
    && 0 <= j < |order| && AtOrBelow(c, d, order[j])
    && (forall i, e | 0 <= i < j && Contains(es, e, h) :: !AtOrBelow(c, e, order[i]))
  }

  lemma FirstContainingUnique<V>(c: Chain, es: Entries<V>, base: Hash, order: seq<Hash>, h: Hash, d: Hash, e: Hash)
    requires EdgesOk(c, es, base) && h !in es && (forall x | x in order :: x in es)
    requires FirstContaining(c, es, order, h, d) && FirstContaining(c, es, order, h, e)
    ensures d == e
  {
    var i :| FoundFrom(c, es, order, h, d, i);
    var j :| FoundFrom(c, es, order, h, e, j);
    assert i == j;
    assert NodeOk(c, es, base, order[i]);
    BelowLinear(c, d, e, order[i]);
    BelowLinear(c, e, d, order[i]);
    if d != e {
      ContainingIncomparable(c, es, base, h, d, e);
    }
  }

  /** A set of nodes closed under the downward walk for number `n`, except for a step to `next`. */
  ghost predicate Walked<V>(es: Entries<V>, visited: set<Hash>, n: nat, next: Option<Hash>) {
    forall v | v in visited ::
      v in es &&
      (es[v].AncestorBlock(n).None? && es[v].ancestors != [] ==>
         Last(es[v].ancestors) in visited || next == Some(Last(es[v].ancestors)))
  }

  lemma {:induction false} WalkReaches<V>(c: Chain, es: Entries<V>, base: Hash, visited: set<Hash>, h: Hash, d: Hash,
                                          v: Hash)
    requires EdgesOk(c, es, base) && h !in es && h in c.number && Walked(es, visited, c.number[h], None)
    requires Contains(es, d, h) && v in visited && AtOrBelow(c, d, v)
    ensures d in visited
    decreases es[v].number
  {
    if d != v {
      NodeBelowParent(c, es, base, d, v);
      assert NodeOk(c, es, base, d) && NodeOk(c, es, base, v);
      var p := Last(es[v].ancestors);
      PathMember(c, v, es[v].ancestors, p);
      PathMember(c, d, es[d].ancestors, h);
      BelowNumber(c, d, p);
      assert NodeOk(c, es, base, p);
      assert es[v].AncestorBlock(c.number[h]).None?;
      WalkReaches(c, es, base, visited, h, d, p);
    }
  }

  lemma NodeAbove<V>(c: Chain, es: Entries<V>, base: Hash, y: Hash) returns (x: Hash)
    requires EdgesOk(c, es, base) && InGraph(es, y)
    ensures x in es && AtOrBelow(c, y, x) && x in c.number
  {
    if y in es {
      x := y;
    } else {
      x :| Contains(es, x, y);
      assert NodeOk(c, es, base, x);
      PathMember(c, x, es[x].ancestors, y);
    }
    assert NodeOk(c, es, base, x);
  }

  lemma InGraphMeans<V>(c: Chain, es: Entries<V>, base: Hash, b: Hash)
    requires EdgesOk(c, es, base)
    ensures InGraph(es, b) <==> AtOrBelow(c, base, b) && exists x | x in es :: AtOrBelow(c, b, x)
  {
    if InGraph(es, b) {
      var x := NodeAbove(c, es, base, b);
      if b in es {
        BaseBelow(c, es, base, b);
      } else {
        var d :| Contains(es, d, b);
        assert NodeOk(c, es, base, d);
        PathMember(c, d, es[d].ancestors, b);
        BaseBelow(c, es, base, Last(es[d].ancestors));
        BelowTrans(c, base, Last(es[d].ancestors), b);
      }
    } else if AtOrBelow(c, base, b) && exists x | x in es :: AtOrBelow(c, b, x) {
      var x :| x in es && AtOrBelow(c, b, x);
      var d := ContainingNode(c, es, base, b, x);
    }
  }

  /** More nodes on the same base keep every block in the graph. */
  lemma InGraphGrows<V>(c: Chain, es: Entries<V>, es': Entries<V>, base: Hash, b: Hash)
    requires EdgesOk(c, es, base) && EdgesOk(c, es', base) && es.Keys <= es'.Keys && InGraph(es, b)
    ensures InGraph(es', b)
  {
    InGraphMeans(c, es, base, b);
    InGraphMeans(c, es', base, b);
    var x :| x in es && AtOrBelow(c, b, x);
    assert x in es';
  }
}
