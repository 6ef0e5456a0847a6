/** The compressed vote-graph, updated in place by votes and base adjustments. */
module VoteGraphs {
  import opened Wrappers
  import opened BlockTree
  import opened Votes
  import opened GraphSpec
  import opened GraphUpdates
  import opened GraphLoose

  /** `order` lists each set of heads once: the iteration order of a hash set, arbitrary but fixed
      while the set is unchanged. */
  ghost predicate IsIteration(order: set<Hash> -> seq<Hash>) {
    forall s :: NoDup(order(s)) && (forall x :: x in order(s) <==> x in s)
  }

  class VoteGraph<V(!new)> {
    var entries: Entries<V>
    var heads: set<Hash>
    var base: Hash
    var baseNumber: nat

    const monoid: Monoid<V>
    const order: set<Hash> -> seq<Hash>
    ghost const chain: Chain
    ghost var log: Log<V>       // every vote inserted so far
    ghost var bases: set<Hash>  // every base so far

    /** The graph is a faithful compression of the votes logged. Callers carry this as a single fact: `Open` gives
        what it stands for and `Close` restores it. */
    ghost predicate Valid() reads this {
      Behind(2)
    }

    ghost predicate Behind(steps: nat) reads this {
      if steps == 0 then Faithful() else Behind(steps - 1)
    }

    ghost predicate Faithful() reads this {
      Structured() && entries.Keys == bases + Voted(log)
    }

    lemma Open()
      requires Valid()
      ensures Faithful()
    {
      assert Behind(1);
      assert Behind(0);
    }

    lemma Close()
      requires Faithful()
      ensures Valid()
    {
      assert Behind(0);
      assert Behind(1);
    }

    /** What holds whatever numbers are claimed for the blocks inserted, carried likewise. */
    ghost predicate Loose() reads this {
      LooseBehind(2)
    }

    ghost predicate LooseBehind(steps: nat) reads this {
      if steps == 0 then Kept() else LooseBehind(steps - 1)
    }

    ghost predicate Kept() reads this {
      Lawful(monoid) && IsIteration(order) && LooseOk(monoid, chain, entries, base, heads, log)
    }

    lemma OpenLoose()
      requires Loose()
      ensures Kept()
    {
      assert LooseBehind(1);
      assert LooseBehind(0);
    }

    lemma CloseLoose()
      requires Kept()
      ensures Loose()
    {
      assert LooseBehind(0);
      assert LooseBehind(1);
    }

    lemma ValidIsLoose()
      requires Valid()
      ensures Loose()
    {
      Open();
      FaithfulIsLoose(monoid, chain, entries, base, heads, log);
      CloseLoose();
    }

    /** An empty graph: the base is its only node. */
    constructor (monoid: Monoid<V>, order: set<Hash> -> seq<Hash>, ghost chain: Chain, baseHash: Hash, baseNumber: nat)
      requires Lawful(monoid) && IsIteration(order)
      requires baseHash in chain.number
      ensures Loose() && (chain.number[baseHash] == baseNumber ==> Valid()) && log == [] && bases == {baseHash}
      ensures base == baseHash && this.baseNumber == baseNumber && entries.Keys == {baseHash}
      ensures this.monoid == monoid && this.order == order && this.chain == chain
    {
      this.monoid := monoid;
      this.order := order;
      this.chain := chain;
      entries := map[baseHash := Entry(baseNumber, [], [], monoid.zero)];
      heads := {baseHash};
      base := baseHash;
      this.baseNumber := baseNumber;
      log := [];
      bases := {baseHash};
      new;
      CloseLoose();
      if chain.number[baseHash] == baseNumber {
        Close();
      }
    }

    /** The nodes found with `hash` in their edges, at the place its claimed number says: none for a node itself. With
        right numbers they are exactly those whose edges have it. */
    method FindContainingNodes(hash: Hash, number: nat) returns (r: Option<seq<Hash>>)
      requires Loose()
      ensures r == if hash in entries then None else Some(Containing(entries, order(heads), hash, number))
      ensures r.Some? ==> NoDup(r.value) && AllMatch(entries, r.value, hash, number)
      ensures r.Some? && Valid() && RightNumber(chain, hash, number) ==>
                && AllContaining(entries, r.value, hash)
                && (r.value != [] ==> FirstContaining(chain, entries, order(heads), hash, r.value[0]))
    {
      OpenLoose();
      if hash in entries {
        return None;
      }
      var containing: seq<Hash> := [];
      var visited: set<Hash> := {};
      var list := order(heads);
      for j := 0 to |list|
        invariant (visited, containing) == Walks(entries, list, j, hash, number)
      {
        var seen, found := WalkDown(list[j], visited, hash, number);
        if found.Some? {
          containing := containing + [found.value];
        }
        visited := seen;
      }
      WalksMean(entries, list, |list|, hash, number);
      if Valid() && RightNumber(chain, hash, number) {
        Open();
        ContainingExact(chain, entries, base, heads, list, hash, number);
      }
      return Some(containing);
    }

    /** One head's walk: down through unvisited nodes to the edge that has the number, if any. */
    method WalkDown(start: Hash, visited: set<Hash>, hash: Hash, number: nat)
      returns (seen: set<Hash>, found: Option<Hash>)
      requires Linked(chain, entries, base) && start in entries
      ensures (seen, found) == Walk(entries, start, visited, hash, number)
    {
      seen := visited;
      found := None;
      var head := start;
      while head !in seen
        invariant head in entries
        invariant Walk(entries, start, visited, hash, number) == Walk(entries, head, seen, hash, number)
        decreases entries.Keys - seen
      {
        assert LinkOk(chain, entries, base, head);
        var activeEntry := entries[head];
        seen := seen + {head};
        match activeEntry.InDirectAncestry(hash, number) {
          case Some(inEdge) =>
            return seen, if inEdge then Some(head) else None;
          case None =>
            if activeEntry.AncestorNode().None? {
              return seen, None;
            }
            head := activeEntry.AncestorNode().value;
        }
      }
    }

    /** A lower base: `proof` leads from the old base's parent to the new base. One that is too long is refused. */
    method AdjustBase(proof: seq<Hash>)
      requires Valid() && (IsPath(chain, base, proof) || |proof| > baseNumber)
      modifies this`entries, this`base, this`baseNumber, this`bases
      ensures Valid()
      ensures proof == [] || |proof| > old(baseNumber) ==> unchanged(this)
      ensures proof != [] && |proof| <= old(baseNumber) ==>
                base == Last(proof) && bases == old(bases) + {base} && baseNumber == old(baseNumber) - |proof|
    {
      if proof == [] {
        return;
      }
      if |proof| > baseNumber {
        return;
      }
      Open();
      RebasedOk(monoid, chain, entries, base, heads, log, proof);
      var newNumber := baseNumber - |proof|;
      entries := Rebased(entries, base, newNumber, proof);
      base := Last(proof);
      baseNumber := newNumber;
      bases := bases + {base};
      Close();
    }

    /** Counts a vote at `hash`, making it a node first if it is none. Whatever number is claimed for it, the base takes
        the vote; with right numbers the graph stays faithful. */
    method Insert(hash: Hash, number: nat, vote: V, c: Chain) returns (r: Result<(), ChainError>)
      requires Loose() && c == chain
      modifies this`entries, this`heads, this`log
      ensures Loose() && (r.Ok? <==> AtOrBelow(chain, base, hash))
      ensures r.Ok? ==> log == old(log) + [(hash, vote)]
      ensures r.Err? ==> entries == old(entries) && heads == old(heads) && log == old(log)
      ensures bases == old(bases) && base == old(base)
      ensures old(Valid()) && RightNumber(chain, hash, number) ==>
                && Valid() && (forall b | InGraph(old(entries), b) :: InGraph(entries, b))
                && (OffEdges(old(entries), hash) ==> ChildrenGrow(old(entries), entries))
    {
      ghost var exact, es := Valid() && RightNumber(chain, hash, number), entries;
      OpenLoose();
      if exact {
        Open();
      }
      r := MakeNode(hash, number, c, exact);
      if r.Err? {
        return;
      }
      AddVote(hash, vote, exact);
      CloseLoose();
      if exact {
        Close();
        forall b | InGraph(es, b) ensures InGraph(entries, b) {
          InGraphGrows(chain, es, entries, base, b);
        }
      }
    }

    /** Makes `hash` a node, unless it does not descend from the base. */
    method MakeNode(hash: Hash, number: nat, c: Chain, ghost exact: bool) returns (r: Result<(), ChainError>)
      requires Kept() && c == chain && (exact ==> Faithful() && RightNumber(chain, hash, number))
      modifies this`entries, this`heads
      ensures r.Ok? <==> AtOrBelow(chain, base, hash)
      ensures r.Err? ==> entries == old(entries) && heads == old(heads)
      ensures r.Ok? ==> Kept() && hash in entries && entries.Keys == old(entries.Keys) + {hash}
      ensures exact && r.Ok? ==> Structured()
      ensures exact && r.Ok? && OffEdges(old(entries), hash) ==> ChildrenGrow(old(entries), entries)
    {
      CloseLoose();
      if exact {
        Close();
      }
      var containing := FindContainingNodes(hash, number);
      if containing.None? {
        assert LinkOk(chain, entries, base, hash);
        return Ok(());
      }
      if containing.value == [] {
        r := Append(hash, number, c, exact);
      } else {
        var d := containing.value[0];
        assert d in containing.value;
        MatchCuts(chain, entries, base, hash, number, d);
        InEdgeAboveBase(chain, entries, base, hash, number, d);
        IntroduceBranch(containing.value, hash, number, exact);
        r := Ok(());
      }
    }

    /** A new leaf for a block that is neither a node nor found in an edge. */
    method Append(hash: Hash, number: nat, c: Chain, ghost exact: bool) returns (r: Result<(), ChainError>)
      requires Kept() && c == chain && hash !in entries
      requires exact ==> Faithful() && RightNumber(chain, hash, number) && forall d :: !Contains(entries, d, hash)
      modifies this`entries, this`heads
      ensures r.Ok? <==> AtOrBelow(chain, base, hash)
      ensures r.Err? ==> entries == old(entries) && heads == old(heads)
      ensures r.Ok? ==> Kept() && entries.Keys == old(entries.Keys) + {hash} && ChildrenGrow(old(entries), entries)
      ensures exact && r.Ok? ==> Structured()
    {
      var path := Ancestry(c, base, hash);
      if path.Err? {
        return Err(path.error);
      }
      var ancestry := path.value + [base];
      var i := 0;
      while ancestry[i] !in entries
        invariant 0 <= i < |ancestry|
        invariant forall j | 0 <= j < i :: ancestry[j] !in entries
        decreases |ancestry| - i
      {
        assert ancestry[|ancestry| - 1] == base;
        i := i + 1;
      }
      var ancestorHash := ancestry[i];
      var edge := ancestry[..i + 1];
      var newEntry := Entry(number, edge, [], monoid.zero);
      EdgeFound(chain, entries, base, hash, ancestry, i);
      if exact {
        AppendEdges(chain, entries, base, hash, newEntry);
        AppendDescendents(chain, entries, base, heads, hash, newEntry);
        AppendVotes(monoid, chain, entries, base, log, hash, newEntry);
      }
      AppendLoose(monoid, chain, entries, base, heads, log, hash, newEntry);
      entries := Appended(entries, hash, newEntry, ancestorHash);
      heads := heads - {ancestorHash} + {hash};
      return Ok(());
    }

    /** Makes `hash` a node inside the edges of `descendents`, which have it where its number says. */
    method IntroduceBranch(descendents: seq<Hash>, hash: Hash, number: nat, ghost exact: bool)
      requires Kept() && hash !in entries && AtOrBelow(chain, base, hash)
      requires descendents != [] && NoDup(descendents) && AllMatch(entries, descendents, hash, number)
      requires exact ==> Structured() && RightNumber(chain, hash, number) && AllContaining(entries, descendents, hash)
      modifies this`entries
      ensures Kept() && entries.Keys == old(entries.Keys) + {hash}
      ensures exact ==> Structured()
    {
      MatchAllCut(chain, entries, base, hash, number, descendents);
      var cut, newEntry := CutEdges(monoid, entries, descendents, number);
      BranchLoose(monoid, chain, entries, cut, base, heads, log, descendents, hash, number, newEntry);
      if exact {
        PiecesGathered(monoid, chain, entries, cut, base, log, descendents, hash, newEntry);
        BranchOk(monoid, chain, entries, cut, base, heads, log, descendents, hash, newEntry);
      }
      entries := WithBranch(cut, hash, newEntry);
    }

    /** Adds the vote to the node and to every node on the way down to the base, and records it. */
    method AddVote(hash: Hash, vote: V, ghost exact: bool)
      requires Kept() && hash in entries
      requires exact ==> Structured() && entries.Keys == bases + Voted(log) + {hash}
      modifies this`entries, this`log
      ensures Kept() && log == old(log) + [(hash, vote)] && ChildrenGrow(old(entries), entries)
      ensures entries.Keys == old(entries.Keys)
      ensures exact ==> Faithful()
    {
      ghost var es := entries;
      AddAlongPath(hash, vote);
      VoteLoose(monoid, chain, es, entries, base, heads, log, hash, vote);
      if exact {
        WalkedIsAdded(monoid, chain, es, entries, base, hash, vote);
        VoteAddedOk(monoid, chain, es, entries, base, heads, log, hash, vote);
        VotedAppend(log, hash, vote);
      }
      log := log + [(hash, vote)];
    }

    method AddAlongPath(hash: Hash, vote: V)
      requires Linked(chain, entries, base) && hash in entries
      modifies this`entries
      ensures VoteWalked(monoid, chain, old(entries), entries, base, hash, vote)
    {
      ghost var es := entries;
      var inspecting := hash;
      var todo := true;
      while todo
        invariant entries.Keys == es.Keys && inspecting in es
        invariant WalkedAbove(monoid, chain, es, entries, base, hash, vote, inspecting, todo)
        decreases todo, if inspecting in chain.number then chain.number[inspecting] else 0
      {
        WalkStep(chain, es, base, inspecting, hash);
        var activeEntry := entries[inspecting];
        entries := entries[inspecting := activeEntry.(cumulative := monoid.add(activeEntry.cumulative, vote))];
        if activeEntry.AncestorNode().None? {
          todo := false;
        } else {
          inspecting := activeEntry.AncestorNode().value;
        }
      }
    }

    /** `Valid` but for the correspondence of nodes with votes. */
    ghost predicate Structured() reads this {
      && Lawful(monoid) && IsIteration(order)
      && EdgesOk(chain, entries, base) && DescendentsOk(entries) && HeadsOk(entries, heads)
      && VotesOk(monoid, chain, entries, log)
      && baseNumber == entries[base].number
    }
  }

  ghost function Voted<V>(log: Log<V>): set<Hash> {
    set i | 0 <= i < |log| :: log[i].0
  }

  lemma StepsDown<V>(c: Chain, es: Entries<V>, base: Hash, k: Hash, x: Hash)
    requires EdgesOk(c, es, base) && k in es && es[k].ancestors != [] && AtOrBelow(c, k, x)
    ensures Last(es[k].ancestors) in es && AtOrBelow(c, Last(es[k].ancestors), x)
  {
    assert NodeOk(c, es, base, k);
    PathMember(c, k, es[k].ancestors, Last(es[k].ancestors));
    BelowTrans(c, Last(es[k].ancestors), k, x);
  }

  lemma VotedAppend<V>(log: Log<V>, h: Hash, v: V)
    ensures Voted(log + [(h, v)]) == Voted(log) + {h}
  {
    var log' := log + [(h, v)];
    forall x | x in Voted(log) ensures x in Voted(log') {
      var i :| 0 <= i < |log| && log[i].0 == x;
      assert log'[i].0 == x;
    }
    assert log'[|log|].0 == h;
  }

  /** One step of the vote's walk: which nodes on it are still to come. */
  lemma WalkStep<V>(c: Chain, es: Entries<V>, base: Hash, k: Hash, hash: Hash)
    requires Linked(c, es, base) && k in es
    ensures k in c.number
    ensures es[k].ancestors == [] ==> forall x :: OnWalk(c, es, base, k, x) <==> x == k
    ensures es[k].ancestors != [] ==>
              var p := Last(es[k].ancestors);
              && p in es && p in c.number && c.number[p] < c.number[k] && !OnWalk(c, es, base, p, k)
              && forall x :: OnWalk(c, es, base, k, x) <==> x == k || OnWalk(c, es, base, p, x)
  {
    assert LinkOk(c, es, base, k);
    if es[k].ancestors != [] {
      LowerNode(c, es, base, k);
      WalkEnds(c, es, base, Last(es[k].ancestors), k);
    }
  }

  /** `VoteWalked`, except that while `todo` the nodes on the walk from `k` are still unchanged. */
  ghost predicate WalkedAbove<V>(m: Monoid<V>, c: Chain, es: Entries<V>, es': Entries<V>, base: Hash, h: Hash, v: V,
                                 k: Hash, todo: bool)
    requires es'.Keys == es.Keys && Linked(c, es, base) && h in es && k in es
  {
    && (todo ==> forall x | x in es && OnWalk(c, es, base, k, x) :: OnWalk(c, es, base, h, x))
    && (forall x {:trigger es[x]} {:trigger es'[x]} | x in es ::
          es'[x] == if OnWalk(c, es, base, h, x) && !(todo && OnWalk(c, es, base, k, x))
                    then es[x].(cumulative := m.add(es[x].cumulative, v)) else es[x])
  }

  lemma EdgeFound<V>(c: Chain, es: Entries<V>, base: Hash, hash: Hash, ancestry: seq<Hash>, i: nat)
    requires IsPath(c, hash, ancestry) && i < |ancestry| && ancestry[i] in es
    requires forall j | 0 <= j < i :: ancestry[j] !in es
    ensures IsEdgeTo(c, es, hash, ancestry[..i + 1]) && Last(ancestry[..i + 1]) == ancestry[i] && hash in c.number
  {
    PathSlice(c, hash, ancestry, i + 1);
    assert StepDown(c, hash, ancestry, 0);
  }

  lemma MatchAllCut<V>(c: Chain, es: Entries<V>, base: Hash, hash: Hash, number: nat, ds: seq<Hash>)
    requires Linked(c, es, base) && hash !in es && ds != [] && NoDup(ds) && AllMatch(es, ds, hash, number)
    ensures Cuttable(es, ds, number) && hash in c.number
  {
    forall d | d in ds ensures d in es && number < es[d].number && es[d].number - number < |es[d].ancestors| {
      MatchCuts(c, es, base, hash, number, d);
    }
    assert ds[0] in ds;
    MatchCuts(c, es, base, hash, number, ds[0]);
  }

  lemma InEdgeAboveBase<V>(c: Chain, es: Entries<V>, base: Hash, hash: Hash, number: nat, d: Hash)
    requires Linked(c, es, base) && hash !in es && d in es && es[d].InDirectAncestry(hash, number) == Some(true)
    ensures AtOrBelow(c, base, hash)
  {
    MatchCuts(c, es, base, hash, number, d);
    assert LinkOk(c, es, base, d);
    var p := Last(es[d].ancestors);
    assert LinkOk(c, es, base, p);
    PathMember(c, d, es[d].ancestors, hash);
    BelowTrans(c, base, p, hash);
  }

  /** Cuts each edge at the number given and gathers the node that takes over the lower part. */
  method CutEdges<V(!new)>(m: Monoid<V>, entries: Entries<V>, descendents: seq<Hash>, number: nat)
    returns (cut: Entries<V>, newEntry: Entry<V>)
    requires Cuttable(entries, descendents, number)
    ensures Pieces(m, entries, cut, descendents, |descendents|, number, newEntry)
  {
    var top := descendents[0];
    assert top in descendents && top in entries && descendents[..0] == [];
    var first := entries[top];
    cut := entries;
    newEntry := Entry(number, first.ancestors[first.number - number..], [], m.zero);
    PiecesMean(m, entries, cut, descendents, 0, number, newEntry);
    for i := 0 to |descendents|
      invariant Pieces(m, entries, cut, descendents, i, number, newEntry)
    {
      PiecesNext(m, entries, cut, descendents, i, number, newEntry);
      var d := descendents[i];
      var e := cut[d];
      cut := cut[d := e.(ancestors := e.ancestors[..e.number - number])];
      newEntry := newEntry.(descendents := newEntry.descendents + [d],
                            cumulative := m.add(newEntry.cumulative, e.cumulative));
    }
  }
}
