/** Justifications: a commit with the headers that connect its precommits to its target. */
module Justifications {
  import opened Wrappers
  import opened BlockTree
  import opened Voters
  import opened Tracker
  import opened VoteGraphs
  import opened RoundState
  import opened Commits

  datatype Header = Header(hash: Hash, parent: Hash, number: nat)

  datatype Justification = Justification(round: nat, commit: Commit, ancestries: seq<Header>)

  datatype BadJustification = InvalidPrecommits | InvalidCommit | InvalidSignature | InvalidAncestry | UnusedHeaders

  /** `h` is above the target and at or below the block `t` of a precommit. */
  ghost predicate OnPath(c: Chain, target: Hash, t: Hash, h: Hash) {
    AtOrBelow(c, target, h) && h != target && AtOrBelow(c, h, t)
  }

  /** `h` is on the path of one of the first `n` precommits. */
  ghost predicate OnPathOf(c: Chain, commit: Commit, n: nat, h: Hash)
    requires n <= |commit.precommits|
  {
    exists i :: 0 <= i < n && OnPath(c, commit.targetHash, commit.precommits[i].precommit.targetHash, h)
  }

  ghost predicate OnSomePath(c: Chain, commit: Commit, h: Hash) {
    OnPathOf(c, commit, |commit.precommits|, h)
  }

  /** The header links a block of the tree to its parent, as its hash says; the number in it is only a claim. */
  ghost predicate HeaderOf(c: Chain, header: Header) {
    header.hash in c.parent && c.parent[header.hash] == header.parent
  }

  ghost predicate HeadersOf(c: Chain, headers: seq<Header>) {
    forall i | 0 <= i < |headers| :: HeaderOf(c, headers[i])
  }

  function Hashes(headers: seq<Header>): set<Hash> {
    set i | 0 <= i < |headers| :: headers[i].hash
  }

  ghost predicate DistinctHashes(headers: seq<Header>) {
    forall i, j | 0 <= i < j < |headers| :: headers[i].hash != headers[j].hash
  }

  /** Exactly the headers on the paths from the precommits down to the target. */
  ghost predicate ExactHeaders(c: Chain, j: Justification) {
    forall h :: h in Hashes(j.ancestries) <==> OnSomePath(c, j.commit, h)
  }

  // ---- The producer ----

  /** What has been collected: the headers of `visited`, each once. */
  ghost predicate Collects(c: Chain, visited: set<Hash>, headers: seq<Header>) {
    HeadersOf(c, headers) && DistinctHashes(headers) && Hashes(headers) == visited
  }

  lemma CollectsMore(c: Chain, visited: set<Hash>, headers: seq<Header>, header: Header)
    requires Collects(c, visited, headers) && HeaderOf(c, header) && header.hash !in visited
    ensures Collects(c, visited + {header.hash}, headers + [header])
  {
    var more := headers + [header];
    forall h ensures h in Hashes(more) <==> h in visited + {header.hash} {
      if h in visited {
        var i :| 0 <= i < |headers| && headers[i].hash == h;
        assert more[i].hash == h;
      }
      if h == header.hash {
        assert more[|headers|].hash == h;
      }
    }
    forall i | 0 <= i < |headers| ensures headers[i].hash in visited {
    }
  }

  /** The block is at or above the target, and no block on its path is numbered at or below what the commit claims for
      the target. */
  ghost predicate Reachable(c: Chain, commit: Commit, block: Hash)
    requires commit.targetHash in c.number
  {
    && AtOrBelow(c, commit.targetHash, block)
    && (block == commit.targetHash || commit.targetNumber <= c.number[commit.targetHash])
  }

  /** Walks from a precommit's block down to the commit's target, collecting the headers passed for the first time. */
  method CollectPath(c: Chain, commit: Commit, block: Hash, before: set<Hash>, headers: seq<Header>)
    returns (ok: bool, visited: set<Hash>, ancestries: seq<Header>)
    requires commit.targetHash in c.number && Collects(c, before, headers)
    ensures ok <==> Reachable(c, commit, block)
    ensures ok ==> Collects(c, visited, ancestries) && forall h :: h in visited <==>
              h in before || OnPath(c, commit.targetHash, block, h)
  {
    visited, ancestries := before, headers;
    var current := block;
    NoPath(c, block);
    while current != commit.targetHash
      invariant AtOrBelow(c, current, block) && Collects(c, visited, ancestries)
      invariant AtOrBelow(c, commit.targetHash, block) <==> AtOrBelow(c, commit.targetHash, current)
      invariant current != block ==> current in c.number && commit.targetNumber <= c.number[current]
      invariant forall h :: h in visited <==> h in before || OnPath(c, current, block, h)
      decreases if current in c.number then c.number[current] else 0
    {
      // A block without a known parent cannot lead to the target: looking its header or its parent's up fails.
      if current !in c.parent {
        return false, visited, ancestries;
      }
      if c.number[current] <= commit.targetNumber {
        TooLow(c, commit, current, block);
        return false, visited, ancestries;
      }
      var parent := c.parent[current];
      var header := Header(current, parent, c.number[current]);
      PathStep(c, current, block);
      if current !in visited {
        CollectsMore(c, visited, ancestries, header);
        ancestries := ancestries + [header];
        visited := visited + {current};
      }
      current := parent;
    }
    ok := true;
  }

  lemma NoPath(c: Chain, block: Hash)
    ensures forall h :: !OnPath(c, block, block, h)
  {
    forall h ensures !OnPath(c, block, block, h) {
      if h in c.number && AtOrBelow(c, block, h) && AtOrBelow(c, h, block) {
        BelowNumber(c, block, h);
        BelowNumber(c, h, block);
      }
    }
  }

  lemma TooLow(c: Chain, commit: Commit, current: Hash, block: Hash)
    requires commit.targetHash in c.number && current in c.number && current != commit.targetHash
    requires c.number[current] <= commit.targetNumber && AtOrBelow(c, current, block)
    requires AtOrBelow(c, commit.targetHash, block) ==> AtOrBelow(c, commit.targetHash, current)
    ensures !Reachable(c, commit, block)
  {
    if AtOrBelow(c, commit.targetHash, current) {
      BelowNumber(c, commit.targetHash, current);
      if block == commit.targetHash {
        BelowNumber(c, current, block);
      }
    }
  }

  /** One step down adds one block to the path. */
  lemma PathStep(c: Chain, current: Hash, block: Hash)
    requires current in c.parent && AtOrBelow(c, current, block)
    ensures AtOrBelow(c, c.parent[current], block)
    ensures forall h :: OnPath(c, c.parent[current], block, h) <==> h == current || OnPath(c, current, block, h)
  {
    var parent := c.parent[current];
    assert AtOrBelow(c, parent, current);
    BelowTrans(c, parent, current, block);
    AboveKnown(c, current, block);
    forall h ensures OnPath(c, parent, block, h) <==> h == current || OnPath(c, current, block, h) {
      if OnPath(c, current, block, h) {
        BelowTrans(c, parent, current, h);
        AboveKnown(c, current, h);
        BelowNumber(c, current, h);
      }
      if OnPath(c, parent, block, h) {
        AboveKnown(c, parent, h);
        BelowNumber(c, parent, h);
        BelowLinear(c, current, h, block);
      }
    }
  }

  /** The justification of a commit: refused exactly when some precommit is not at or above the target, or above it
      while too high a number is claimed for the target; otherwise with exactly the headers on the precommits' paths,
      each once. */
  method FromCommit(c: Chain, round: nat, commit: Commit) returns (r: Result<Justification, BadJustification>)
    requires commit.targetHash in c.number
    ensures r.Ok? <==> forall i | 0 <= i < |commit.precommits| ::
              Reachable(c, commit, commit.precommits[i].precommit.targetHash)
    ensures r.Ok? ==> r.value.round == round && r.value.commit == commit
    ensures r.Ok? ==> HeadersOf(c, r.value.ancestries) && DistinctHashes(r.value.ancestries) && ExactHeaders(c, r.value)
  {
    var visited: set<Hash> := {};
    var ancestries: seq<Header> := [];
    for n := 0 to |commit.precommits|
      invariant forall i | 0 <= i < n :: Reachable(c, commit, commit.precommits[i].precommit.targetHash)
      invariant Collects(c, visited, ancestries)
      invariant forall h :: h in visited <==> OnPathOf(c, commit, n, h)
    {
      var ok;
      ok, visited, ancestries := CollectPath(c, commit, commit.precommits[n].precommit.targetHash, visited, ancestries);
      if !ok {
        return Err(InvalidPrecommits);
      }
      OnPathNext(c, commit, n);
    }
    return Ok(Justification(round, commit, ancestries));
  }

  lemma OnPathNext(c: Chain, commit: Commit, n: nat)
    requires n < |commit.precommits|
    ensures forall h :: OnPathOf(c, commit, n + 1, h) <==>
              OnPathOf(c, commit, n, h) || OnPath(c, commit.targetHash, commit.precommits[n].precommit.targetHash, h)
  {
  }

  // ---- The checker ----

  /** The tree of the supplied headers only, numbered as the blocks they belong to. */
  function AncestryChain(world: Chain, headers: seq<Header>): Chain
    requires HeadersOf(world, headers)
  {
    LinksOf(world, headers);
    Blocks(map h | h in Hashes(headers) && h in world.parent :: world.parent[h], world.number)
  }

  lemma LinksOf(world: Chain, headers: seq<Header>)
    requires HeadersOf(world, headers)
    ensures Hashes(headers) <= world.parent.Keys
  {
    forall h | h in Hashes(headers) ensures h in world.parent {
      var i :| 0 <= i < |headers| && headers[i].hash == h;
      assert HeaderOf(world, headers[i]);
    }
  }

  /** The route from a block down to the base, both left out. */
  method Route(c: Chain, base: Hash, block: Hash) returns (r: Result<seq<Hash>, ChainError>)
    ensures r.Ok? <==> AtOrBelow(c, base, block)
    ensures r.Ok? ==> forall h :: h in r.value <==> h != block && OnPath(c, base, block, h)
  {
    var route: seq<Hash> := [];
    var current := block;
    NoPath(c, block);
    while current != base
      invariant AtOrBelow(c, current, block) && (AtOrBelow(c, base, block) <==> AtOrBelow(c, base, current))
      invariant forall h :: h in route <==> h != block && (h == current || OnPath(c, current, block, h))
      invariant if route == [] then current == block else Last(route) == current && current !in route[..|route| - 1]
      decreases if current in c.number then c.number[current] else 0
    {
      if current !in c.parent {
        return Err(NotDescendent);
      }
      PathStep(c, current, block);
      ParentIsNew(c, current, block);
      current := c.parent[current];
      route := route + [current];
    }
    var popped := if route == [] then route else route[..|route| - 1];
    NoPath(c, base);
    assert route != [] ==> route == popped + [base];
    forall h ensures h in popped <==> h != block && OnPath(c, base, block, h) {
      assert h in route <==> h != block && (h == base || OnPath(c, base, block, h));
    }
    return Ok(popped);
  }

  lemma ParentIsNew(c: Chain, current: Hash, block: Hash)
    requires current in c.parent && AtOrBelow(c, current, block)
    ensures c.parent[current] != block && c.parent[current] != current && !OnPath(c, current, block, c.parent[current])
  {
    AboveKnown(c, current, block);
    BelowNumber(c, current, block);
    if AtOrBelow(c, current, c.parent[current]) {
      BelowNumber(c, current, c.parent[current]);
    }
  }

  // ---- The headers' tree against the whole one ----

  /** `c` is the tree of these headers alone. */
  ghost predicate Within(c: Chain, world: Chain, hashes: set<Hash>) {
    c.number == world.number && hashes <= world.parent.Keys && c.parent.Keys == hashes
    && forall h | h in hashes :: c.parent[h] == world.parent[h]
  }

  lemma {:induction false} WithinBelow(c: Chain, world: Chain, hashes: set<Hash>, a: Hash, b: Hash)
    requires Within(c, world, hashes) && AtOrBelow(c, a, b)
    ensures AtOrBelow(world, a, b)
    decreases if b in c.number then c.number[b] else 0
  {
    if a != b {
      WithinBelow(c, world, hashes, a, c.parent[b]);
    }
  }

  /** A line of the whole tree between two blocks connected by the headers is in the headers' tree. */
  lemma {:induction false} WithinLine(c: Chain, world: Chain, hashes: set<Hash>, target: Hash, t: Hash, h: Hash)
    requires Within(c, world, hashes) && AtOrBelow(c, target, t) && AtOrBelow(world, target, h)
    requires AtOrBelow(world, h, t) && target in world.number
    ensures AtOrBelow(c, target, h) && AtOrBelow(c, h, t)
    decreases if t in c.number then c.number[t] else 0
  {
    if h != t {
      AboveKnown(world, target, h);
      AboveKnown(world, h, t);
      BelowNumber(world, target, h);
      BelowNumber(world, h, t);
      WithinLine(c, world, hashes, target, c.parent[t], h);
    }
  }

  /** With all headers of a path at hand its blocks are connected by them. */
  lemma {:induction false} Connected(c: Chain, world: Chain, hashes: set<Hash>, target: Hash, t: Hash, h: Hash)
    requires Within(c, world, hashes) && AtOrBelow(world, target, h) && AtOrBelow(world, h, t)
    requires forall x | OnPath(world, target, t, x) :: x in hashes
    ensures AtOrBelow(c, target, h)
    decreases if h in c.number then c.number[h] else 0
  {
    if h != target {
      assert OnPath(world, target, t, h);
      var parent := world.parent[h];
      assert AtOrBelow(world, parent, h);
      BelowTrans(world, parent, h, t);
      Connected(c, world, hashes, target, t, parent);
    }
  }

  /** The precommits are all at or above the target in the headers' tree. */
  ghost predicate AllConnected(c: Chain, commit: Commit) {
    forall i | 0 <= i < |commit.precommits| ::
      AtOrBelow(c, commit.targetHash, commit.precommits[i].precommit.targetHash)
  }

  lemma PathsWithin(c: Chain, world: Chain, hashes: set<Hash>, commit: Commit, h: Hash)
    requires Within(c, world, hashes) && AllConnected(c, commit) && commit.targetHash in world.number
    ensures OnSomePath(c, commit, h) <==> OnSomePath(world, commit, h)
  {
    var target := commit.targetHash;
    if OnSomePath(c, commit, h) {
      var i :| 0 <= i < |commit.precommits| && OnPath(c, target, commit.precommits[i].precommit.targetHash, h);
      WithinBelow(c, world, hashes, target, h);
      WithinBelow(c, world, hashes, h, commit.precommits[i].precommit.targetHash);
      assert OnPath(world, target, commit.precommits[i].precommit.targetHash, h);
    }
    if OnSomePath(world, commit, h) {
      var i :| 0 <= i < |commit.precommits| && OnPath(world, target, commit.precommits[i].precommit.targetHash, h);
      WithinLine(c, world, hashes, target, commit.precommits[i].precommit.targetHash, h);
      assert OnPath(c, target, commit.precommits[i].precommit.targetHash, h);
    }
  }

  lemma ConnectedWithin(c: Chain, world: Chain, hashes: set<Hash>, commit: Commit)
    requires Within(c, world, hashes) && AllConnected(world, commit)
    requires forall h | OnSomePath(world, commit, h) :: h in hashes
    ensures AllConnected(c, commit)
  {
    forall i | 0 <= i < |commit.precommits|
      ensures AtOrBelow(c, commit.targetHash, commit.precommits[i].precommit.targetHash) {
      var t := commit.precommits[i].precommit.targetHash;
      forall x | OnPath(world, commit.targetHash, t, x) ensures x in hashes {
        assert OnSomePath(world, commit, x);
      }
      Connected(c, world, hashes, commit.targetHash, t, t);
    }
  }

  lemma ConnectedAbove(c: Chain, world: Chain, hashes: set<Hash>, commit: Commit)
    requires Within(c, world, hashes) && AllConnected(c, commit)
    ensures AllConnected(world, commit) && (AllAtOrAbove(c, commit) <==> AllAtOrAbove(world, commit))
  {
    forall i | 0 <= i < |commit.precommits|
      ensures AtOrBelow(world, commit.targetHash, commit.precommits[i].precommit.targetHash) {
      WithinBelow(c, world, hashes, commit.targetHash, commit.precommits[i].precommit.targetHash);
    }
    forall i | 0 <= i < |commit.precommits|
      ensures AtOrAbove(c, commit, commit.precommits[i]) <==> AtOrAbove(world, commit, commit.precommits[i]) {
    }
  }

  ghost predicate Accepted(world: Chain, voters: VoterSet, checks: SignedPrecommit -> bool, j: Justification) {
    && Validates(voters, world, j.commit)
    && AllSigned(checks, j.commit)
    && ExactHeaders(world, j)
  }

  ghost predicate AllSigned(checks: SignedPrecommit -> bool, commit: Commit) {
    forall i | 0 <= i < |commit.precommits| :: checks(commit.precommits[i])
  }

  /** Checking against the headers' tree comes to the same as checking against the whole one. */
  lemma SameVerdict(c: Chain, world: Chain, voters: VoterSet, j: Justification)
    requires Within(c, world, Hashes(j.ancestries)) && j.commit.targetHash in world.number
    ensures Validates(voters, c, j.commit) && ExactHeaders(c, j) <==>
              Validates(voters, world, j.commit) && ExactHeaders(world, j)
  {
    var hashes, commit := Hashes(j.ancestries), j.commit;
    if Validates(voters, world, commit) && ExactHeaders(world, j) {
      AboveConnected(world, commit);
      ConnectedWithin(c, world, hashes, commit);
    }
    if Validates(voters, c, commit) {
      AboveConnected(c, commit);
    }
    if AllConnected(c, commit) {
      ConnectedAbove(c, world, hashes, commit);
      forall h ensures OnSomePath(c, commit, h) <==> OnSomePath(world, commit, h) {
        PathsWithin(c, world, hashes, commit, h);
      }
    }
  }

  lemma AboveConnected(c: Chain, commit: Commit)
    requires AllAtOrAbove(c, commit)
    ensures AllConnected(c, commit)
  {
    forall i | 0 <= i < |commit.precommits|
      ensures AtOrBelow(c, commit.targetHash, commit.precommits[i].precommit.targetHash) {
      assert AtOrAbove(c, commit, commit.precommits[i]);
    }
  }

  /** Looks at the signatures and marks what the precommits' routes pass. */
  method VisitRoutes(c: Chain, commit: Commit, checks: SignedPrecommit -> bool) returns (ok: bool, visited: set<Hash>)
    requires AllConnected(c, commit)
    ensures ok <==> AllSigned(checks, commit)
    ensures ok ==> forall h :: h in visited <==> OnSomePath(c, commit, h)
  {
    visited := {};
    for n := 0 to |commit.precommits|
      invariant forall i | 0 <= i < n :: checks(commit.precommits[i])
      invariant forall h :: h in visited <==> OnPathOf(c, commit, n, h)
    {
      var signed := commit.precommits[n];
      if !checks(signed) {
        return false, visited;
      }
      OnPathNext(c, commit, n);
      if commit.targetHash == signed.precommit.targetHash {
        NoPath(c, commit.targetHash);
      } else {
        var route := Route(c, commit.targetHash, signed.precommit.targetHash);
        visited := visited + {signed.precommit.targetHash} + set h | h in route.value;
        assert AtOrBelow(c, signed.precommit.targetHash, signed.precommit.targetHash);
      }
    }
    ok := true;
  }

  lemma SameHeaders(c: Chain, j: Justification, visited: set<Hash>)
    requires forall h :: h in visited <==> OnSomePath(c, j.commit, h)
    ensures visited == Hashes(j.ancestries) <==> ExactHeaders(c, j)
  {
    var hashes := Hashes(j.ancestries);
    if ExactHeaders(c, j) {
      assert forall h :: h in visited <==> h in hashes;
    }
  }

  method IsValid(c: Chain, commit: Commit, voters: VoterSet, order: set<Hash> -> seq<Hash>) returns (ok: bool)
    requires voters.Valid() && IsIteration(order) && commit.targetHash in c.number
    ensures ok <==> Validates(voters, c, commit)
  {
    var r := ValidateCommit(commit, voters, c, order);
    ok := r.Ok? && r.value.Some?;
  }

  /** Verifies a justification: it is accepted exactly when its commit validates, its signatures are good and its
      headers are exactly those on the precommits' paths, whatever numbers the commit and the headers claim. `checks`
      tells whether a precommit's signature is good; `world` is the tree of all blocks, of which only the supplied
      headers are looked at. */
  method Verify(world: Chain, j: Justification, voters: VoterSet, checks: SignedPrecommit -> bool,
                order: set<Hash> -> seq<Hash>)
    returns (r: Result<(), BadJustification>)
    requires voters.Valid() && IsIteration(order) && HeadersOf(world, j.ancestries)
    requires j.commit.targetHash in world.number
    ensures r.Ok? <==> Accepted(world, voters, checks, j)
  {
    LinksOf(world, j.ancestries);
    var c := AncestryChain(world, j.ancestries);
    SameVerdict(c, world, voters, j);
    var validated := IsValid(c, j.commit, voters, order);
    if !validated {
      return Err(InvalidCommit);
    }
    AboveConnected(c, j.commit);
    var ok, visited := VisitRoutes(c, j.commit, checks);
    if !ok {
      return Err(InvalidSignature);
    }
    SameHeaders(c, j, visited);
    if visited != Hashes(j.ancestries) {
      return Err(UnusedHeaders);
    }
    return Ok(());
  }

  /** The commit claims no higher number for its target than it has, or has no precommit above it. */
  ghost predicate Producible(c: Chain, commit: Commit)
    requires commit.targetHash in c.number
  {
    || commit.targetNumber <= c.number[commit.targetHash]
    || forall i | 0 <= i < |commit.precommits| :: commit.precommits[i].precommit.targetHash == commit.targetHash
  }

  /** Round trip: a commit's justification is produced and accepted exactly when the commit validates with good
      signatures and claims no higher number for its target than it has. */
  method ProduceAndVerify(c: Chain, round: nat, commit: Commit, voters: VoterSet, checks: SignedPrecommit -> bool,
                          order: set<Hash> -> seq<Hash>)
    returns (produced: Result<Justification, BadJustification>, verdict: Result<(), BadJustification>)
    requires voters.Valid() && IsIteration(order) && commit.targetHash in c.number
    ensures produced.Ok? && verdict.Ok? <==>
            Validates(voters, c, commit) && AllSigned(checks, commit) && Producible(c, commit)
  {
    if Validates(voters, c, commit) {
      AboveConnected(c, commit);
    }
    produced := FromCommit(c, round, commit);
    verdict := Err(InvalidCommit);
    if produced.Ok? {
      verdict := Verify(c, produced.value, voters, checks, order);
    }
  }
}
