/** Commits: aggregated precommits for a block, their compact form and their validation. */
module Commits {
  import opened Wrappers
  import opened BlockTree
  import opened Voters
  import opened BallotBox
  import opened Tally
  import opened Tracker
  import opened GraphSpec
  import opened VoteGraphs
  import opened RoundState
  import opened Rounds

  datatype SignedPrecommit = SignedPrecommit(precommit: Vote, signature: Signature, id: Id)

  datatype Commit = Commit(targetHash: Hash, targetNumber: nat, precommits: seq<SignedPrecommit>)

  /** Precommits apart from their authentication data. */
  datatype CompactCommit = CompactCommit(targetHash: Hash, targetNumber: nat, precommits: seq<Vote>,
                                         authData: seq<(Signature, Id)>)

  function FromCompact(c: CompactCommit): Commit {
    var n := Min(|c.precommits|, |c.authData|);
    Commit(c.targetHash, c.targetNumber,
           seq(n, i requires 0 <= i < n => SignedPrecommit(c.precommits[i], c.authData[i].0, c.authData[i].1)))
  }

  function ToCompact(c: Commit): CompactCommit {
    CompactCommit(c.targetHash, c.targetNumber,
                  seq(|c.precommits|, i requires 0 <= i < |c.precommits| => c.precommits[i].precommit),
                  seq(|c.precommits|, i requires 0
                      <= i < |c.precommits| => (c.precommits[i].signature, c.precommits[i].id)))
  }

  lemma CompactRoundTrip(c: Commit)
    ensures FromCompact(ToCompact(c)) == c
  {
    assert FromCompact(ToCompact(c)).precommits == c.precommits;
  }

  /** The other way the lengths must agree; what is longer is cut off. */
  lemma ExpandRoundTrip(c: CompactCommit)
    ensures ToCompact(FromCompact(c)) == c <==> |c.precommits| == |c.authData|
  {
    var d := ToCompact(FromCompact(c));
    if |c.precommits| == |c.authData| {
      assert d.precommits == c.precommits;
      assert d.authData == c.authData;
    } else {
      assert |d.precommits| == |d.authData|;
    }
  }

  // ---- Validation ----

  /** Every precommit is numbered at or above the target and descends from it. */
  predicate AllAtOrAbove(c: Chain, commit: Commit) {
    forall i | 0 <= i < |commit.precommits| :: AtOrAbove(c, commit, commit.precommits[i])
  }

  predicate AtOrAbove(c: Chain, commit: Commit, signed: SignedPrecommit): (ok: bool)
    ensures ok <==> && signed.precommit.targetNumber >= commit.targetNumber
                    && AtOrBelow(c, commit.targetHash, signed.precommit.targetHash)
  {
    signed.precommit.targetNumber >= commit.targetNumber
    && IsEqualOrDescendentOf(c, commit.targetHash, signed.precommit.targetHash)
  }

  /** The claimed numbers of known blocks are right, and the target is known. */
  ghost predicate RightlyNumbered(c: Chain, commit: Commit) {
    && commit.targetHash in c.number && c.number[commit.targetHash] == commit.targetNumber
    && forall i | 0 <= i < |commit.precommits| :: GoodTarget(c, commit.precommits[i].precommit)
  }

  ghost predicate Signed(ps: seq<SignedPrecommit>, id: Id) {
    exists i :: 0 <= i < |ps| && ps[i].id == id
  }

  /** Positions of the voters who signed some precommit. */
  ghost function Signers(vs: VoterSet, ps: seq<SignedPrecommit>): set<int> {
    set i | 0 <= i < |vs.voters| && Signed(ps, vs.voters[i].0)
  }

  ghost predicate Validates(vs: VoterSet, c: Chain, commit: Commit) {
    AllAtOrAbove(c, commit) && SetWeight(vs.voters, Signers(vs, commit.precommits)) >= vs.threshold
  }

  /** What a tracker holds after these precommits. */
  ghost function Imported(vs: VoterSet, ps: seq<SignedPrecommit>): map<Id, VoteMultiplicity> {
    if ps == [] then map[]
    else
      var last := ps[|ps| - 1];
      var before := Imported(vs, ps[..|ps| - 1]);
      if last.id in vs.weights then WithVote(before, last.id, (last.precommit, last.signature)) else before
  }

  lemma {:induction false} ImportedIds(vs: VoterSet, ps: seq<SignedPrecommit>, id: Id)
    ensures id in Imported(vs, ps) <==> id in vs.weights && Signed(ps, id)
  {
    if ps != [] {
      var init := ps[..|ps| - 1];
      ImportedIds(vs, init, id);
      if Signed(init, id) {
        var i :| 0 <= i < |init| && init[i].id == id;
        assert ps[i].id == id;
      }
      if Signed(ps, id) && ps[|ps| - 1].id != id {
        var i :| 0 <= i < |ps| && ps[i].id == id;
        assert init[i].id == id;
      }
    }
  }

  lemma {:induction false} ImportedTargets(vs: VoterSet, c: Chain, commit: Commit, n: nat, id: Id)
    requires n <= |commit.precommits| && AllAtOrAbove(c, commit) && id in Imported(vs, commit.precommits[..n])
    ensures AtOrBelow(c, commit.targetHash, Imported(vs, commit.precommits[..n])[id].First().0.targetHash)
  {
    if n > 0 {
      assert commit.precommits[..n][..n - 1] == commit.precommits[..n - 1];
      assert AtOrAbove(c, commit, commit.precommits[n - 1]);
      if id in Imported(vs, commit.precommits[..n - 1]) {
        ImportedTargets(vs, c, commit, n - 1, id);
      }
    }
  }

  /** The weight cast is the weight of the signers, and all of it supports the target. */
  lemma CommitSupport(vs: VoterSet, c: Chain, commit: Commit)
    requires vs.Valid() && AllAtOrAbove(c, commit)
    ensures var s := BallotsOf(vs, Imported(vs, commit.precommits));
      SupportWeight(vs, c, s, commit.targetHash) == CastWeight(vs, s) ==
        SetWeight(vs.voters, Signers(vs, commit.precommits))
  {
    var votes := Imported(vs, commit.precommits);
    var s := BallotsOf(vs, votes);
    assert commit.precommits[..|commit.precommits|] == commit.precommits;
    forall i ensures i in s.first.Keys <==> i in Signers(vs, commit.precommits) {
      if 0 <= i < |vs.voters| {
        assert vs.PositionOk(i);
        ImportedIds(vs, commit.precommits, vs.voters[i].0);
      }
    }
    forall i | i in s.first ensures i in Support(c, s, commit.targetHash) {
      ImportedTargets(vs, c, commit, |commit.precommits|, vs.voters[i].0);
    }
    assert s.first.Keys == Signers(vs, commit.precommits);
    assert Support(c, s, commit.targetHash) == s.first.Keys;
  }

  /** At or above the target, with a supermajority of the commit's precommits, and no block above it has one. */
  ghost predicate GhostOf(vs: VoterSet, c: Chain, commit: Commit, block: Hash) {
    var s := BallotsOf(vs, Imported(vs, commit.precommits));
    AtOrBelow(c, commit.targetHash, block) && Supermajority(vs, c, s, block) && NoneHigher(vs, c, s, block)
  }

  lemma CommitGhost(commit: Commit, round: Round, block: Option<(Hash, nat)>)
    requires round.Valid() && AllAtOrAbove(round.chain, commit) && round.graph.base == commit.targetHash
    requires round.precommit.votes == Imported(round.voters, commit.precommits)
    requires Refreshed(round.View(), round.graph.entries, Precommits, None, block) && block == round.precommitGhost
    ensures block.Some? <==> Validates(round.voters, round.chain, commit)
    ensures block.Some? ==> GhostOf(round.voters, round.chain, commit, block.value.0)
    ensures block.Some? ==>
              block.value.0 in round.chain.number && block.value.1 == round.chain.number[block.value.0]
  {
    round.BooksValid();
    OpenBooks(round.View());
    CommitSupport(round.voters, round.chain, commit);
    GhostFromBase(round.View(), round.graph.entries, round.View().Cast(Precommits), block);
    if block.Some? {
      round.PrecommitGhostNumber();
      RoundGhostIsHighest(round, block);
    }
  }

  lemma GhostFromBase(l: Ledger, es: Entries<VoteWeight>, s: Ballots, block: Option<(Hash, nat)>)
    requires Refreshed(l, es, Precommits, None, block) && s == l.Cast(Precommits)
    requires SupportWeight(l.voters, l.chain, s, l.base) == CastWeight(l.voters, s)
    ensures block.Some? <==> CastWeight(l.voters, s) >= l.voters.threshold
    ensures block.Some? ==>
              AtOrBelow(l.chain, l.base, block.value.0) && Supermajority(l.voters, l.chain, s, block.value.0)
  {
    OpenRefreshed(l, es, Precommits, None, block);
  }

  lemma RoundGhostIsHighest(round: Round, block: Option<(Hash, nat)>)
    requires round.Valid() && block.Some? && Refreshed(round.View(), round.graph.entries, Precommits, None, block)
    ensures NoneHigher(round.voters, round.chain, round.View().Cast(Precommits), block.value.0)
  {
    var l := round.View();
    round.GraphValid();
    round.graph.Open();
    round.BooksValid();
    OpenBooks(l);
    OpenRefreshed(l, round.graph.entries, Precommits, None, block);
    GhostIsHighest(Precommits, l.chain, round.graph.entries, l.base, l.log, l.voters, l.Cast(Precommits), None, block);
  }

  /** All precommits being at or above the target, the base of the round reaches the threshold exactly when the commit
      validates. */
  lemma BareCommit(vs: VoterSet, c: Chain, commit: Commit, l: Ledger)
    requires vs.Valid() && AllAtOrAbove(c, commit) && l.voters == vs && l.chain == c && l.base == commit.targetHash
    requires l.precommits.votes == Imported(vs, commit.precommits)
    ensures BaseReaches(l, Precommits) <==> Validates(vs, c, commit)
  {
    CommitSupport(vs, c, commit);
    BaseReachesCast(l, l.Cast(Precommits));
  }

  lemma BaseReachesCast(l: Ledger, s: Ballots)
    requires s == l.Cast(Precommits) && SupportWeight(l.voters, l.chain, s, l.base) == CastWeight(l.voters, s)
    ensures BaseReaches(l, Precommits) <==> CastWeight(l.voters, s) >= l.voters.threshold
  {
  }

  /** A round, based on the target of a commit, that has seen its first `n` precommits, whatever numbers they claim. */
  ghost predicate Replayed(round: Round, commit: Commit, n: nat)
    reads round, round.graph, round.prevote, round.precommit
  {
    && n <= |commit.precommits| && round.Bare() && (RightlyNumbered(round.chain, commit) ==> round.Valid())
    && round.graph.base == commit.targetHash && round.precommitGhost == None
    && round.precommit.votes == Imported(round.voters, commit.precommits[..n])
  }

  ghost predicate Twice(votes: map<Id, VoteMultiplicity>, id: Id) {
    id in votes && votes[id].Equivocated?
  }

  /** One more precommit: the import never errs, and tells a voter's second vote once. */
  method ReplayNext(round: Round, c: Chain, commit: Commit, n: nat) returns (evidence: bool)
    requires Replayed(round, commit, n) && n < |commit.precommits| && c == round.chain && AllAtOrAbove(c, commit)
    modifies round, round.graph, round.precommit
    ensures Replayed(round, commit, n + 1)
    ensures forall id | old(Twice(round.precommit.votes, id)) :: Twice(round.precommit.votes, id)
    ensures var id := commit.precommits[n].id;
            evidence <==> Twice(round.precommit.votes, id) && !old(Twice(round.precommit.votes, id))
  {
    var SignedPrecommit(precommit, signature, id) := commit.precommits[n];
    assert AtOrAbove(c, commit, commit.precommits[n]);
    assert commit.precommits[..n + 1][..n] == commit.precommits[..n];
    var imported := round.ImportPrecommit(c, precommit, id, signature);
    assert imported.Ok?;
    evidence := imported.value.Some?;
  }

  method Replay(commit: Commit, voters: VoterSet, c: Chain, order: set<Hash> -> seq<Hash>) returns (round: Round)
    requires voters.Valid() && IsIteration(order) && commit.targetHash in c.number && AllAtOrAbove(c, commit)
    ensures fresh(round) && fresh(round.graph) && fresh(round.precommit) && round.chain == c && round.voters == voters
    ensures Replayed(round, commit, |commit.precommits|)
  {
    var equivocated: set<Id> := {};
    round := new Round(voters, order, c, (commit.targetHash, commit.targetNumber));
    for i := 0 to |commit.precommits|
      invariant fresh(round) && fresh(round.graph) && fresh(round.precommit)
      invariant Replayed(round, commit, i)
      invariant forall id | id in equivocated :: Twice(round.precommit.votes, id)
    {
      var evidence := ReplayNext(round, c, commit, i);
      if evidence {
        var id := commit.precommits[i].id;
        assert id !in equivocated;  // the check that rejects a second equivocation of one voter always passes
        equivocated := equivocated + {id};
      }
    }
  }

  /** Validates a commit, whatever numbers it claims for its blocks: a block is answered exactly when the commit
      validates, and with right numbers it is the precommit-GHOST: at or above the target, with a supermajority of the
      precommits that no block above it has. */
  method ValidateCommit(commit: Commit, voters: VoterSet, c: Chain,
                        order: set<Hash> -> seq<Hash>) returns (r: Result<Option<(Hash, nat)>, ChainError>)
    requires voters.Valid() && IsIteration(order) && commit.targetHash in c.number
    ensures r.Ok? && (r.value.Some? <==> Validates(voters, c, commit))
    ensures r.value.Some? && RightlyNumbered(c, commit) ==>
              && GhostOf(voters, c, commit, r.value.value.0)
              && r.value.value.0 in c.number && r.value.value.1 == c.number[r.value.value.0]
  {
    if !AllAtOrAbove(c, commit) {
      return Ok(None);
    }
    var round := Replay(commit, voters, c, order);
    assert commit.precommits[..|commit.precommits|] == commit.precommits;
    var block := round.PrecommitGhost();
    BareCommit(voters, c, commit, round.View());
    if RightlyNumbered(c, commit) {
      CommitGhost(commit, round, block);
    }
    return Ok(block);
  }

  // ---- The commit a round builds for its finalized block ----

  /** A voter's votes go into the commit: a single one only at or above the finalized block, two in any case. */
  predicate Qualifies(c: Chain, f: Hash, m: VoteMultiplicity) {
    m.Equivocated? || IsEqualOrDescendentOf(c, f, m.vote.0.targetHash)
  }

  function Yield(id: Id, m: VoteMultiplicity): seq<SignedPrecommit> {
    match m
    case Single(v) => [SignedPrecommit(v.0, v.1, id)]
    case Equivocated(v, w) => [SignedPrecommit(v.0, v.1, id), SignedPrecommit(w.0, w.1, id)]
  }

  /** The precommits for `f`, voter by voter. */
  function Collected(c: Chain, f: Hash, votes: map<Id, VoteMultiplicity>, ids: seq<Id>): seq<SignedPrecommit>
    requires forall id | id in ids :: id in votes
  {
    if ids == [] then []
    else
      var id := ids[|ids| - 1];
      Collected(c, f, votes, ids[..|ids| - 1]) + (if Qualifies(c, f, votes[id]) then Yield(id, votes[id]) else [])
  }

  ghost predicate Enumerates(ids: seq<Id>, votes: map<Id, VoteMultiplicity>) {
    NoDup(ids) && forall id :: id in ids <==> id in votes
  }

  /** All precommits targeting the finalized block, in the iteration order of the voters. */
  method FinalizingPrecommits(round: Round, c: Chain, order: set<Id> -> seq<Id>)
    returns (r: Option<seq<SignedPrecommit>>)
    requires c == round.chain && IsIteration(order)
    ensures r.None? <==> round.finalized.None?
    ensures r.Some? ==>
              && Enumerates(order(round.precommit.votes.Keys), round.precommit.votes)
              && r.value == Collected(c, round.finalized.value.0, round.precommit.votes,
                                      order(round.precommit.votes.Keys))
  {
    if round.finalized.None? {
      return None;
    }
    var f: Hash := round.finalized.value.0;
    var votes := round.precommit.votes;
    var ids := order(votes.Keys);
    assert Enumerates(ids, votes);
    var ps: seq<SignedPrecommit> := [];
    for i := 0 to |ids|
      invariant ps == Collected(c, f, votes, ids[..i])
    {
      assert ids[..i + 1][..i] == ids[..i];
      var id: Id := ids[i];
      assert id in ids && id in votes;
      if Qualifies(c, f, votes[id]) {
        ps := ps + Yield(id, votes[id]);
      }
    }
    assert ids[..|ids|] == ids;
    return Some(ps);
  }

  ghost predicate Includes(c: Chain, f: Hash, votes: map<Id, VoteMultiplicity>, p: SignedPrecommit) {
    p.id in votes && votes[p.id].Has((p.precommit, p.signature)) && Qualifies(c, f, votes[p.id])
  }

  lemma {:induction false} CollectedHas(c: Chain, f: Hash, votes: map<Id, VoteMultiplicity>, ids: seq<Id>,
                                        p: SignedPrecommit)
    requires forall id | id in ids :: id in votes
    ensures p in Collected(c, f, votes, ids) <==> p.id in ids && Includes(c, f, votes, p)
  {
    if ids != [] {
      CollectedHas(c, f, votes, ids[..|ids| - 1], p);
      assert ids == ids[..|ids| - 1] + [ids[|ids| - 1]];
    }
  }

  ghost predicate VotesNumbered(c: Chain, votes: map<Id, VoteMultiplicity>) {
    forall id | id in votes :: forall v | votes[id].Has(v) :: GoodTarget(c, v.0)
  }

  ghost predicate DoubleAbove(c: Chain, f: Hash, m: VoteMultiplicity) {
    m.Equivocated? ==> AtOrBelow(c, f, m.first.0.targetHash) && AtOrBelow(c, f, m.second.0.targetHash)
  }

  lemma CollectedAbove(c: Chain, f: Hash, n: nat, votes: map<Id, VoteMultiplicity>, ids: seq<Id>)
    requires Enumerates(ids, votes) && VotesNumbered(c, votes) && f in c.number && c.number[f] == n
    ensures AllAtOrAbove(c, Commit(f, n, Collected(c, f, votes, ids))) <==>
              forall id | id in votes :: DoubleAbove(c, f, votes[id])
  {
    var commit := Commit(f, n, Collected(c, f, votes, ids));
    if AllAtOrAbove(c, commit) {
      forall id | id in votes ensures DoubleAbove(c, f, votes[id]) {
        if votes[id].Equivocated? {
          var v, w := votes[id].first, votes[id].second;
          CollectedHas(c, f, votes, ids, SignedPrecommit(v.0, v.1, id));
          CollectedHas(c, f, votes, ids, SignedPrecommit(w.0, w.1, id));
        }
      }
    }
    if forall id | id in votes :: DoubleAbove(c, f, votes[id]) {
      forall i | 0 <= i < |commit.precommits| ensures AtOrAbove(c, commit, commit.precommits[i]) {
        var p := commit.precommits[i];
        CollectedHas(c, f, votes, ids, p);
        assert GoodTarget(c, p.precommit) && AtOrBelow(c, f, p.precommit.targetHash);
        AboveKnown(c, f, p.precommit.targetHash);
        BelowNumber(c, f, p.precommit.targetHash);
      }
    }
  }

  lemma CollectedSigners(vs: VoterSet, c: Chain, f: Hash, votes: map<Id, VoteMultiplicity>, ids: seq<Id>)
    requires Enumerates(ids, votes)
    ensures Signers(vs, Collected(c, f, votes, ids)) == Support(c, BallotsOf(vs, votes), f)
  {
    var ps, s := Collected(c, f, votes, ids), BallotsOf(vs, votes);
    forall i ensures i in Signers(vs, ps) <==> i in Support(c, s, f) {
      if i in Signers(vs, ps) {
        var j :| 0 <= j < |ps| && ps[j].id == vs.voters[i].0;
        CollectedHas(c, f, votes, ids, ps[j]);
      }
      if i in Support(c, s, f) {
        var id := vs.voters[i].0;
        var v := votes[id].First();
        CollectedHas(c, f, votes, ids, SignedPrecommit(v.0, v.1, id));
      }
    }
  }

  /** The commit built from a round's finalized block validates exactly when the two precommits of every voter who
      cast two are both at or above it. */
  lemma FinalizedCommitValidates(l: Ledger, es: Entries<VoteWeight>, o: Outputs, f: Hash, n: nat, ids: seq<Id>)
    requires Books(l) && Backed(l, es, o) && o.finalized == Some((f, n))
    requires VotesNumbered(l.chain, l.precommits.votes) && Enumerates(ids, l.precommits.votes)
    ensures Validates(l.voters, l.chain, Commit(f, n, Collected(l.chain, f, l.precommits.votes, ids))) <==>
            forall id | id in l.precommits.votes :: DoubleAbove(l.chain, f, l.precommits.votes[id])
  {
    OpenBacked(l, es, o);
    CollectedAbove(l.chain, f, n, l.precommits.votes, ids);
    CollectedSigners(l.voters, l.chain, f, l.precommits.votes, ids);
  }

  /** Without equivocations it always does. */
  lemma HonestCommitValidates(l: Ledger, es: Entries<VoteWeight>, o: Outputs, f: Hash, n: nat, ids: seq<Id>)
    requires Books(l) && Backed(l, es, o) && o.finalized == Some((f, n))
    requires VotesNumbered(l.chain, l.precommits.votes) && Enumerates(ids, l.precommits.votes)
    requires l.Cast(Precommits).double == {}
    ensures Validates(l.voters, l.chain, Commit(f, n, Collected(l.chain, f, l.precommits.votes, ids)))
  {
    FinalizedCommitValidates(l, es, o, f, n, ids);
    OpenBooks(l);
    forall id | id in l.precommits.votes ensures DoubleAbove(l.chain, f, l.precommits.votes[id]) {
      assert l.voters.IndexOk(id);
      if l.precommits.votes[id].Equivocated? {
        assert l.voters.weights[id].canonIdx in l.Cast(Precommits).double;
      }
    }
  }

  // ---- Two commits of one round ----

  /** Voters with a precommit in each commit. */
  ghost function SignedBoth(vs: VoterSet, a: Commit, b: Commit): set<int> {
    Signers(vs, a.precommits) * Signers(vs, b.precommits)
  }

  /** Commits for blocks on different forks that both validate share voters of more than a third of the weight. */
  lemma CommitQuorum(vs: VoterSet, c: Chain, a: Commit, b: Commit)
    requires vs.Valid() && Total(vs.voters) > 0 && Validates(vs, c, a) && Validates(vs, c, b)
    ensures SetWeight(vs.voters, SignedBoth(vs, a,
                                            b)) >= 2 * vs.threshold - Total(vs.voters) > (Total(vs.voters) - 1) / 3
  {
    var s, t := Signers(vs, a.precommits), Signers(vs, b.precommits);
    InclusionExclusion(vs.voters, s, t);
    SetWeightAtMostTotal(vs.voters, s + t);
    ThresholdQuorum(Total(vs.voters));
  }

  /** And each of those has voted for two blocks on different forks. */
  lemma SignedBothDouble(vs: VoterSet, c: Chain, a: Commit, b: Commit, i: int)
    requires Validates(vs, c, a) && Validates(vs, c, b) && i in SignedBoth(vs, a, b)
    requires !Comparable(c, a.targetHash, b.targetHash) && a.targetHash in c.number && b.targetHash in c.number
    ensures exists j, k ::
              0 <= j < |a.precommits| && 0 <= k < |b.precommits|
              && DoubleVote(c, vs.voters[i].0, a.precommits[j], b.precommits[k])
  {
    var j :| 0 <= j < |a.precommits| && a.precommits[j].id == vs.voters[i].0;
    var k :| 0 <= k < |b.precommits| && b.precommits[k].id == vs.voters[i].0;
    assert AtOrAbove(c, a, a.precommits[j]) && AtOrAbove(c, b, b.precommits[k]);
    var x, y := a.precommits[j].precommit.targetHash, b.precommits[k].precommit.targetHash;
    AboveKnown(c, a.targetHash, x);
    AboveKnown(c, b.targetHash, y);
    if AtOrBelow(c, x, y) {
      BelowTrans(c, a.targetHash, x, y);
      BelowLinear(c, a.targetHash, b.targetHash, y);
      BelowLinear(c, b.targetHash, a.targetHash, y);
    } else if AtOrBelow(c, y, x) {
      BelowTrans(c, b.targetHash, y, x);
      BelowLinear(c, a.targetHash, b.targetHash, x);
      BelowLinear(c, b.targetHash, a.targetHash, x);
    }
    assert DoubleVote(c, vs.voters[i].0, a.precommits[j], b.precommits[k]);
  }

  ghost predicate DoubleVote(c: Chain, id: Id, p: SignedPrecommit, q: SignedPrecommit) {
    p.id == id && q.id == id && !Comparable(c, p.precommit.targetHash, q.precommit.targetHash)
  }
}
