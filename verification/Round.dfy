/** A single round of voting: votes are tracked and counted in the graph, and the prevote-GHOST, the
    finalized block and the round-estimate follow from them. */
module Rounds {
  import opened Wrappers
  import opened BlockTree
  import opened Votes
  import opened Voters
  import opened BallotBox
  import opened Tally
  import opened Tracker
  import opened GraphSpec
  import opened GraphLoose
  import opened VoteGraphs
  import opened GhostSearch
  import opened AncestorSearch
  import opened RoundProofs
  import opened RoundState

  class Round {
    const voters: VoterSet
    const totalWeight: nat
    const graph: VoteGraph<VoteWeight>
    const prevote: VoteTracker
    const precommit: VoteTracker
    ghost const chain: Chain
    var equivocators: VoteWeight
    var prevoteGhost: Option<(Hash, nat)>
    var precommitGhost: Option<(Hash, nat)>
    var finalized: Option<(Hash, nat)>
    var estimate: Option<(Hash, nat)>
    var completable: bool

    ghost function View(): Ledger reads this, graph, prevote, precommit {
      Ledger(voters, chain, graph.base, graph.log, equivocators,
             Box(prevote.votes, prevote.currentWeight), Box(precommit.votes, precommit.currentWeight))
    }

    ghost function Blocks(): Outputs reads this {
      Outputs(prevoteGhost, precommitGhost, finalized, estimate)
    }

    ghost function Results(): Published reads this {
      (finalized, estimate, completable)
    }

    /** The votes are tracked and counted faithfully. */
    ghost predicate Counted() reads this, graph, prevote, precommit {
      && prevote != precommit && voters.Valid() && totalWeight == Total(voters.voters)
      && graph.Valid() && graph.monoid == VOTES && graph.chain == chain && Books(View())
    }

    /** And what the round remembers and publishes is backed by them. */
    ghost predicate Sound() reads this, graph, prevote, precommit {
      Counted() && Backed(View(), graph.entries, Blocks())
    }

    /** `Sound`, carried as a single fact. */
    ghost predicate Valid() reads this, graph, prevote, precommit {
      Behind(2)
    }

    ghost predicate Behind(steps: nat) reads this, graph, prevote, precommit {
      if steps == 0 then Sound() else Behind(steps - 1)
    }

    lemma Open()
      requires Valid()
      ensures Sound()
    {
      assert Behind(1);
      assert Behind(0);
    }

    lemma Close()
      requires Sound()
      ensures Valid()
    {
      assert Behind(0);
      assert Behind(1);
    }

    /** A round of precommits only, whose claimed numbers need not be right: no GHOST is known yet. */
    ghost predicate Bare() reads this, graph, prevote, precommit {
      BareBehind(2)
    }

    ghost predicate BareBehind(steps: nat) reads this, graph, prevote, precommit {
      if steps == 0 then Plain() else BareBehind(steps - 1)
    }

    ghost predicate Plain() reads this, graph, prevote, precommit {
      Standing() && Books(View()) && prevoteGhost.None? && precommitGhost.None?
    }

    ghost predicate Standing() reads this, graph, prevote, precommit {
      && prevote != precommit && voters.Valid() && totalWeight == Total(voters.voters)
      && graph.Loose() && graph.monoid == VOTES && graph.chain == chain
    }

    lemma OpenBare()
      requires Bare()
      ensures Plain()
    {
      assert BareBehind(1);
      assert BareBehind(0);
    }

    lemma CloseBare()
      requires Plain()
      ensures Bare()
    {
      assert BareBehind(0);
      assert BareBehind(1);
    }

    lemma GraphValid()
      requires Valid()
      ensures graph.Valid() && graph.chain == chain && graph.monoid == VOTES
    {
      Open();
    }

    lemma BooksValid()
      requires Valid()
      ensures Books(View())
    {
      Open();
    }

    lemma PrecommitGhostNumber()
      requires Valid() && precommitGhost.Some?
      ensures precommitGhost.value.0 in chain.number
      ensures precommitGhost.value.1 == chain.number[precommitGhost.value.0]
    {
      Open();
      OpenBacked(View(), graph.entries, Blocks());
    }

    lemma GhostNumber()
      requires Valid() && prevoteGhost.Some?
      ensures prevoteGhost.value.0 in chain.number && prevoteGhost.value.1 == chain.number[prevoteGhost.value.0]
    {
      Open();
      OpenBacked(View(), graph.entries, Blocks());
    }

    constructor (voters: VoterSet, order: set<Hash> -> seq<Hash>, ghost chain: Chain, base: (Hash, nat))
      requires voters.Valid() && IsIteration(order) && base.0 in chain.number
      ensures Bare() && (chain.number[base.0] == base.1 ==> Valid()) && fresh(graph) && fresh(prevote)
      ensures fresh(precommit)
      ensures this.voters == voters && this.chain == chain && graph.base == base.0 && graph.bases == {base.0}
      ensures graph.order == order && graph.entries.Keys == {base.0}
      ensures View() == Ledger(voters, chain, base.0, [], VoteWeight({}, {}), Box(map[], 0), Box(map[], 0))
      ensures prevote.votes == map[] && precommit.votes == map[]
      ensures prevoteGhost == None && precommitGhost == None && finalized == None && estimate == None && !completable
    {
      MergeLawful();
      this.voters := voters;
      this.chain := chain;
      totalWeight := voters.TotalWeight();
      graph := new VoteGraph(VOTES, order, chain, base.0, base.1);
      prevote := new VoteTracker();
      precommit := new VoteTracker();
      equivocators := VoteWeight({}, {});
      prevoteGhost, precommitGhost, finalized, estimate, completable := None, None, None, None, false;
      new;
      NewBooks(View());
      CloseBare();
      if chain.number[base.0] == base.1 {
        CloseBacked(View(), graph.entries, Blocks());
        Close();
      }
    }

    /** Counts a tracked vote: a first one in the graph, a second one among the equivocators. */
    method Count(c: Chain, vote: Vote, m: Option<VoteMultiplicity>, mark: VoteWeight)
      returns (r: Result<Option<VoteMultiplicity>, ChainError>)
      requires graph.Loose() && c == graph.chain == chain
      modifies this`equivocators, graph
      ensures graph.Loose() && graph.bases == old(graph.bases) && graph.base == old(graph.base)
      ensures graph.log == if m.Some? && m.value.Single? && AtOrBelow(chain, graph.base, vote.targetHash)
                           then old(graph.log) + [(vote.targetHash, mark)] else old(graph.log)
      ensures equivocators == if m.Some? && m.value.Equivocated? then Merge(old(equivocators), mark)
                              else old(equivocators)
      ensures old(graph.Valid()) && GoodTarget(chain, vote) ==>
                && graph.Valid() && (forall b | InGraph(old(graph.entries), b) :: InGraph(graph.entries, b))
                && (OffEdges(old(graph.entries), vote.targetHash) ==> ChildrenGrow(old(graph.entries), graph.entries))
      ensures r.Err? <==> m.Some? && m.value.Single? && !AtOrBelow(chain, graph.base, vote.targetHash)
      ensures r.Ok? ==> r.value == m
    {
      r := Ok(m);
      if m.Some? && m.value.Single? {
        var inserted := graph.Insert(vote.targetHash, vote.targetNumber, mark, c);
        if inserted.Err? {
          r := Err(inserted.error);
        }
      } else if m.Some? {
        equivocators := Merge(equivocators, mark);
      }
    }

    /** Tracks a prevote and counts it. */
    method TrackPrevote(c: Chain, vote: Vote, signer: Id, signature: Signature)
      returns (r: Result<Option<VoteMultiplicity>, ChainError>)
      requires Standing() && c == chain && signer in voters.weights
      modifies this`equivocators, graph, prevote
      ensures graph.Loose() && graph.bases == old(graph.bases)
      ensures View() == Entered(old(View()), Prevotes, signer, (vote, signature))
      ensures old(graph.Valid()) && GoodTarget(chain, vote) ==>
                && graph.Valid() && (forall b | InGraph(old(graph.entries), b) :: InGraph(graph.entries, b))
                && (OffEdges(old(graph.entries), vote.targetHash) ==> ChildrenGrow(old(graph.entries), graph.entries))
      ensures r.Err? <==> signer !in old(prevote.votes) && !AtOrBelow(chain, graph.base, vote.targetHash)
      ensures r.Ok? ==> r.value == NewMultiplicity(old(prevote.votes), signer, (vote, signature))
    {
      var info := voters.weights[signer];
      var m := prevote.AddVote(signer, (vote, signature), info.weight);
      r := Count(c, vote, m, VoteWeight({info.canonIdx}, {}));
    }

    method RecordPrevote(c: Chain, vote: Vote, signer: Id,
                         signature: Signature) returns (r: Result<Option<VoteMultiplicity>, ChainError>)
      requires Valid() && c == chain && signer in voters.weights && GoodTarget(chain, vote)
      modifies this`equivocators, graph, prevote
      ensures Valid() && graph.bases == old(graph.bases)
      ensures View() == Entered(old(View()), Prevotes, signer, (vote, signature))
      ensures OffEdges(old(graph.entries), vote.targetHash) ==> ChildrenGrow(old(graph.entries), graph.entries)
      ensures r.Err? <==> signer !in old(prevote.votes) && !AtOrBelow(chain, graph.base, vote.targetHash)
      ensures r.Ok? ==> r.value == NewMultiplicity(old(prevote.votes), signer, (vote, signature))
    {
      Open();
      ghost var l, es := View(), graph.entries;
      EnteredMeans(l, Prevotes, signer, (vote, signature));
      graph.ValidIsLoose();
      r := TrackPrevote(c, vote, signer, signature);
      VoteKeepsOutputs(l, View(), Prevotes, signer, (vote, signature), es, graph.entries, Blocks());
      Close();
    }

    /** Tracks a precommit and counts it likewise. */
    method TrackPrecommit(c: Chain, vote: Vote, signer: Id, signature: Signature)
      returns (r: Result<Option<VoteMultiplicity>, ChainError>)
      requires Standing() && c == chain && signer in voters.weights
      modifies this`equivocators, graph, precommit
      ensures graph.Loose() && graph.bases == old(graph.bases)
      ensures View() == Entered(old(View()), Precommits, signer, (vote, signature))
      ensures old(graph.Valid()) && GoodTarget(chain, vote) ==>
                && graph.Valid() && (forall b | InGraph(old(graph.entries), b) :: InGraph(graph.entries, b))
                && (OffEdges(old(graph.entries), vote.targetHash) ==> ChildrenGrow(old(graph.entries), graph.entries))
      ensures r.Err? <==> signer !in old(precommit.votes) && !AtOrBelow(chain, graph.base, vote.targetHash)
      ensures r.Ok? ==> r.value == NewMultiplicity(old(precommit.votes), signer, (vote, signature))
    {
      var info := voters.weights[signer];
      var m := precommit.AddVote(signer, (vote, signature), info.weight);
      r := Count(c, vote, m, VoteWeight({}, {info.canonIdx}));
    }

    method RecordPrecommit(c: Chain, vote: Vote, signer: Id,
                           signature: Signature) returns (r: Result<Option<VoteMultiplicity>, ChainError>)
      requires ((Valid() && GoodTarget(chain, vote)) || Bare()) && c == chain && signer in voters.weights
      modifies this`equivocators, graph, precommit
      ensures graph.bases == old(graph.bases) && View() == Entered(old(View()), Precommits, signer, (vote, signature))
      ensures r.Err? <==> signer !in old(precommit.votes) && !AtOrBelow(chain, graph.base, vote.targetHash)
      ensures r.Ok? ==> r.value == NewMultiplicity(old(precommit.votes), signer, (vote, signature))
      ensures old(Bare()) ==> Bare()
      ensures old(Valid()) && GoodTarget(chain, vote) ==>
                Valid() && (OffEdges(old(graph.entries), vote.targetHash) ==>
                              ChildrenGrow(old(graph.entries), graph.entries))
    {
      ghost var l, es, bare, exact := View(), graph.entries, Bare(), Valid() && GoodTarget(chain, vote);
      if bare {
        OpenBare();
      }
      if exact {
        Open();
        graph.ValidIsLoose();
      }
      EnteredMeans(l, Precommits, signer, (vote, signature));
      r := TrackPrecommit(c, vote, signer, signature);
      if bare {
        CloseBare();
      }
      if exact {
        VoteKeepsOutputs(l, View(), Precommits, signer, (vote, signature), es, graph.entries, Blocks());
        Close();
      }
    }

    /** Imports a prevote. Answers the two votes if it is the voter's first equivocation. */
    method ImportPrevote(c: Chain, vote: Vote, signer: Id, signature: Signature)
      returns (r: Result<Option<(SignedVote, SignedVote)>, ChainError>)
      requires Valid() && c == chain && GoodTarget(chain, vote)
      modifies this, graph, prevote
      ensures Valid() && graph.base == old(graph.base) && graph.bases == old(graph.bases)
      ensures View() == Entered(old(View()), Prevotes, signer, (vote, signature))
      ensures OffEdges(old(graph.entries), vote.targetHash) ==> ChildrenGrow(old(graph.entries), graph.entries)
      ensures prevote.votes == if signer in voters.weights then WithVote(old(prevote.votes), signer, (vote, signature))
                               else old(prevote.votes)
      ensures r.Err? <==>
                signer in voters.weights && signer !in old(prevote.votes)
                && !AtOrBelow(chain, graph.base, vote.targetHash)
      ensures r.Ok? ==>
                (r.value.Some? <==>
                   && signer in voters.weights && signer in old(prevote.votes) && old(prevote.votes)[signer].Single?
                   && old(prevote.votes)[signer].vote != (vote, signature))
      ensures r.Ok? && r.value.Some? ==> r.value.value == (old(prevote.votes)[signer].vote, (vote, signature))
      ensures r.Ok? && prevote.votes != old(prevote.votes) ==>
                && Refreshed(View(), graph.entries, Prevotes, old(prevoteGhost), prevoteGhost)
                && Updated(View(), graph.entries, graph.order(graph.heads), prevoteGhost, old(Results()), Results())
      ensures old(prevoteGhost).Some? ==>
                prevoteGhost.Some? && AtOrBelow(chain, old(prevoteGhost).value.0, prevoteGhost.value.0)
      ensures r.Err? || prevote.votes == old(prevote.votes) ==>
                prevoteGhost == old(prevoteGhost) && Results() == old(Results())
    {
      r := Ok(None);
      if voters.Info(signer).Some? {
        EnteredVotes(View(), Prevotes, signer, (vote, signature));
        var recorded := RecordPrevote(c, vote, signer, signature);
        if recorded.Err? {
          r := Err(recorded.error);
        } else if recorded.value.Some? {
          UpdatePrevoteGhost();
          Update();
          r := Ok(Evidence(recorded.value));
        }
      }
    }

    /** Imports a precommit. In a bare round any number may be claimed for its target. */
    method ImportPrecommit(c: Chain, vote: Vote, signer: Id, signature: Signature)
      returns (r: Result<Option<(SignedVote, SignedVote)>, ChainError>)
      requires ((Valid() && GoodTarget(chain, vote)) || Bare()) && c == chain
      modifies this, graph, precommit
      ensures graph.bases == old(graph.bases) && View() == Entered(old(View()), Precommits, signer, (vote, signature))
      ensures prevoteGhost == old(prevoteGhost) && precommitGhost == old(precommitGhost)
      ensures precommit.votes == if signer in voters.weights
                                 then WithVote(old(precommit.votes), signer, (vote, signature))
                                 else old(precommit.votes)
      ensures r.Err? <==> && signer in voters.weights && signer !in old(precommit.votes)
                          && !AtOrBelow(chain, graph.base, vote.targetHash)
      ensures r.Ok? ==>
                (r.value.Some? <==>
                   && signer in voters.weights && signer in old(precommit.votes) && old(precommit.votes)[signer].Single?
                   && old(precommit.votes)[signer].vote != (vote, signature))
      ensures r.Ok? && r.value.Some? ==> r.value.value == (old(precommit.votes)[signer].vote, (vote, signature))
      ensures r.Err? || precommit.votes == old(precommit.votes) ==> Results() == old(Results())
      ensures old(Bare()) ==> Bare()
      ensures old(Valid()) && GoodTarget(chain, vote) ==>
                && Valid() && graph.base == old(graph.base)
                && (OffEdges(old(graph.entries), vote.targetHash) ==> ChildrenGrow(old(graph.entries), graph.entries))
                && (r.Ok? && precommit.votes != old(precommit.votes) ==>
                      Updated(View(), graph.entries, graph.order(graph.heads), prevoteGhost, old(Results()), Results()))
    {
      r := Ok(None);
      if voters.Info(signer).Some? {
        EnteredVotes(View(), Precommits, signer, (vote, signature));
        var recorded := RecordPrecommit(c, vote, signer, signature);
        if recorded.Err? {
          r := Err(recorded.error);
        } else if recorded.value.Some? {
          Update();
          r := Ok(Evidence(recorded.value));
        }
      }
    }

    /** The GHOST of one kind of votes, searched from the cached one once enough voters have cast theirs. */
    method RefreshGhost(kind: Kind, cast: nat, cached: Option<(Hash, nat)>) returns (r: Option<(Hash, nat)>)
      requires Sound() || Plain()
      requires cast == View().Of(kind).weight && cached == Blocks().Ghost(kind)
      ensures Sound() ==>
                && Backed(View(), graph.entries, Blocks().WithGhost(kind, r))
                && Refreshed(View(), graph.entries, kind, cached, r)
                && (cached.Some? ==> r.Some? && AtOrBelow(chain, cached.value.0, r.value.0))
      ensures Plain() ==> (r.Some? <==> BaseReaches(View(), kind))
    {
      r := cached;
      if cast >= voters.threshold {
        ThresholdMonotone(kind, equivocators, voters);
        if Sound() {
          NumbersOf(View(), graph.entries, Blocks());
        }
        r := FindGhost(graph, cached, ReachesThreshold(kind, equivocators, voters));
        if Sound() {
          GhostSearched(graph, View(), Blocks(), kind, r);
        }
      } else if Sound() {
        GhostUnchanged(View(), graph.entries, kind, cached);
      }
      if Plain() {
        graph.OpenLoose();
        assert LinkOk(chain, graph.entries, graph.base, graph.base);
        BaseReachesMeans(View(), kind);
      }
    }

    /** Recomputes the prevote-GHOST. */
    method UpdatePrevoteGhost()
      requires Valid()
      modifies this`prevoteGhost
      ensures Valid() && Refreshed(View(), graph.entries, Prevotes, old(prevoteGhost), prevoteGhost)
      ensures old(prevoteGhost).Some? ==>
                prevoteGhost.Some? && AtOrBelow(chain, old(prevoteGhost).value.0, prevoteGhost.value.0)
    {
      Open();
      prevoteGhost := RefreshGhost(Prevotes, prevote.currentWeight, prevoteGhost);
      Close();
    }

    /** Computes and caches the precommit-GHOST. In a bare round there is one exactly when the precommits cast, and
        those at or above the base, reach the threshold. */
    method PrecommitGhost() returns (r: Option<(Hash, nat)>)
      requires Valid() || Bare()
      modifies this`precommitGhost
      ensures r == precommitGhost
      ensures old(Valid()) ==>
                && Valid() && Refreshed(View(), graph.entries, Precommits, old(precommitGhost), r)
                && (old(precommitGhost).Some? ==> r.Some? && AtOrBelow(chain, old(precommitGhost).value.0, r.value.0))
      ensures old(Bare()) ==> (r.Some? <==> BaseReaches(View(), Precommits))
    {
      ghost var bare, exact := Bare(), Valid();
      if bare {
        OpenBare();
      }
      if exact {
        Open();
      }
      precommitGhost := RefreshGhost(Precommits, precommit.currentWeight, precommitGhost);
      if exact {
        Close();
      }
      r := precommitGhost;
    }

    /** Updates the finalized block, the round-estimate and whether the round is completable. */
    method Update()
      requires Valid() || Bare()
      modifies this`finalized, this`estimate, this`completable
      ensures old(Valid()) ==>
                Valid() && Updated(View(), graph.entries, graph.order(graph.heads), prevoteGhost, old(Results()),
                                   Results())
      ensures old(Bare()) ==> Bare()
    {
      ghost var bare, exact := Bare(), Valid();
      if bare {
        OpenBare();
      }
      if exact {
        Open();
      }
      if prevote.currentWeight < voters.threshold || prevoteGhost.None? {
        if exact {
          UpdatedSame(View(), graph.entries, graph.order(graph.heads), prevoteGhost, Results());
        }
      } else if precommit.currentWeight < voters.threshold {
        EarlyEstimate(View(), graph.entries, Blocks());
        UpdatedEarly(View(), graph.entries, graph.order(graph.heads), prevoteGhost, Results());
        estimate := prevoteGhost;
      } else {
        var f, e, done := Conclude(prevoteGhost.value);
        finalized := f;
        estimate := e;
        completable := done;
      }
      if exact {
        Close();
      }
      if bare {
        CloseBare();
      }
    }

    /** The searches of an update, once the precommits have reached the threshold. */
    method Conclude(g: (Hash, nat)) returns (f: Option<(Hash, nat)>, e: Option<(Hash, nat)>, done: bool)
      requires Sound() && prevoteGhost == Some(g) && prevote.currentWeight >= voters.threshold
      requires precommit.currentWeight >= voters.threshold
      ensures Backed(View(), graph.entries, Blocks().(finalized := f, estimate := e))
      ensures Updated(View(), graph.entries, graph.order(graph.heads), Some(g), Results(), (f, e, done))
    {
      LedgerWeights(View());
      ConditionsMonotone(voters, equivocators, View().Cast(Precommits));
      NumbersOf(View(), graph.entries, Blocks());
      var couldReach := CouldReachThreshold(equivocators, voters, totalWeight, precommit.currentWeight);
      ghost var fStart, fCanon, fHashes, eStart, eCanon, eHashes;
      f, fStart, fCanon, fHashes := FindAncestor(graph, g.0, g.1, ReachesThreshold(Precommits, equivocators, voters));
      e, eStart, eCanon, eHashes := FindAncestor(graph, g.0, g.1, couldReach);
      done := false;
      var x := None;
      if e.Some? {
        done := e.value.0 != g.0;
        if !done {
          x := FindGhost(graph, e, couldReach);
          done := x.None? || x.value == g;
        }
      }
      UpdateMeans(graph, View(), Blocks(), g, f, fStart, fCanon, fHashes, e, eStart, eCanon, eHashes, x, done,
                  Results());
    }
  }
}
