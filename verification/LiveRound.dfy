/** A voter's round with the votes behind it: what incoming messages do to a round of votes is what its polls rely on,
    and what it precommits to and reports as finalized has the votes for it. */
module LiveRounds {
  import opened Wrappers
  import opened BlockTree
  import opened Voters
  import opened BallotBox
  import opened Tally
  import opened Tracker
  import opened VoteGraphs
  import opened RoundState
  import opened Rounds
  import opened RoundCompletion
  import opened VotingRounds

  /** A vote with everybody who signed it. */
  datatype Message = Message(kind: Kind, vote: Vote, signers: seq<(Id, Signature)>)

  /** What a round of votes publishes. */
  function StateOf(votes: Round): RoundView reads votes {
    RoundView(votes.prevoteGhost, votes.finalized, votes.estimate, votes.completable)
  }

  // ---- Importing votes ----

  /** A known voter's first vote of a kind is off the base. */
  ghost predicate Off(l: Ledger, kind: Kind, vote: Vote, id: Id) {
    id in l.voters.weights && id !in l.Of(kind).votes && !AtOrBelow(l.chain, l.base, vote.targetHash)
  }

  ghost function EnteredBy(l: Ledger, kind: Kind, vote: Vote, signers: seq<(Id, Signature)>): Ledger {
    if signers == [] then l
    else Entered(EnteredBy(l, kind, vote, signers[..|signers| - 1]), kind, Last(signers).0, (vote, Last(signers).1))
  }

  /** The votes after these messages; those for blocks off the base are ignored. */
  ghost function Taken(l: Ledger, messages: seq<Message>): Ledger {
    if messages == [] then l
    else
      var before, m := Taken(l, messages[..|messages| - 1]), Last(messages);
      if AtOrBelow(l.chain, l.base, m.vote.targetHash) then EnteredBy(before, m.kind, m.vote, m.signers) else before
  }

  lemma EnteredKeepsBase(l: Ledger, kind: Kind, id: Id, vote: SignedVote)
    ensures var l' := Entered(l, kind, id, vote); l'.voters == l.voters && l'.chain == l.chain && l'.base == l.base
  {
    if id in l.voters.weights {
      EnteredVotes(l, kind, id, vote);
    }
  }

  lemma TrackedOnBase(vs: VoterSet, c: Chain, base: Hash, votes: map<Id, VoteMultiplicity>, id: Id, vote: SignedVote)
    requires vs.Valid() && id in vs.weights && AllOn(c, base, BallotsOf(vs, votes))
    requires id in votes || AtOrBelow(c, base, vote.0.targetHash)
    ensures AllOn(c, base, BallotsOf(vs, WithVote(votes, id, vote)))
  {
    match NewMultiplicity(votes, id, vote) {
      case None =>
      case Some(Single(_)) => FirstVoteBallots(vs, votes, id, vote);
      case Some(Equivocated(_, _)) => SecondVoteBallots(vs, votes, id, vote);
    }
  }

  /** Votes on the base stay there. */
  lemma EnteredOnBase(l: Ledger, kind: Kind, id: Id, vote: SignedVote)
    requires Books(l) && OnBase(l) && !Off(l, kind, vote.0, id)
    ensures OnBase(Entered(l, kind, id, vote))
  {
    if id in l.voters.weights {
      EnteredVotes(l, kind, id, vote);
      LedgerWeights(l);
      if kind == Precommits {
        TrackedOnBase(l.voters, l.chain, l.base, l.precommits.votes, id, vote);
      }
    }
  }

  method AddPrevote(votes: Round, c: Chain, vote: Vote, id: Id, signature: Signature) returns (ok: bool)
    requires votes.Valid() && c == votes.chain && GoodTarget(c, vote)
    modifies votes, votes.graph, votes.prevote
    ensures votes.Valid() && votes.View() == Entered(old(votes.View()), Prevotes, id, (vote, signature))
    ensures ok <==> !Off(old(votes.View()), Prevotes, vote, id)
    ensures ok && OnBase(votes.View()) ==> Follows(old(StateOf(votes)), StateOf(votes))
  {
    var r := votes.ImportPrevote(c, vote, id, signature);
    ok := r.Ok?;
    votes.BooksValid();
    if ok && OnBase(votes.View()) && votes.prevote.votes != old(votes.prevote.votes) {
      UpdateFollows(votes.View(), votes.graph.entries, votes.graph.order(votes.graph.heads), old(votes.prevoteGhost),
                    votes.prevoteGhost, old(votes.Results()), votes.Results());
    }
  }

  method AddPrecommit(votes: Round, c: Chain, vote: Vote, id: Id, signature: Signature) returns (ok: bool)
    requires votes.Valid() && c == votes.chain && GoodTarget(c, vote)
    modifies votes, votes.graph, votes.precommit
    ensures votes.Valid() && votes.View() == Entered(old(votes.View()), Precommits, id, (vote, signature))
    ensures ok <==> !Off(old(votes.View()), Precommits, vote, id)
    ensures ok && OnBase(votes.View()) ==> Follows(old(StateOf(votes)), StateOf(votes))
  {
    var r := votes.ImportPrecommit(c, vote, id, signature);
    ok := r.Ok?;
    votes.BooksValid();
    if ok && OnBase(votes.View()) && votes.precommit.votes != old(votes.precommit.votes) {
      UpdateFollows(votes.View(), votes.graph.entries, votes.graph.order(votes.graph.heads), old(votes.prevoteGhost),
                    votes.prevoteGhost, old(votes.Results()), votes.Results());
    }
  }

  /** A round of votes in order: its precommits are all on the base. */
  ghost predicate Good(votes: Round, c: Chain)
    reads votes, votes.graph, votes.prevote, votes.precommit
  {
    c == votes.chain && GoodBehind(votes, 2)
  }

  ghost predicate GoodBehind(votes: Round, steps: nat)
    reads votes, votes.graph, votes.prevote, votes.precommit
  {
    if steps == 0 then votes.Valid() && OnBase(votes.View()) else GoodBehind(votes, steps - 1)
  }

  lemma OpenGood(votes: Round, c: Chain)
    requires Good(votes, c)
    ensures votes.Valid() && OnBase(votes.View())
  {
    assert GoodBehind(votes, 1);
    assert GoodBehind(votes, 0);
  }

  lemma CloseGood(votes: Round, c: Chain)
    requires votes.Valid() && OnBase(votes.View()) && c == votes.chain
    ensures Good(votes, c)
  {
    assert GoodBehind(votes, 0);
    assert GoodBehind(votes, 1);
  }

  /** A vote makes of what a round publishes what may follow it; it errs exactly when it is off the base. */
  method ImportVote(votes: Round, c: Chain, kind: Kind, vote: Vote, id: Id, signature: Signature) returns (ok: bool)
    requires Good(votes, c) && GoodTarget(c, vote)
    modifies votes, votes.graph, votes.prevote, votes.precommit
    ensures votes.View() == Entered(old(votes.View()), kind, id, (vote, signature))
    ensures ok <==> !Off(old(votes.View()), kind, vote, id)
    ensures ok ==> Good(votes, c) && Follows(old(StateOf(votes)), StateOf(votes))
  {
    OpenGood(votes, c);
    votes.BooksValid();
    ghost var l := votes.View();
    if !Off(l, kind, vote, id) {
      EnteredOnBase(l, kind, id, (vote, signature));
    }
    if kind == Prevotes {
      ok := AddPrevote(votes, c, vote, id, signature);
    } else {
      ok := AddPrecommit(votes, c, vote, id, signature);
    }
    if ok {
      CloseGood(votes, c);
    }
  }

  /** One vote on the base, of everybody who signed it. */
  method ImportMessage(votes: Round, c: Chain, m: Message)
    requires Good(votes, c) && GoodTarget(c, m.vote) && AtOrBelow(c, votes.graph.base, m.vote.targetHash)
    modifies votes, votes.graph, votes.prevote, votes.precommit
    ensures Good(votes, c) && votes.View() == EnteredBy(old(votes.View()), m.kind, m.vote, m.signers)
    ensures votes.graph.base == old(votes.graph.base) && Follows(old(StateOf(votes)), StateOf(votes))
  {
    for i := 0 to |m.signers|
      invariant Good(votes, c) && votes.View() == EnteredBy(old(votes.View()), m.kind, m.vote, m.signers[..i])
      invariant votes.graph.base == old(votes.graph.base) && Follows(old(StateOf(votes)), StateOf(votes))
    {
      assert m.signers[..i + 1][..i] == m.signers[..i];
      EnteredKeepsBase(votes.View(), m.kind, m.signers[i].0, (m.vote, m.signers[i].1));
      var ok := ImportVote(votes, c, m.kind, m.vote, m.signers[i].0, m.signers[i].1);
      assert ok;
    }
    assert m.signers[..|m.signers|] == m.signers;
  }

  /** All messages at hand: none errs, and what the round publishes changes as it may. */
  method ProcessIncoming(votes: Round, c: Chain, messages: seq<Message>) returns (change: RoundView -> RoundView)
    requires Good(votes, c) && forall m | m in messages :: GoodTarget(c, m.vote)
    modifies votes, votes.graph, votes.prevote, votes.precommit
    ensures Good(votes, c) && votes.View() == Taken(old(votes.View()), messages)
    ensures IsChange(change) && change(old(StateOf(votes))) == StateOf(votes)
  {
    var before := StateOf(votes);
    ghost var base := votes.graph.base;
    for i := 0 to |messages|
      invariant Good(votes, c) && votes.View() == Taken(old(votes.View()), messages[..i]) && votes.graph.base == base
      invariant Follows(before, StateOf(votes))
    {
      assert messages[..i + 1][..i] == messages[..i];
      var m := messages[i];
      if IsEqualOrDescendentOf(c, votes.graph.base, m.vote.targetHash) {
        ImportMessage(votes, c, m);
      }
    }
    assert messages[..|messages|] == messages;
    change := ChangeTo(before, StateOf(votes));
  }

  function ChangeTo(before: RoundView, after: RoundView): (f: RoundView -> RoundView)
    requires Follows(before, after)
    ensures IsChange(f) && f(before) == after
  {
    view => if view == before then after else view
  }

  ghost function Committed(l: Ledger, precommits: seq<(Vote, Id, Signature)>): Ledger {
    if precommits == [] then l
    else
      var (vote, id, signature) := Last(precommits);
      Entered(Committed(l, precommits[..|precommits| - 1]), Precommits, id, (vote, signature))
  }

  /** None of the precommits is a known voter's first and off the base. */
  ghost predicate NoneOff(l: Ledger, precommits: seq<(Vote, Id, Signature)>) {
    precommits == [] ||
    var init, (vote, id, _) := precommits[..|precommits| - 1], Last(precommits);
    NoneOff(l, init) && !Off(Committed(l, init), Precommits, vote, id)
  }

  lemma {:induction false} NoneOffBefore(l: Ledger, precommits: seq<(Vote, Id, Signature)>, n: nat)
    requires n <= |precommits| && NoneOff(l, precommits)
    ensures NoneOff(l, precommits[..n])
  {
    if n < |precommits| {
      NoneOffBefore(l, precommits[..|precommits| - 1], n);
      assert precommits[..|precommits| - 1][..n] == precommits[..n];
    } else {
      assert precommits[..n] == precommits;
    }
  }

  /** The precommits of a valid commit: the import errs exactly when it comes to one that is off the base. */
  method ImportCommit(votes: Round, c: Chain, precommits: seq<(Vote, Id, Signature)>)
    returns (change: Option<RoundView -> RoundView>)
    requires Good(votes, c) && forall p | p in precommits :: GoodTarget(c, p.0)
    modifies votes, votes.graph, votes.prevote, votes.precommit
    ensures change.Some? ==>
              && Good(votes, c) && votes.View() == Committed(old(votes.View()), precommits)
              && IsChange(change.value) && change.value(old(StateOf(votes))) == StateOf(votes)
    ensures change.Some? <==> NoneOff(old(votes.View()), precommits)
  {
    var before := StateOf(votes);
    for i := 0 to |precommits|
      invariant Good(votes, c) && votes.View() == Committed(old(votes.View()), precommits[..i])
      invariant Follows(before, StateOf(votes)) && NoneOff(old(votes.View()), precommits[..i])
    {
      var (vote, id, signature) := precommits[i];
      assert precommits[i] in precommits;
      assert precommits[..i + 1][..i] == precommits[..i];
      var ok := ImportVote(votes, c, Precommits, vote, id, signature);
      if !ok {
        if NoneOff(old(votes.View()), precommits) {
          NoneOffBefore(old(votes.View()), precommits, i + 1);
        }
        return None;
      }
    }
    assert precommits[..|precommits|] == precommits;
    change := Some(ChangeTo(before, StateOf(votes)));
  }

  // ---- A round with its votes ----

  /** What is published has the votes for it. */
  lemma PublishedHasVotes(votes: Round)
    requires Good(votes, votes.chain)
    ensures var l := votes.View();
      && (votes.prevoteGhost.Some? ==> HasPrevotes(l, votes.prevoteGhost.value.0))
      && (votes.finalized.Some? ==> HasPrecommits(l, votes.finalized.value.0))
  {
    OpenGood(votes, votes.chain);
    votes.Open();
    OpenBacked(votes.View(), votes.graph.entries, votes.Blocks());
  }

  ghost predicate HasPrevotes(l: Ledger, b: Hash) {
    Supermajority(l.voters, l.chain, l.Cast(Prevotes), b)
  }

  ghost predicate HasPrecommits(l: Ledger, b: Hash) {
    Supermajority(l.voters, l.chain, l.Cast(Precommits), b)
  }

  class LiveRound {
    const voting: VotingRound
    const votes: Round

    /** The voter sees what its votes publish. */
    ghost predicate Valid() reads this, voting, votes, votes.graph, votes.prevote, votes.precommit {
      voting.Valid() && Good(votes, voting.chain) && voting.votes == StateOf(votes)
    }

    constructor (number: nat, base: Block, last: Prior, voters: VoterSet, order: set<Hash> -> seq<Hash>, chain: Chain)
      requires voters.Valid() && IsIteration(order) && base.0 in chain.number && chain.number[base.0] == base.1
      ensures Valid() && fresh(voting) && fresh(votes) && voting.number == number && voting.last == last
      ensures voting.stage == Start && voting.cast == []
    {
      voting := new VotingRound(number, base, last, chain);
      votes := new Round(voters, order, chain, base);
      new;
      CloseGood(votes, chain);
    }

    /** Imports the messages of a poll: what the voter sees before and after its votes are cast, and what has the votes
        for it then. */
    method Receive(first: seq<Message>, second: seq<Message>, flushed: bool)
      returns (change: RoundView -> RoundView, later: RoundView -> RoundView, ghost seen: RoundView)
      requires Good(votes, voting.chain) && forall m | m in first || m in second :: GoodTarget(voting.chain, m.vote)
      modifies votes, votes.graph, votes.prevote, votes.precommit
      ensures Good(votes, voting.chain) && IsChange(change) && IsChange(later)
      ensures votes.View() ==
              (if flushed then Taken(Taken(old(votes.View()), first), second) else Taken(old(votes.View()), first))
      ensures seen == change(old(StateOf(votes))) && StateOf(votes) == (if flushed then later(seen) else seen)
      ensures (seen.prevoteGhost.Some? ==> HasPrevotes(Taken(old(votes.View()), first), seen.prevoteGhost.value.0))
      ensures votes.finalized.Some? ==> HasPrecommits(votes.View(), votes.finalized.value.0)
    {
      change := ProcessIncoming(votes, voting.chain, first);
      PublishedHasVotes(votes);
      seen := StateOf(votes);
      later := ChangeTo(StateOf(votes), StateOf(votes));
      if flushed {
        later := ProcessIncoming(votes, voting.chain, second);
        PublishedHasVotes(votes);
      }
    }

    /** Casts exactly the votes due on `seen`, and reports a block that is newly finalized. */
    twostate predicate Acts(new seen: RoundView, new prevoteTimer: bool, new precommitTimer: bool,
                            new bestChain: Option<Block>, new ready: bool, new r: Option<Finalized>)
      requires old(voting.Linked())
      reads voting
    {
      && (old(voting.last) != Unknown ==>
            (voting.stage, voting.cast) == VotesDue(voting.chain, old(voting.stage), old(voting.cast), seen,
                                                    old(voting.LastState()).estimate.value, prevoteTimer,
                                                    precommitTimer, bestChain))
      && (r.Some? <==>
            && ready && voting.stage == Precommitted && voting.votes.finalized.Some?
            && voting.votes.finalized != old(voting.votes).finalized)
      && (r.Some? ==>
            r.value.round == voting.number && voting.votes.finalized == Some((r.value.hash, r.value.number)))
    }

    method PollWith(change: RoundView -> RoundView, later: RoundView -> RoundView, prevoteTimer: bool,
                    precommitTimer: bool, bestChain: Option<Block>, flushed: bool)
      returns (ready: bool, r: Option<Finalized>)
      requires voting.Valid() && voting.Linked() && IsChange(change) && IsChange(later)
      modifies voting
      ensures voting.Valid() && voting.Linked() && voting.GoesOn() && voting.CastAgainst()
      ensures voting.votes == (if flushed then later(change(old(voting.votes))) else change(old(voting.votes)))
      ensures ready <==> flushed && voting.votes.completable
      ensures Acts(change(old(voting.votes)), prevoteTimer, precommitTimer, bestChain, ready, r)
      ensures voting.stage != old(voting.stage) && voting.stage == Precommitted ==>
                voting.cast != [] && Some(Last(voting.cast).target) == change(old(voting.votes)).prevoteGhost
    {
      ready, r := voting.Poll(PollInput(change, later, prevoteTimer, precommitTimer, bestChain, flushed));
    }

    /** A poll with the messages themselves: exactly the votes due on what is published after the first of them are
        cast. A precommit cast now has a supermajority of the prevotes seen when it is cast, and a block reported as
        finalized one of the precommits. */
    method Poll(first: seq<Message>, second: seq<Message>, prevoteTimer: bool, precommitTimer: bool,
                bestChain: Option<Block>, flushed: bool)
      returns (ready: bool, r: Option<Finalized>, ghost seen: RoundView)
      requires Valid() && voting.Linked()
      requires forall m | m in first || m in second :: GoodTarget(voting.chain, m.vote)
      modifies voting, votes, votes.graph, votes.prevote, votes.precommit
      ensures Valid() && voting.Linked() && voting.GoesOn() && voting.CastAgainst()
      ensures votes.View() ==
              (if flushed then Taken(Taken(old(votes.View()), first), second) else Taken(old(votes.View()), first))
      ensures (ready <==> flushed && votes.completable) && (!flushed ==> seen == StateOf(votes))
      ensures Acts(seen, prevoteTimer, precommitTimer, bestChain, ready, r)
      ensures voting.stage != old(voting.stage) && voting.stage == Precommitted ==>
                voting.cast != [] && HasPrevotes(Taken(old(votes.View()), first), Last(voting.cast).target.0)
      ensures r.Some? ==> HasPrecommits(votes.View(), r.value.hash)
    {
      var change, later, published := Receive(first, second, flushed);
      seen := published;
      ready, r := PollWith(change, later, prevoteTimer, precommitTimer, bestChain, flushed);
    }
  }
}
