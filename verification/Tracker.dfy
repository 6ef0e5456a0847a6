/** Tracking each voter's votes in a round, with equivocations. */
module Tracker {
  import opened Wrappers
  import opened BlockTree
  import opened Voters
  import opened BallotBox

  type Signature = int

  /** A prevote or precommit for a block and its ancestors. */
  datatype Vote = Vote(targetHash: Hash, targetNumber: nat)

  type SignedVote = (Vote, Signature)

  /** The votes of a single voter. */
  datatype VoteMultiplicity = Single(vote: SignedVote) | Equivocated(first: SignedVote, second: SignedVote) {
    predicate Has(v: SignedVote) {
      match this
      case Single(x) => x == v
      case Equivocated(x, y) => x == v || y == v
    }

    function First(): SignedVote {
      match this case Single(x) => x case Equivocated(x, _) => x
    }
  }

  class VoteTracker {
    var votes: map<Id, VoteMultiplicity>
    var currentWeight: nat

    constructor ()
      ensures votes == map[] && currentWeight == 0
    {
      votes := map[];
      currentWeight := 0;
    }

    /** Tracks a vote. Answers the voter's multiplicity if the vote is new and the voter had at most one before. */
    method AddVote(id: Id, vote: SignedVote, weight: nat) returns (r: Option<VoteMultiplicity>)
      modifies this
      ensures votes == WithVote(old(votes), id, vote) && r == NewMultiplicity(old(votes), id, vote)
      ensures currentWeight == old(currentWeight) + if id in old(votes) then 0 else weight
    {
      if id !in votes {
        currentWeight := currentWeight + weight;
        votes := votes[id := Single(vote)];
        return Some(Single(vote));
      }
      if votes[id].Has(vote) {
        return None;
      }
      match votes[id] {
        case Single(first) =>
          votes := votes[id := Equivocated(first, vote)];
          return Some(votes[id]);
        case Equivocated(_, _) =>
          return None;
      }
    }
  }

  /** A first vote, a first equivocation, or nothing new. */
  function NewMultiplicity(votes: map<Id, VoteMultiplicity>, id: Id, vote: SignedVote): Option<VoteMultiplicity> {
    if id !in votes then Some(Single(vote))
    else if votes[id].Single? && votes[id].vote != vote then Some(Equivocated(votes[id].vote, vote))
    else None
  }

  function WithVote(votes: map<Id, VoteMultiplicity>, id: Id, vote: SignedVote): map<Id, VoteMultiplicity> {
    match NewMultiplicity(votes, id, vote)
    case None => votes
    case Some(m) => votes[id := m]
  }

  /** The ballots that a tracker's votes amount to. */
  ghost function BallotsOf(vs: VoterSet, votes: map<Id, VoteMultiplicity>): Ballots {
    Ballots(map i | 0 <= i < |vs.voters| && vs.voters[i].0 in votes :: votes[vs.voters[i].0].First().0.targetHash,
            set i | 0 <= i < |vs.voters| && vs.voters[i].0 in votes && votes[vs.voters[i].0].Equivocated?)
  }

  lemma BallotsWellFormed(vs: VoterSet, votes: map<Id, VoteMultiplicity>)
    ensures WellFormed(vs, BallotsOf(vs, votes))
  {
  }

  lemma OnePosition(vs: VoterSet, id: Id)
    requires vs.Valid() && id in vs.weights
    ensures vs.IndexOk(id) && forall j | 0 <= j < |vs.voters| && j != vs.weights[id].canonIdx :: vs.voters[j].0 != id
  {
    assert vs.IndexOk(id);
    forall j | 0 <= j < |vs.voters| && j != vs.weights[id].canonIdx ensures vs.voters[j].0 != id {
      assert vs.PositionOk(j);
    }
  }

  lemma OnlyFirst(vs: VoterSet, votes: map<Id, VoteMultiplicity>, id: Id, vote: SignedVote)
    requires vs.Valid() && id in vs.weights && id !in votes
    ensures vs.IndexOk(id)
    ensures var s, s', i := BallotsOf(vs, votes), BallotsOf(vs, votes[id := Single(vote)]), vs.weights[id].canonIdx;
      i !in s.first && s'.first == s.first[i := vote.0.targetHash] && s'.double == s.double
  {
    OnePosition(vs, id);
  }

  /** A first vote adds its voter, with its weight, and nothing else. */
  lemma FirstVoteBallots(vs: VoterSet, votes: map<Id, VoteMultiplicity>, id: Id, vote: SignedVote)
    requires vs.Valid() && id in vs.weights && id !in votes
    ensures var s, s', i := BallotsOf(vs, votes), BallotsOf(vs, votes[id := Single(vote)]), vs.weights[id].canonIdx;
      && 0 <= i < |vs.voters| && i !in s.first && s'.first == s.first[i := vote.0.targetHash] && s'.double == s.double
      && CastWeight(vs, s') == CastWeight(vs, s) + vs.weights[id].weight && Extends(s, s')
  {
    var s, s', i := BallotsOf(vs, votes), BallotsOf(vs, votes[id := Single(vote)]), vs.weights[id].canonIdx;
    OnePosition(vs, id);
    OnlyFirst(vs, votes, id, vote);
    assert s'.first.Keys == s.first.Keys + {i};
    SetWeightDisjoint(vs.voters, s.first.Keys, {i});
    SetWeightOne(vs.voters, i);
  }

  /** A second vote only marks its voter as having voted twice. */
  lemma SecondVoteBallots(vs: VoterSet, votes: map<Id, VoteMultiplicity>, id: Id, vote: SignedVote)
    requires vs.Valid() && id in vs.weights && id in votes && votes[id].Single?
    ensures var s, s', i := BallotsOf(vs, votes), BallotsOf(vs, votes[id := Equivocated(votes[id].vote, vote)]),
            vs.weights[id].canonIdx;
      && 0 <= i < |vs.voters| && i in s.first && s'.first == s.first && s'.double == s.double + {i} && Extends(s, s')
  {
    var s, s', i := BallotsOf(vs, votes), BallotsOf(vs, votes[id := Equivocated(votes[id].vote, vote)]),
        vs.weights[id].canonIdx;
    OnePosition(vs, id);
    assert s'.first == s.first;
    assert s'.double == s.double + {i};
  }
}
