/** One round of a voter: when it prevotes and precommits, and what it reports as finalized. */
module VotingRounds {
  import opened Wrappers
  import opened BlockTree

  type Block = (Hash, nat)

  /** What a round publishes about its votes. */
  datatype RoundView = RoundView(prevoteGhost: Option<Block>, finalized: Option<Block>, estimate: Option<Block>,
                                 completable: bool)

  const EMPTY := RoundView(None, None, None, false)

  /** A completable round has an estimate. */
  predicate Sane(view: RoundView) {
    view.completable ==> view.estimate.Some?
  }

  /** What more votes can make of a view: an estimate does not disappear, and a completable round goes on having one. */
  ghost predicate Follows(before: RoundView, after: RoundView) {
    (before.estimate.Some? ==> after.estimate.Some?) && (Sane(before) ==> Sane(after))
  }

  /** What incoming votes do to a view. */
  ghost predicate IsChange(f: RoundView -> RoundView) {
    forall view :: Follows(view, f(view))
  }

  datatype Stage = Start | Prevoted | Precommitted {
    function Rank(): nat {
      match this case Start => 0 case Prevoted => 1 case Precommitted => 2
    }
  }

  datatype Cast = Prevote(target: Block) | Precommit(target: Block, estimate: Block)

  /** A block reported as finalized by a round. */
  datatype Finalized = Finalized(hash: Hash, number: nat, round: nat)

  /** What a poll meets: both rounds of incoming messages, the timers, the best chain above the prior estimate, and
      whether the outgoing messages could be flushed. */
  datatype PollInput = PollInput(first: RoundView -> RoundView, second: RoundView -> RoundView, prevoteTimer: bool,
                                 precommitTimer: bool, bestChain: Option<Block>, flushed: bool) {
    ghost predicate Fits() {
      IsChange(first) && IsChange(second)
    }
  }

  /** Where a round reads the state of the prior one: nowhere, in a state given at the start, or in a running round. */
  datatype Prior = Unknown | Given(state: RoundView) | Of(round: VotingRound)

  /** At most one prevote, then at most one precommit at or above the estimate of the prior round. */
  ghost predicate CastOk(c: Chain, stage: Stage, cast: seq<Cast>) {
    match stage
    case Start => cast == []
    case Prevoted => cast == [] || (|cast| == 1 && cast[0].Prevote?)
    case Precommitted =>
      && 1 <= |cast| <= 2 && (|cast| == 2 ==> cast[0].Prevote?)
      && Last(cast).Precommit? && AtOrBelow(c, Last(cast).estimate.0, Last(cast).target.0)
  }

  /** Votes are only added, stages only move on, and there is no prevote once that stage is over. */
  ghost predicate Continues(stage: Stage, cast: seq<Cast>, stage': Stage, cast': seq<Cast>) {
    && cast <= cast' && stage.Rank() <= stage'.Rank()
    && (stage != Start && cast == [] && cast' != [] ==> cast'[0].Precommit?)
  }

  /** So nobody votes twice: after the prevote only a precommit is cast, and after that nothing. */
  lemma NoSecondVote(c: Chain, stage: Stage, cast: seq<Cast>, stage': Stage, cast': seq<Cast>)
    requires CastOk(c, stage, cast) && CastOk(c, stage', cast') && Continues(stage, cast, stage', cast')
    ensures stage == Precommitted ==> stage' == Precommitted && cast' == cast
    ensures stage == Prevoted ==> |cast'| <= |cast| + 1 && forall i | |cast| <= i < |cast'| :: cast'[i].Precommit?
  {
  }

  /** The stage and all votes cast after seeing `seen`, against the estimate of the prior round. The prevote stage ends
      with its timer or once the round is completable, with a prevote for the best chain if there is one. A precommit to
      the prevote-GHOST follows once that is at or above the estimate, with its timer or once the round is
      completable. */
  ghost function VotesDue(c: Chain, stage: Stage, cast: seq<Cast>, seen: RoundView, estimate: Block,
                          prevoteTimer: bool, precommitTimer: bool, bestChain: Option<Block>): (Stage, seq<Cast>) {
    var prevoted := stage != Start || prevoteTimer || seen.completable;
    var precommits :=
      && stage != Precommitted && prevoted && (precommitTimer || seen.completable)
      && seen.prevoteGhost.Some? && AtOrBelow(c, estimate.0, seen.prevoteGhost.value.0);
    (if precommits || stage == Precommitted then Precommitted else if prevoted then Prevoted else Start,
     cast + (if stage == Start && prevoted && bestChain.Some? then [Prevote(bestChain.value)] else [])
     + (if precommits then [Precommit(seen.prevoteGhost.value, estimate)] else []))
  }

  /** What a round has received when a poll is over. */
  ghost function Received(votes: RoundView, input: PollInput): RoundView {
    if input.flushed then input.second(input.first(votes)) else input.first(votes)
  }

  /** A poll that starts from these votes finds the round completable, and all messages flushed. */
  ghost predicate Completes(votes: RoundView, input: PollInput) {
    input.flushed && Received(votes, input).completable
  }

  /** What a round reports as finalized in a poll, given its votes before and its stage after. */
  ghost function ReportOf(number: nat, before: RoundView, stage: Stage, input: PollInput): seq<Finalized> {
    var after := Received(before, input);
    if Completes(before, input) && before.finalized != after.finalized && after.finalized.Some? && stage == Precommitted
    then [Finalized(after.finalized.value.0, after.finalized.value.1, number)] else []
  }

  class VotingRound {
    const number: nat
    const base: Block
    const chain: Chain
    var votes: RoundView
    var stage: Stage
    var last: Prior
    var bridged: bool             // whether the next round reads `shared`
    var shared: RoundView
    var cast: seq<Cast>
    var bestFinalized: Option<Block>
    ghost var estimates: set<Block>  // every estimate shared so far

    constructor (number: nat, base: Block, last: Prior, chain: Chain)
      ensures this.number == number && this.base == base && this.chain == chain && this.last == last && votes == EMPTY
      ensures stage == Start && cast == [] && bestFinalized == None && !bridged && estimates == {} && Valid()
    {
      this.number, this.base, this.chain, this.last, votes := number, base, chain, last, EMPTY;
      stage, cast, bestFinalized, bridged, shared, estimates := Start, [], None, false, EMPTY, {};
    }

    ghost predicate Valid() reads this {
      && CastOk(chain, stage, cast) && (bestFinalized.Some? ==> stage == Precommitted)
      && Sane(votes) && (bridged ==> votes.estimate.Some? && Shares(shared))
    }

    ghost predicate Shares(state: RoundView) reads this {
      state.estimate.Some? && state.estimate.value in estimates
    }

    /** The precommit, once cast, was cast against one of these estimates. */
    ghost predicate Against(estimates: set<Block>) reads this {
      stage == Precommitted && cast != [] && Last(cast).Precommit? ==> Last(cast).estimate in estimates
    }

    /** The round has gone on: it forgets no vote cast and takes no stage twice, reads the prior round it read and goes
        on sharing its state, and its estimate does not disappear. */
    twostate predicate GoesOn() reads this {
      && Continues(old(stage), old(cast), stage, cast) && (old(last) != Unknown ==> last == old(last))
      && (old(bridged) ==> bridged) && old(estimates) <= estimates && Follows(old(votes), votes)
    }

    /** The prior round, where it is at hand, is the one before and shares its state, which has an estimate. */
    ghost predicate Linked()
      reads this, if last.Of? then {last.round} else {}
    {
      match last
      case Unknown => true
      case Given(state) => state.estimate.Some?
      case Of(round) => round.Valid() && round.bridged && round.number + 1 == number
    }

    function LastState(): (r: RoundView)
      requires Linked() && last != Unknown
      reads this, if last.Of? then {last.round} else {}
      ensures r.estimate.Some?
    {
      match last case Given(state) => state case Of(round) => round.shared
    }

    /** A precommit cast just now was cast against the estimate that the prior round shares. */
    twostate predicate CastAgainst() reads this`stage, this`cast {
      stage != old(stage) && stage == Precommitted ==>
        && cast != [] && Last(cast).Precommit? && old(last != Unknown && Linked())
        && Last(cast).estimate == old(LastState()).estimate.value
    }

    twostate predicate Voted(new seen: RoundView, new estimate: Block, new input: PollInput)
      reads this`stage, this`cast
    {
      (stage, cast) == VotesDue(chain, old(stage), old(cast), seen, estimate, input.prevoteTimer, input.precommitTimer,
                                input.bestChain)
    }

    /** Shares the state with the round after. */
    method BridgeState()
      requires Valid() && votes.completable
      modifies this`bridged, this`shared, this`estimates
      ensures Valid() && bridged && shared == votes && estimates == old(estimates) + {votes.estimate.value}
    {
      bridged, shared := true, votes;
      estimates := estimates + {votes.estimate.value};
    }

    /** Once the timer has fired or the round is completable, moves on; casts a vote unless the block has
        disappeared. */
    method CastPrevote(prior: RoundView, timer: bool, bestChain: Option<Block>)
      requires Valid() && prior.estimate.Some?
      modifies this`stage, this`cast
      ensures Valid()
      ensures old(stage) == Start && (timer || votes.completable) ==>
                stage == Prevoted && cast == old(cast) + if bestChain.Some? then [Prevote(bestChain.value)] else []
      ensures !(old(stage) == Start && (timer || votes.completable)) ==> stage == old(stage) && cast == old(cast)
    {
      if stage == Start {
        if timer || votes.completable {
          if bestChain.Some? {
            cast := cast + [Prevote(bestChain.value)];
          }
          stage := Prevoted;
        }
      }
    }

    /** Waits until the prior round's estimate is at or below the prevote-GHOST, then precommits to the GHOST. */
    method CastPrecommit(prior: RoundView, timer: bool)
      requires Valid() && prior.estimate.Some?
      modifies this`stage, this`cast
      ensures Valid()
      ensures stage != old(stage) <==>
                && old(stage) == Prevoted && votes.prevoteGhost.Some? && (timer || votes.completable)
                && AtOrBelow(chain, prior.estimate.value.0, votes.prevoteGhost.value.0)
      ensures stage != old(stage) ==>
                stage == Precommitted && cast == old(cast) + [Precommit(votes.prevoteGhost.value, prior.estimate.value)]
      ensures stage == old(stage) ==> cast == old(cast)
    {
      if stage == Prevoted {
        var estimate := prior.estimate.value;
        var above := match votes.prevoteGhost
          case None => false
          case Some(g) => g == estimate || IsEqualOrDescendentOf(chain, estimate.0, g.0);
        if above && (timer || votes.completable) {
          cast := cast + [Precommit(ConstructPrecommit(), estimate)];
          stage := Precommitted;
        }
      }
    }

    function ConstructPrecommit(): Block reads this {
      match votes.prevoteGhost case Some(g) => g case None => base
    }

    /** Shares a new state, and reports a newly finalized block once the round is completable and all votes have been
        cast. */
    method Notify(before: RoundView) returns (r: Option<Finalized>)
      requires Valid()
      modifies this`bestFinalized, this`shared, this`estimates
      ensures Valid()
      ensures r.Some? <==>
                && before.finalized != votes.finalized && votes.completable && stage == Precommitted
                && votes.finalized.Some?
      ensures r.Some? ==>
                && r == Some(Finalized(votes.finalized.value.0, votes.finalized.value.1, number))
                && bestFinalized == votes.finalized
      ensures r.None? ==> bestFinalized == old(bestFinalized)
      ensures shared == if bridged && before != votes then votes else old(shared)
      ensures estimates == old(estimates) + if bridged && before != votes then {votes.estimate.value} else {}
    {
      r := None;
      if before == votes {
        return;
      }
      if bridged {
        shared := votes;
        estimates := estimates + {votes.estimate.value};
      }
      if before.finalized != votes.finalized && votes.completable {
        if stage == Precommitted && votes.finalized.Some? {
          r := Some(Finalized(votes.finalized.value.0, votes.finalized.value.1, number));
          bestFinalized := votes.finalized;
        }
      }
    }

    /** Casts the votes that are due, as the prior round's state is. */
    method CastVotes(prior: RoundView, input: PollInput)
      requires Valid() && prior.estimate.Some?
      modifies this`stage, this`cast
      ensures Valid() && Continues(old(stage), old(cast), stage, cast) && Voted(votes, prior.estimate.value, input)
    {
      CastPrevote(prior, input.prevoteTimer, input.bestChain);
      ghost var first := cast;
      CastPrecommit(prior, input.precommitTimer);
      assert old(cast) + [] == old(cast) && first + [] == first;
    }

    /** Takes in what has come, and casts the votes that are due if the prior round is known. */
    method VoteNow(input: PollInput)
      requires Valid() && Linked() && input.Fits()
      modifies this`votes, this`stage, this`cast
      ensures Valid() && Linked() && votes == input.first(old(votes))
      ensures Continues(old(stage), old(cast), stage, cast) && CastAgainst()
      ensures last != Unknown ==> Voted(votes, old(LastState()).estimate.value, input)
      ensures last == Unknown ==> cast == old(cast) && stage == old(stage)
    {
      votes := input.first(votes);
      if last != Unknown {
        CastVotes(LastState(), input);
      }
    }

    /** What comes in once the outgoing messages are flushed, and what is reported and shared then. */
    method Conclude(before: RoundView, input: PollInput) returns (ready: bool, r: Option<Finalized>)
      requires Valid() && Linked() && input.Fits() && votes == input.first(before)
      modifies this`votes, this`bestFinalized, this`shared, this`estimates
      ensures Valid() && Linked() && old(estimates) <= estimates
      ensures votes == Received(before, input) && (ready <==> Completes(before, input))
      ensures (if r.Some? then [r.value] else []) == ReportOf(number, before, stage, input)
      ensures bestFinalized == (if r.Some? then votes.finalized else old(bestFinalized))
      ensures shared == if bridged && input.flushed && before != votes then votes else old(shared)
    {
      if !input.flushed {
        return false, None;
      }
      votes := input.second(votes);
      r := Notify(before);
      ready := votes.completable;
    }

    /** A poll: votes come in, votes are cast, and the outcome is reported. Ready once completable and flushed. */
    method Poll(input: PollInput) returns (ready: bool, r: Option<Finalized>)
      requires Valid() && Linked() && input.Fits()
      modifies this`votes, this`stage, this`cast, this`bestFinalized, this`shared, this`estimates
      ensures Valid() && Linked() && GoesOn() && CastAgainst()
      ensures last != Unknown ==> Voted(input.first(old(votes)), old(LastState()).estimate.value, input)
      ensures last == Unknown ==> cast == old(cast) && stage == old(stage)
      ensures votes == Received(old(votes), input) && (ready <==> Completes(old(votes), input))
      ensures (if r.Some? then [r.value] else []) == ReportOf(number, old(votes), stage, input)
      ensures bestFinalized == (if r.Some? then votes.finalized else old(bestFinalized))
      ensures shared == if bridged && input.flushed && old(votes) != votes then votes else old(shared)
    {
      var before := votes;
      VoteNow(input);
      ready, r := Conclude(before, input);
    }
  }
}
