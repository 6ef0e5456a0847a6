/** The voter: the best round, a prospective later one, the rounds in the background, and the committer, which
    handles commit messages for them. */
module VoterProtocol {
  import opened Wrappers
  import opened BlockTree
  import opened VotingRounds

  /** A past round, kept until its estimate is finalized. */
  datatype BackgroundRound = BackgroundRound(inner: VotingRound, finalizedNumber: nat)

  /** A past round that commits may still come in for, and the target number of the last one imported. */
  datatype RoundCommitter = RoundCommitter(round: VotingRound, lastCommit: Option<nat>)

  /** An incoming commit: its round, the number of its target, what validation answers, and what importing its
      precommits does to the votes of a running round. */
  datatype CommitIn = CommitIn(round: nat, targetNumber: nat, validated: Option<Block>,
                               imported: RoundView -> RoundView)

  /** What a pass of the voter meets: what its rounds poll, the commits, the timers, and whether the prospective round
      fails. */
  datatype PassInput = PassInput(past: nat -> PollInput, commits: seq<CommitIn>, fired: seq<nat>, failed: bool,
                                 prospective: PollInput, best: PollInput) {
    ghost predicate Fits() {
      && prospective.Fits() && best.Fits()
      && (forall k :: past(k).Fits()) && (forall c | c in commits :: IsChange(c.imported))
    }
  }

  /** What the committer knows of a round: its votes, the target number of the last commit imported, and the block that
      the round has reported last. */
  datatype Committing = Committing(votes: RoundView, lastCommit: Option<nat>, best: Option<Block>)

  /** A poll of a past round: its number, its votes before and its stage after, what it met, and the estimate of the
      prior round that its votes were cast against. */
  datatype PastPoll = PastPoll(number: nat, before: RoundView, stage: Stage, input: PollInput, estimate: Block)

  /** A round before it is polled. */
  datatype Snapshot = Snapshot(votes: RoundView, stage: Stage, cast: seq<Cast>, last: Prior)

  /** What past rounds report, one after the other. */
  ghost function ReportsOf(polls: seq<PastPoll>): seq<Finalized> {
    if polls == [] then []
    else
      var p := Last(polls);
      ReportsOf(polls[..|polls| - 1]) + ReportOf(p.number, p.before, p.stage, p.input)
  }

  lemma ReportsNext(before: seq<Finalized>, polls: seq<PastPoll>, p: PastPoll)
    ensures before + ReportsOf(polls) + ReportOf(p.number, p.before, p.stage, p.input) ==
            before + ReportsOf(polls + [p])
  {
    assert (polls + [p])[..|polls|] == polls;
  }

  /** A voter between passes: number, stage, votes cast and votes received of its best round, what is queued, what has
      been handed out, the last number of that, and the rounds of its committers. */
  datatype VoterState = VoterState(best: nat, stage: Stage, cast: seq<Cast>, votes: RoundView,
                                   notifications: seq<Finalized>, finalizations: seq<nat>, last: nat,
                                   running: set<nat>)

  /** What a pass does to it; unfolded only by `PassesMeans`. */
  ghost predicate Passes(c: Chain, s: VoterState, input: PassInput, s': VoterState, steps: nat := 3) {
    if steps > 0 then Passes(c, s, input, s', steps - 1)
    else exists polls, polled, estimate :: PassesBy(c, s, input, s', polls, polled, estimate)
  }

  lemma PassesMeans(c: Chain, s: VoterState, input: PassInput, s': VoterState)
    ensures Passes(c, s, input, s') <==>
            exists polls, polled, estimate :: PassesBy(c, s, input, s', polls, polled, estimate)
  {
    assert Passes(c, s, input, s', 1) == Passes(c, s, input, s', 0);
    assert Passes(c, s, input, s', 2) == Passes(c, s, input, s', 1);
  }

  ghost predicate PassesBy(c: Chain, s: VoterState, input: PassInput, s': VoterState, polls: seq<PastPoll>,
                           polled: bool, estimate: Block) {
    var (stage, cast) := VotesDue(c, s.stage, s.cast, input.best.first(s.votes), estimate, input.best.prevoteTimer,
                                  input.best.precommitTimer, input.best.bestChain);
    && (forall k | 0 <= k < |polls| :: polls[k].input == input.past(k))
    && s'.finalizations == s.finalizations +
                           Raised(Numbers(s.notifications + ReportsOf(polls))
                                  + ForeignNumbers(s.running, input.commits), s.last)
    && s'.notifications == (if polled then ReportOf(s.best, s.votes, stage, input.best) else [])
    && s.best <= s'.best && (!polled ==> s.best < s'.best)
    && (s'.best == s.best ==>
          s'.stage == stage && s'.cast == cast && s'.votes == Received(s.votes, input.best)
          && !(Completes(s.votes, input.best) && stage == Precommitted))
  }

  lemma PassedBy(c: Chain, s: VoterState, input: PassInput, s': VoterState, polls: seq<PastPoll>, estimate: Block,
                 stage: Stage, cast: seq<Cast>)
    requires (stage, cast) == VotesDue(c, s.stage, s.cast, input.best.first(s.votes), estimate, input.best.prevoteTimer,
                                       input.best.precommitTimer, input.best.bestChain)
    requires forall k | 0 <= k < |polls| :: polls[k].input == input.past(k)
    requires s'.finalizations == s.finalizations +
                                 Raised(Numbers(s.notifications + ReportsOf(polls))
                                        + ForeignNumbers(s.running, input.commits), s.last)
    requires s'.notifications == ReportOf(s.best, s.votes, stage, input.best) && s.best <= s'.best
    requires s'.best == s.best ==>
               s'.stage == stage && s'.cast == cast && s'.votes == Received(s.votes, input.best)
               && !(Completes(s.votes, input.best) && stage == Precommitted)
    ensures Passes(c, s, input, s')
  {
    assert PassesBy(c, s, input, s', polls, true, estimate);
    PassesMeans(c, s, input, s');
  }

  /** Each pass leads from one state to the next. */
  ghost predicate IsTrace(c: Chain, inputs: seq<PassInput>, trace: seq<VoterState>) {
    && |trace| == |inputs| + 1
    && (inputs == [] ||
        (IsTrace(c, inputs[..|inputs| - 1], trace[..|inputs|]) &&
         Passes(c, trace[|inputs| - 1], Last(inputs), trace[|inputs|])))
  }

  lemma TraceNext(c: Chain, inputs: seq<PassInput>, i: nat, trace: seq<VoterState>, s: VoterState)
    requires i < |inputs| && IsTrace(c, inputs[..i], trace) && Passes(c, trace[i], inputs[i], s)
    ensures IsTrace(c, inputs[..i + 1], trace + [s])
  {
    assert inputs[..i + 1][..i] == inputs[..i] && (trace + [s])[..i + 1] == trace;
  }

  ghost predicate Increasing(s: seq<nat>) {
    forall i, j | 0 <= i < j < |s| :: s[i] < s[j]
  }

  /** Past rounds are kept in the order of their numbers. */
  ghost predicate Ascending(past: seq<BackgroundRound>) {
    forall i, j | 0 <= i < j < |past| :: past[i].inner.number < past[j].inner.number
  }

  lemma KeepOne(todo: seq<BackgroundRound>, kept: seq<BackgroundRound>, i: nat)
    requires i < |todo| && Ascending(todo) && Ascending(kept) && forall b | b in kept :: b in todo[..i]
    ensures Ascending(kept + [todo[i]]) && todo[..i + 1] == todo[..i] + [todo[i]] && todo[i] !in kept
  {
    forall k | 0 <= k < |kept| ensures kept[k].inner.number < todo[i].inner.number {
      assert kept[k] in todo[..i];
    }
  }

  lemma PastNext(past: seq<BackgroundRound>, former: VotingRound)
    requires Ascending(past) && forall b | b in past :: b.inner.number < former.number
    ensures Ascending(past + [BackgroundRound(former, 0)])
  {
  }

  lemma BestsNext(bests: seq<nat>, number: nat)
    requires Increasing(bests) && bests != [] && Last(bests) < number
    ensures Increasing(bests + [number]) && Last(bests + [number]) == number
  {
  }

  /** The round's estimate is finalized. */
  ghost predicate IsDone(b: BackgroundRound) reads b.inner {
    b.inner.votes.estimate.Some? && b.inner.votes.estimate.value.1 <= b.finalizedNumber
  }

  class Voter {
    const chain: Chain
    var best: VotingRound
    var prospective: Option<VotingRound>
    var past: seq<BackgroundRound>
    var committing: map<nat, RoundCommitter>
    var outgoing: seq<(nat, Block)>          // commits to broadcast
    var notifications: seq<Finalized>        // blocks finalized by rounds, not handled yet
    var lastFinalizedNumber: nat             // shared by the rounds' and the committer's paths
    var lastFinalizedInRounds: Block
    ghost var rounds: set<VotingRound>       // every round so far
    ghost var voting: map<nat, VotingRound>  // the round that may vote under each number
    ghost var top: nat                       // no round above this number may vote yet
    ghost var bests: seq<nat>                // the numbers of all best rounds so far
    ghost var finalizations: seq<nat>        // the numbers of all blocks handed to `finalize_block` so far

    /** Every round casts its votes as it should, and the prior state it reads is that of the round before. Without one
        it casts nothing; with one it precommits against an estimate that the prior round has shared. */
    ghost predicate RoundsOk() reads this`rounds, rounds {
      forall r | r in rounds :: r.chain == chain && r.Valid() && PriorOk(r)
    }

    ghost predicate PriorOk(r: VotingRound)
      requires r in rounds
      reads this`rounds, rounds
    {
      match r.last
      case Unknown => r.stage == Start
      case Given(state) => state.estimate.Some? && r.Against({state.estimate.value})
      case Of(round) =>
        round in rounds && round.bridged && round.number + 1 == r.number && r.Against(round.estimates)
    }

    /** Every round so far is still there and has gone on. */
    twostate predicate Remembers() reads this`rounds, rounds {
      old(rounds) <= rounds && forall r | r in old(rounds) :: r.GoesOn()
    }

    /** A change to one round that leaves it in order, and sharing its state if it was, concerns no other. */
    twostate lemma StillOk(round: VotingRound)
      requires old(RoundsOk()) && rounds == old(rounds) && round in rounds && round.Valid() && PriorOk(round)
      requires forall r | r in rounds && r != round :: unchanged(r)
      requires (old(round.bridged) ==> round.bridged) && old(round.estimates) <= round.estimates
      ensures RoundsOk()
    {
      forall r | r in rounds ensures r.chain == chain && r.Valid() && PriorOk(r) {
        assert old(PriorOk(r));
      }
    }

    /** The prospective round is ahead of the best one, all others are behind it. */
    ghost predicate Ordered() reads this`best, this`prospective, this`past, this`committing, this`rounds {
      && best in rounds
      && (prospective.Some? ==> prospective.value in rounds && prospective.value.number > best.number)
      && (forall b | b in past :: b.inner in rounds && b.inner.number < best.number)
      && Ascending(past)
      && (forall k | k in committing ::
            committing[k].round in rounds && k == committing[k].round.number && k < best.number)
    }

    /** Best rounds and finalized blocks only ever go up. */
    ghost predicate History() reads this`best, this`bests, this`lastFinalizedNumber, this`finalizations {
      && Increasing(bests) && bests != [] && Last(bests) == best.number
      && Increasing(finalizations) && (finalizations != [] ==> Last(finalizations) <= lastFinalizedNumber)
    }

    /** The prospective round does not know the state of the one before; the best round does. */
    ghost predicate Detached() reads this`best, this`prospective, this`rounds, rounds {
      && best in rounds && best.last != Unknown
      && (prospective.Some? ==> prospective.value in rounds && prospective.value.last == Unknown)
    }

    /** Under each number at most one round may vote. */
    ghost predicate Unique() reads this`best, this`rounds, this`voting, this`top, rounds {
      && (forall r | r in rounds && r.last != Unknown :: r.number in voting && voting[r.number] == r)
      && (forall k | k in voting :: k <= top) && best.number <= top
    }

    ghost predicate Sound()
      reads this`best, this`prospective, this`past, this`committing, this`rounds, this`voting, this`top, this`bests,
            this`lastFinalizedNumber, this`finalizations, rounds
    {
      RoundsOk() && Ordered() && Detached() && Unique() && History()
    }

    /** No round after the best one may vote yet. */
    ghost predicate Level() reads this`best, this`top {
      top == best.number
    }

    /** `Sound`, carried as a single fact. */
    ghost predicate Valid()
      reads this`best, this`prospective, this`past, this`committing, this`rounds, this`voting, this`top, this`bests,
            this`lastFinalizedNumber, this`finalizations, rounds
    {
      Behind(2)
    }

    ghost predicate Behind(steps: nat)
      reads this`best, this`prospective, this`past, this`committing, this`rounds, this`voting, this`top, this`bests,
            this`lastFinalizedNumber, this`finalizations, rounds
    {
      if steps == 0 then Sound() else Behind(steps - 1)
    }

    lemma Open()
      requires Valid()
      ensures Sound()
    {
      assert Behind(1);
      assert Behind(0);
    }

    lemma Close()
      requires Sound()
      ensures Valid()
    {
      assert Behind(0);
      assert Behind(1);
    }

    /** What holds at any moment of any run of the voter. */
    lemma Guarantees()
      requires Valid()
      ensures Increasing(bests) && Increasing(finalizations)
      ensures prospective.Some? ==> prospective.value.number > best.number
      ensures forall k | k in committing :: k < best.number
      ensures forall r | r in rounds :: CastOk(r.chain, r.stage, r.cast)
      ensures forall r | r in rounds && r.last == Unknown :: r.cast == []
      ensures forall r, q | r in rounds && q in rounds && r.cast != [] && q.cast != [] && r.number == q.number :: r == q
      ensures forall r | r in rounds && r.last.Of? ::
                && r.last.round in rounds && r.last.round.number + 1 == r.number && r.last.round.shared.estimate.Some?
                && r.Against(r.last.round.estimates)
    {
      Open();
    }

    /** Over any run the voter votes once: whoever votes under the number of a round that has voted is that round, which
        adds to a prevote only a precommit, and to a precommit nothing. */
    twostate lemma VotesOnce(r: VotingRound, new q: VotingRound)
      requires old(Valid()) && Valid() && Remembers() && r in old(rounds) && old(r.cast) != []
      requires q in rounds && q.number == r.number && q.cast != []
      ensures q == r && old(r.cast) <= q.cast && (old(r.stage) == Precommitted ==> q.cast == old(r.cast))
      ensures forall i | |old(r.cast)| <= i < |q.cast| :: q.cast[i].Precommit?
    {
      Guarantees();
      assert old(Behind(1)) && old(Behind(0));
      assert r.GoesOn() && CastOk(r.chain, r.stage, r.cast);
      NoSecondVote(r.chain, old(r.stage), old(r.cast), r.stage, r.cast);
    }

    constructor (chain: Chain, lastRound: nat, lastState: RoundView, lastFinalized: Block)
      requires lastState.estimate.Some?
      ensures Valid() && Level() && fresh(rounds) && best.number == lastRound + 1 && prospective == None && past == []
      ensures committing == map[] && outgoing == [] && notifications == [] && this.chain == chain
      ensures best.base == lastFinalized && best.last == Given(lastState) && best.chain == chain
      ensures lastFinalizedNumber == lastFinalized.1 && lastFinalizedInRounds == lastFinalized
      ensures finalizations == [] && bests == [lastRound + 1]
    {
      this.chain := chain;
      best := new VotingRound(lastRound + 1, lastFinalized, Given(lastState), chain);
      prospective, past, committing, outgoing, notifications := None, [], map[], [], [];
      lastFinalizedNumber, lastFinalizedInRounds := lastFinalized.1, lastFinalized;
      rounds, voting, top := {best}, map[lastRound + 1 := best], lastRound + 1;
      bests, finalizations := [lastRound + 1], [];
      new;
      Close();
    }

    // ---- Finalizing: the commit path and the round path share one number ----

    /** Hands a block to the environment if it is higher than any before. */
    method Finalize(number: nat)
      requires History()
      modifies this`lastFinalizedNumber, this`finalizations
      ensures History()
      ensures number > old(lastFinalizedNumber) ==>
                finalizations == old(finalizations) + [number] && lastFinalizedNumber == number
      ensures number <= old(lastFinalizedNumber) ==>
                finalizations == old(finalizations) && lastFinalizedNumber == old(lastFinalizedNumber)
    {
      if number > lastFinalizedNumber {
        lastFinalizedNumber := number;
        finalizations := finalizations + [number];
      }
    }

    // ---- Committer ----

    /** A commit for a running round: ignored below what the round has finalized and when invalid; otherwise its
        precommits are imported. */
    method ImportCommit(commit: CommitIn) returns (ok: bool)
      requires Valid() && commit.round in committing && committing[commit.round].round in rounds
      requires IsChange(commit.imported)
      modifies this`committing, committing[commit.round].round`votes
      ensures Valid() && committing.Keys == old(committing).Keys && Remembers()
      ensures ok <==> || commit.validated.Some?
                      || commit.targetNumber < FinalizedIn(old(committing[commit.round].round.votes))
      ensures Views() == AfterCommit(old(Views()), commit)
    {
      CommittersApart();
      var round := committing[commit.round].round;
      if commit.targetNumber < FinalizedIn(round.votes) {
        return true;
      }
      if commit.validated.None? {
        return false;
      }
      ImportInto(round, commit.imported);
      Remember(commit.round, round, commit.targetNumber);
      return true;
    }

    method ImportInto(round: VotingRound, imported: RoundView -> RoundView)
      requires Valid() && round in rounds && IsChange(imported)
      modifies round`votes
      ensures Valid() && round.votes == imported(old(round.votes)) && Remembers()
    {
      Open();
      assert PriorOk(round);
      round.votes := imported(round.votes);
      StillOk(round);
      Close();
    }

    method Remember(k: nat, round: VotingRound, target: nat)
      requires Valid() && k in committing && committing[k].round == round
      modifies this`committing
      ensures Valid() && committing == old(committing)[k := RoundCommitter(round, Some(target))]
    {
      Open();
      committing := committing[k := RoundCommitter(round, Some(target))];
      Close();
    }

    /** A commit for another round, if valid, may finalize a block at once. */
    method HandleCommit(commit: CommitIn)
      requires Valid() && IsChange(commit.imported)
      modifies this`committing, this`lastFinalizedNumber, this`finalizations, rounds`votes
      ensures Valid() && committing.Keys == old(committing).Keys && Remembers() && LeftAlone()
      ensures Views() == AfterCommit(old(Views()), commit)
      ensures finalizations == old(finalizations)
                               + if Foreign(committing.Keys, commit)
                                    && commit.validated.value.1 > old(lastFinalizedNumber)
                                 then [commit.validated.value.1] else []
      ensures lastFinalizedNumber == if Foreign(committing.Keys, commit)
                                     then Max(old(lastFinalizedNumber), commit.validated.value.1)
                                     else old(lastFinalizedNumber)
    {
      if commit.round in committing {
        CommittersIn(commit.round);
        var _ := ImportCommit(commit);
      } else if commit.validated.Some? {
        FinalizeNow(commit.validated.value.1);
      }
    }

    /** The best round and the prospective one are as they were. */
    twostate predicate LeftAlone()
      reads this`best, this`prospective, best, if prospective.Some? then {prospective.value} else {}
    {
      && best == old(best) && prospective == old(prospective) && unchanged(best)
      && (prospective.Some? ==> unchanged(prospective.value))
    }

    /** The committers' rounds, as values. */
    ghost function Views(): map<nat, Committing>
      reads this`committing, set k | k in committing :: committing[k].round
    {
      map k | k in committing ::
        Committing(committing[k].round.votes, committing[k].lastCommit, committing[k].round.bestFinalized)
    }

    lemma CommittersApart()
      requires Valid()
      ensures forall k | k in committing :: committing[k].round.number == k
    {
      Open();
    }

    lemma CommittersIn(k: nat)
      requires Valid() && k in committing
      ensures committing[k].round in rounds && committing[k].round != best && Some(committing[k].round) != prospective
    {
      Open();
    }

    method FinalizeNow(number: nat)
      requires Valid()
      modifies this`lastFinalizedNumber, this`finalizations
      ensures Valid() && lastFinalizedNumber == Max(old(lastFinalizedNumber), number)
      ensures finalizations == old(finalizations) + if number > old(lastFinalizedNumber) then [number] else []
    {
      Open();
      Finalize(number);
      Close();
    }

    /** Handles incoming commits: those of running rounds go to the round, valid ones of other rounds may finalize a
        block. Answers the highest other round with a valid commit. */
    method ProcessIncoming(commits: seq<CommitIn>) returns (highest: Option<nat>)
      requires Valid() && forall c | c in commits :: IsChange(c.imported)
      modifies this`committing, this`lastFinalizedNumber, this`finalizations, rounds`votes
      ensures Valid() && committing.Keys == old(committing).Keys && IsHighest(old(committing).Keys, commits, highest)
      ensures Remembers() && LeftAlone() && Views() == AfterCommits(old(Views()), commits)
      ensures finalizations == old(finalizations)
              + Raised(ForeignNumbers(old(committing).Keys, commits), old(lastFinalizedNumber))
    {
      var running := committing.Keys;
      highest := None;
      ghost var first, last := finalizations, lastFinalizedNumber;
      for i := 0 to |commits|
        invariant Valid() && committing.Keys == running == old(committing).Keys && Remembers()
        invariant Views() == AfterCommits(old(Views()), commits[..i])
        invariant LeftAlone()
        invariant Seen(running, commits[..i], first, last, highest, finalizations, lastFinalizedNumber)
      {
        CommitNext(old(Views()), commits, i);
        SeenNext(running, commits, i, first, last, highest, finalizations, lastFinalizedNumber);
        HandleCommit(commits[i]);
        if Foreign(running, commits[i]) && (highest.None? || highest.value < commits[i].round) {
          highest := Some(commits[i].round);
        }
      }
      assert commits[..|commits|] == commits;
    }

    /** A committer whose timer has fired broadcasts a commit if what it finalized is better than what came in, and is
        done. */
    method FireTimer(k: nat)
      requires Valid()
      modifies this`committing, this`outgoing
      ensures Valid() && committing == old(committing) - {k} && Views() == old(Views()) - {k}
      ensures outgoing == old(outgoing) + if k in old(Views()) then BroadcastOf(k, old(Views())[k]) else []
    {
      if k in committing {
        var c := committing[k];
        if ToBroadcast(c.round.votes, c.lastCommit) && c.round.bestFinalized.Some? {
          outgoing := outgoing + [(k, c.round.bestFinalized.value)];
        }
        Leave(k);
      }
    }

    method Leave(k: nat)
      requires Valid()
      modifies this`committing
      ensures Valid() && committing == old(committing) - {k}
    {
      Open();
      committing := committing - {k};
      Close();
    }

    method ProcessTimers(fired: seq<nat>)
      requires Valid()
      modifies this`committing, this`outgoing
      ensures Valid() && committing == old(committing) - Keys(fired)
      ensures outgoing == old(outgoing) + Broadcasts(old(Views()), fired)
      ensures Views() == old(Views()) - Keys(fired)
    {
      assert old(outgoing) + [] == old(outgoing);
      for i := 0 to |fired|
        invariant Valid() && committing == old(committing) - Keys(fired[..i])
        invariant Views() == old(Views()) - Keys(fired[..i])
        invariant outgoing == old(outgoing) + Broadcasts(old(Views()), fired[..i])
      {
        LeftNext(old(committing), fired, i);
        LeftNext(old(Views()), fired, i);
        BroadcastsNext(old(outgoing), old(Views()), fired, i);
        FireTimer(fired[i]);
      }
      assert fired[..|fired|] == fired;
    }

    // ---- Rounds ----

    /** Polls the rounds in the background and drops exactly those whose estimate is finalized. Answers the polls, which
        report what is queued. */
    method PollPast(inputs: seq<PollInput>) returns (ghost polls: seq<PastPoll>)
      requires Valid() && |inputs| == |past| && forall i | 0 <= i < |inputs| :: inputs[i].Fits()
      modifies this`past, this`notifications, rounds
      ensures Valid() && notifications == old(notifications) + ReportsOf(polls) && Remembers()
      ensures forall b :: b in past <==> b in old(past) && !IsDone(b)
      ensures |polls| == |inputs| && PolledAs(old(past), old(Snapshots(past)), inputs, polls)
      ensures unchanged(best)
    {
      var done;
      done, polls := PollAll(inputs);
      DropDone(done);
    }

    /** The round was polled: it has received its messages, and cast what was due against an estimate that the prior
        round has shared. */
    twostate predicate Served(round: VotingRound, new input: PollInput, new estimate: Block)
      reads round, if round.last.Of? then {round.last.round} else {}
    {
      Answers(round, old(Before(round)), input, estimate) && (round.last != Unknown ==> SharedBy(round, estimate))
    }

    ghost function Before(round: VotingRound): Snapshot reads round {
      Snapshot(round.votes, round.stage, round.cast, round.last)
    }

    ghost predicate Answers(round: VotingRound, s: Snapshot, input: PollInput, estimate: Block) reads round {
      && round.votes == Received(s.votes, input) && round.last == s.last
      && (if s.last == Unknown then round.stage == s.stage && round.cast == s.cast
          else (round.stage, round.cast) == VotesDue(round.chain, s.stage, s.cast, input.first(s.votes), estimate,
                                                     input.prevoteTimer, input.precommitTimer, input.bestChain))
    }

    ghost predicate SharedBy(round: VotingRound, estimate: Block)
      reads round, if round.last.Of? then {round.last.round} else {}
    {
      match round.last
      case Unknown => false
      case Given(state) => state.estimate == Some(estimate)
      case Of(prior) => estimate in prior.estimates
    }

    ghost predicate PolledOne(round: VotingRound, s: Snapshot, input: PollInput, poll: PastPoll) reads round {
      && poll.number == round.number && poll.before == s.votes && poll.stage == round.stage && poll.input == input
      && Answers(round, s, input, poll.estimate)
    }

    /** The first rounds were polled, starting from these snapshots and with these inputs; their polls are as told. */
    ghost predicate PolledAs(todo: seq<BackgroundRound>, start: seq<Snapshot>, inputs: seq<PollInput>,
                             polls: seq<PastPoll>)
      reads set b | b in todo :: b.inner
    {
      && |polls| <= |todo| == |inputs| == |start|
      && forall k | 0 <= k < |polls| :: PolledOne(todo[k].inner, start[k], inputs[k], polls[k])
    }

    ghost function Snapshots(todo: seq<BackgroundRound>): (r: seq<Snapshot>)
      reads set b | b in todo :: b.inner
      ensures |r| == |todo| && forall k | 0 <= k < |todo| :: r[k] == Before(todo[k].inner)
    {
      if todo == [] then [] else Snapshots(todo[..|todo| - 1]) + [Before(Last(todo).inner)]
    }

    method PollAll(inputs: seq<PollInput>) returns (done: seq<bool>, ghost polls: seq<PastPoll>)
      requires Valid() && |inputs| == |past| && forall i | 0 <= i < |inputs| :: inputs[i].Fits()
      modifies this`notifications, rounds
      ensures Valid() && notifications == old(notifications) + ReportsOf(polls) && Remembers() && unchanged(best)
      ensures |done| == |past| && forall i | 0 <= i < |past| :: done[i] == IsDone(past[i])
      ensures |polls| == |past| && PolledAs(past, old(Snapshots(past)), inputs, polls)
    {
      done, polls := [], [];
      ghost var start := Snapshots(past);
      PastBehind();
      PollsMean(0, start, inputs, done, polls);
      for i := 0 to |past|
        invariant Valid() && notifications == old(notifications) + ReportsOf(polls) && Remembers() && unchanged(best)
        invariant |polls| == i && PollsDone(i, start, inputs, done, polls, 3)
      {
        ghost var poll;
        var isDone;
        ghost var round := past[i].inner;
        isDone, poll := PollNext(i, inputs[i], inputs, start, done, polls);
        assert round.GoesOn();
        ReportsNext(old(notifications), polls, poll);
        done, polls := done + [isDone], polls + [poll];
      }
      PollsMean(|past|, start, inputs, done, polls);
    }

    /** The past rounds before the `i`-th have been polled; unfolded only by `PollsMean`. */
    ghost predicate PollsDone(i: nat, start: seq<Snapshot>, inputs: seq<PollInput>, done: seq<bool>,
                              polls: seq<PastPoll>, steps: nat)
      reads this`past, set b | b in past :: b.inner
    {
      if steps > 0 then PollsDone(i, start, inputs, done, polls, steps - 1)
      else
        && |done| == |polls| == i <= |past| && PolledAs(past, start, inputs, polls)
        && (forall k | 0 <= k < i :: done[k] == IsDone(past[k]))
        && (forall k | i <= k < |past| :: Before(past[k].inner) == start[k])
    }

    lemma PollsMean(i: nat, start: seq<Snapshot>, inputs: seq<PollInput>, done: seq<bool>, polls: seq<PastPoll>)
      ensures PollsDone(i, start, inputs, done, polls, 3) <==> PollsDone(i, start, inputs, done, polls, 0)
    {
      assert PollsDone(i, start, inputs, done, polls, 1) == PollsDone(i, start, inputs, done, polls, 0);
      assert PollsDone(i, start, inputs, done, polls, 2) == PollsDone(i, start, inputs, done, polls, 1);
    }

    method PollNext(i: nat, input: PollInput, ghost inputs: seq<PollInput>, ghost start: seq<Snapshot>,
                    ghost done: seq<bool>, ghost polls: seq<PastPoll>) returns (isDone: bool, ghost poll: PastPoll)
      requires Valid() && i < |past| && PollsDone(i, start, inputs, done, polls, 3)
      requires i < |inputs| && input == inputs[i] && input.Fits()
      modifies this`notifications, past[i].inner
      ensures Valid() && past[i].inner.GoesOn()
      ensures PollsDone(i + 1, start, inputs, done + [isDone], polls + [poll], 3)
      ensures notifications == old(notifications) + ReportOf(poll.number, poll.before, poll.stage, poll.input)
    {
      PastBehind();
      PollsMean(i, start, inputs, done, polls);
      ghost var round, estimate := past[i].inner, (0, 0);
      isDone, estimate := PollBackground(past[i], input);
      poll := PastPoll(round.number, start[i].votes, round.stage, input, estimate);
      PollsGoOn(i, start, inputs, done, polls, isDone, poll);
    }

    twostate lemma PollsGoOn(new i: nat, start: seq<Snapshot>, new inputs: seq<PollInput>, new done: seq<bool>,
                             new polls: seq<PastPoll>, new isDone: bool, new poll: PastPoll)
      requires past == old(past) && i < |past| && old(PollsDone(i, start, inputs, done, polls, 0)) && Ascending(past)
      requires forall k | 0 <= k < |past| && k != i :: unchanged(past[k].inner)
      requires PolledOne(past[i].inner, start[i], inputs[i], poll) && isDone == IsDone(past[i])
      ensures PollsDone(i + 1, start, inputs, done + [isDone], polls + [poll], 3)
    {
      PollsMean(i + 1, start, inputs, done + [isDone], polls + [poll]);
    }

    method DropDone(done: seq<bool>)
      requires Valid() && |done| == |past| && forall i | 0 <= i < |past| :: done[i] == IsDone(past[i])
      modifies this`past
      ensures Valid() && forall b :: b in past <==> b in old(past) && !IsDone(b)
    {
      PastBehind();
      var todo, kept: seq<BackgroundRound> := past, [];
      for i := 0 to |todo|
        invariant unchanged(this) && Ascending(kept) && (forall b | b in kept :: b in todo[..i])
        invariant forall k | 0 <= k < i :: todo[k] in kept <==> !IsDone(todo[k])
      {
        KeepOne(todo, kept, i);
        if !done[i] {
          kept := kept + [todo[i]];
        }
      }
      Replace(kept);
    }

    lemma PastBehind()
      requires Valid()
      ensures Ascending(past) && forall b | b in past :: b.inner in rounds && b.inner != best
    {
      Open();
    }

    /** Polls one round in the background, and tells whether it is done. */
    method PollBackground(b: BackgroundRound, input: PollInput) returns (done: bool, ghost estimate: Block)
      requires Valid() && b.inner in rounds && input.Fits()
      modifies this`notifications, b.inner
      ensures Valid() && done == IsDone(b) && b.inner.GoesOn() && Served(b.inner, input, estimate)
      ensures notifications == old(notifications) + ReportOf(b.inner.number, old(b.inner.votes), b.inner.stage, input)
    {
      var _, shared := PollRound(b.inner, input);
      estimate := shared;
      var known := b.inner.votes.estimate;
      done := known.Some? && known.value.1 <= b.finalizedNumber;
    }

    method Replace(kept: seq<BackgroundRound>)
      requires Valid() && Ascending(kept) && forall b | b in kept :: b in past
      modifies this`past
      ensures Valid() && past == kept
    {
      Open();
      past := kept;
      Close();
    }

    /** Polls one round and queues what it reports as finalized. */
    method PollRound(round: VotingRound, input: PollInput) returns (ready: bool, ghost estimate: Block)
      requires Valid() && round in rounds && input.Fits()
      modifies this`notifications, round
      ensures Valid() && round.GoesOn() && Served(round, input, estimate)
      ensures ready <==> Completes(old(round.votes), input)
      ensures notifications == old(notifications) + ReportOf(round.number, old(round.votes), round.stage, input)
    {
      var finalized;
      ready, finalized, estimate := PollOnly(round, input);
      if finalized.Some? {
        notifications := notifications + [finalized.value];
      }
    }

    method PollOnly(round: VotingRound, input: PollInput)
      returns (ready: bool, finalized: Option<Finalized>, ghost estimate: Block)
      requires Valid() && round in rounds && input.Fits()
      modifies round
      ensures Valid() && round.GoesOn() && Served(round, input, estimate)
      ensures ready <==> Completes(old(round.votes), input)
      ensures (if finalized.Some? then [finalized.value] else []) ==
              ReportOf(round.number, old(round.votes), round.stage, input)
    {
      Known(round);
      estimate := if round.last == Unknown then (0, 0) else round.LastState().estimate.value;
      ready, finalized := round.Poll(input);
      Polled(round);
    }

    lemma Known(round: VotingRound)
      requires Valid() && round in rounds
      ensures round.Valid() && round.Linked() && (round.last == Unknown ==> round.stage == Start)
      ensures round.last != Unknown ==> SharedBy(round, round.LastState().estimate.value)
    {
      Open();
      assert PriorOk(round);
    }

    /** A poll of one of the rounds leaves all in order. */
    twostate lemma Polled(round: VotingRound)
      requires old(Valid()) && unchanged(this) && round in rounds
      requires forall r | r in rounds && r != round :: unchanged(r)
      requires round.Valid() && round.GoesOn() && round.CastAgainst() && round.last == old(round.last)
      requires round.last == Unknown ==> round.stage == old(round.stage)
      ensures Valid()
    {
      assert old(Behind(1)) && old(Behind(0));
      PolledPrior(round);
      StillOk(round);
      Close();
    }

    /** In particular a precommit is cast against an estimate that the prior round has shared. */
    twostate lemma PolledPrior(round: VotingRound)
      requires old(Sound()) && unchanged(this) && round in rounds
      requires forall r | r in rounds && r != round :: unchanged(r)
      requires round.Valid() && round.GoesOn() && round.CastAgainst() && round.last == old(round.last)
      requires round.last == Unknown ==> round.stage == old(round.stage)
      ensures PriorOk(round)
    {
      assert old(PriorOk(round));
    }

    /** Finalizes what the rounds have reported. */
    method HandleNotifications()
      requires Valid()
      modifies this`past, this`notifications, this`lastFinalizedNumber, this`finalizations, this`lastFinalizedInRounds
      ensures Valid() && notifications == [] && Raises(old(past), past, Numbers(old(notifications)))
      ensures lastFinalizedNumber == Highest(Numbers(old(notifications)), old(lastFinalizedNumber))
      ensures lastFinalizedInRounds.1 == Highest(Numbers(old(notifications)), old(lastFinalizedInRounds).1)
      ensures finalizations == old(finalizations) + Raised(Numbers(old(notifications)), old(lastFinalizedNumber))
    {
      ghost var done: seq<nat> := [];
      while notifications != []
        invariant Valid() && Numbers(old(notifications)) == done + Numbers(notifications)
        invariant Raises(old(past), past, done)
        invariant finalizations == old(finalizations) + Raised(done, old(lastFinalizedNumber))
        invariant lastFinalizedNumber == Highest(done, old(lastFinalizedNumber))
        invariant lastFinalizedInRounds.1 == Highest(done, old(lastFinalizedInRounds).1)
        decreases |notifications|
      {
        ghost var x := notifications[0].number;
        assert Numbers(notifications) == [x] + Numbers(notifications[1..]);
        RaisedNext(done, x, old(lastFinalizedNumber));
        RaisedNext(done, x, old(lastFinalizedInRounds).1);
        ghost var before := past;
        HandleNotification();
        RaisesNext(old(past), before, past, done, x);
        done := done + [x];
      }
      assert done + [] == done;
    }

    method HandleNotification()
      requires Valid() && notifications != []
      modifies this`past, this`notifications, this`lastFinalizedNumber, this`finalizations, this`lastFinalizedInRounds
      ensures Valid() && notifications == old(notifications)[1..]
      ensures Raises(old(past), past, [old(notifications)[0].number])
      ensures var f := old(notifications)[0];
        && lastFinalizedInRounds ==
             (if f.number > old(lastFinalizedInRounds).1 then (f.hash, f.number) else old(lastFinalizedInRounds))
        && finalizations == old(finalizations) + (if f.number > old(lastFinalizedNumber) then [f.number] else [])
        && lastFinalizedNumber == Max(old(lastFinalizedNumber), f.number)
    {
      var f := notifications[0];
      UpdateFinalized(f.number);
      notifications := notifications[1..];
      HandOut(f);
    }

    method HandOut(f: Finalized)
      requires Valid()
      modifies this`lastFinalizedNumber, this`finalizations, this`lastFinalizedInRounds
      ensures Valid()
      ensures lastFinalizedInRounds ==
              (if f.number > old(lastFinalizedInRounds).1 then (f.hash, f.number) else old(lastFinalizedInRounds))
      ensures finalizations == old(finalizations) + (if f.number > old(lastFinalizedNumber) then [f.number] else [])
      ensures lastFinalizedNumber == Max(old(lastFinalizedNumber), f.number)
    {
      FinalizeNow(f.number);
      if f.number > lastFinalizedInRounds.1 {
        lastFinalizedInRounds := (f.hash, f.number);
      }
    }

    /** A valid commit for a round at least two above the best one, and above the prospective one, starts a prospective
        round after it, which casts no votes. Its base is the latest block finalized in the rounds at hand. */
    method ProcessCommits(commits: seq<CommitIn>, fired: seq<nat>)
      returns (ghost highest: Option<nat>)
      requires Valid() && forall c | c in commits :: IsChange(c.imported)
      modifies this`committing, this`outgoing, this`prospective, this`rounds, this`lastFinalizedNumber,
          this`finalizations, rounds`votes
      ensures Valid() && unchanged(best) && Remembers() && fresh(rounds - old(rounds))
      ensures finalizations == old(finalizations)
              + Raised(ForeignNumbers(old(committing).Keys, commits), old(lastFinalizedNumber))
      ensures Views() == AfterCommits(old(Views()), commits) - Keys(fired)
      ensures outgoing == old(outgoing) + Broadcasts(AfterCommits(old(Views()), commits), fired)
      ensures IsHighest(old(committing).Keys, commits, highest)
      ensures StartsAfter(best.number, old(prospective), highest) ==>
                && prospective.Some? && fresh(prospective.value) && prospective.value.number == highest.value + 1
                && prospective.value.last == Unknown && prospective.value.base == old(GhostBase())
      ensures !StartsAfter(best.number, old(prospective), highest) ==> prospective == old(prospective)
    {
      var found := CommitAll(commits, fired);
      highest := found;
      LookAhead(found);
    }

    method LookAhead(found: Option<nat>)
      requires Valid()
      modifies this`prospective, this`rounds
      ensures Valid() && old(rounds) <= rounds && fresh(rounds - old(rounds))
      ensures StartsAfter(best.number, old(prospective), found) ==>
                && prospective.Some? && fresh(prospective.value) && prospective.value.number == found.value + 1
                && prospective.value.last == Unknown && prospective.value.base == old(GhostBase())
      ensures !StartsAfter(best.number, old(prospective), found) ==> prospective == old(prospective)
    {
      if found.Some? {
        var number := found.value;
        if number > best.number + 1 && (prospective.None? || number > prospective.value.number) {
          StartProspective(number + 1);
        }
      }
    }

    /** The commits that have come in, and the committers whose timers have fired. */
    method CommitAll(commits: seq<CommitIn>, fired: seq<nat>) returns (highest: Option<nat>)
      requires Valid() && forall c | c in commits :: IsChange(c.imported)
      modifies this`committing, this`outgoing, this`lastFinalizedNumber, this`finalizations, rounds`votes
      ensures Valid() && LeftAlone() && Remembers() && IsHighest(old(committing).Keys, commits, highest)
      ensures finalizations == old(finalizations)
              + Raised(ForeignNumbers(old(committing).Keys, commits), old(lastFinalizedNumber))
      ensures Views() == AfterCommits(old(Views()), commits) - Keys(fired)
      ensures outgoing == old(outgoing) + Broadcasts(AfterCommits(old(Views()), commits), fired)
    {
      highest := ProcessIncoming(commits);
      ProcessTimers(fired);
    }

    method StartProspective(number: nat)
      requires Valid() && number > best.number
      modifies this`prospective, this`rounds
      ensures Valid() && prospective.Some? && fresh(prospective.value) && rounds == old(rounds) + {prospective.value}
      ensures prospective.value.number == number && prospective.value.last == Unknown
      ensures prospective.value.base == old(GhostBase())
    {
      var round := new VotingRound(number, GhostBase(), Unknown, chain);
      Announce(round);
    }

    method Announce(round: VotingRound)
      requires Valid() && round !in rounds && round.Valid() && round.stage == Start && round.last == Unknown
      requires round.chain == chain
      requires round.number > best.number
      modifies this`prospective, this`rounds
      ensures Valid() && prospective == Some(round) && rounds == old(rounds) + {round}
    {
      Open();
      prospective, rounds := Some(round), rounds + {round};
      Joined(round);
      Close();
    }

    /** The block that the prospective round has finalized, or else the best one, or else the last finalized in rounds
        before. */
    function GhostBase(): (block: Block)
      reads this, best, if prospective.Some? then {prospective.value} else {}
      ensures prospective.Some? && prospective.value.votes.finalized.Some? ==>
                Some(block) == prospective.value.votes.finalized
      ensures !(prospective.Some? && prospective.value.votes.finalized.Some?) && best.votes.finalized.Some? ==>
                Some(block) == best.votes.finalized
      ensures !(prospective.Some? && prospective.value.votes.finalized.Some?) && best.votes.finalized.None? ==>
                block == lastFinalizedInRounds
    {
      if prospective.Some? && prospective.value.votes.finalized.Some? then prospective.value.votes.finalized.value
      else if best.votes.finalized.Some? then best.votes.finalized.value
      else lastFinalizedInRounds
    }

    /** Moves on from a completed best round, to the round given or to a new one. The old round goes to the background
        and to the committer, which cannot have it yet. */
    method CompletedBestRound(next: Option<VotingRound>)
      requires Valid() && prospective.None? && best.votes.completable
      requires next.Some? ==> next.value in rounds && next.value.number == best.number + 1 == top
      requires next.Some? ==> next.value.last != Unknown
      requires next.None? ==> Level()
      modifies this`best, this`past, this`committing, this`rounds, this`voting, this`top, this`bests, best`bridged,
          best`shared, best`estimates
      ensures Valid() && Level() && best.number == old(best.number) + 1 && Remembers() && fresh(rounds - old(rounds))
      ensures prospective.None?
      ensures past == old(past) + [BackgroundRound(old(best), 0)]
      ensures old(best).number !in old(committing)
      ensures committing == old(committing)[old(best).number := RoundCommitter(old(best), None)]
      ensures bests == old(bests) + [best.number] && (next.Some? ==> best == next.value)
      ensures next.None? ==> fresh(best) && best.last == Of(old(best)) && best.base == lastFinalizedInRounds
    {
      var former := best;
      var round: VotingRound;
      if next.Some? {
        round := next.value;
      } else {
        NotCommitting();
        BuildOn(former);
        round := Begin(former, lastFinalizedInRounds);
      }
      NotCommitting();
      Advance(round, former);
      StartCommitting(former);
    }

    /** The best round has no committer yet. */
    lemma NotCommitting()
      requires Valid()
      ensures best.number !in committing && best in rounds
    {
      Open();
    }

    /** Has the committer handle a round that has been left. */
    method StartCommitting(former: VotingRound)
      requires Valid() && former in rounds && former.number < best.number
      modifies this`committing
      ensures Valid() && committing == old(committing)[former.number := RoundCommitter(former, None)]
    {
      Open();
      committing := committing[former.number := RoundCommitter(former, None)];
      Close();
    }

    /** Has a completable round share its state with the next one. */
    method BuildOn(round: VotingRound)
      requires Valid() && round in rounds && round.votes.completable
      modifies round`bridged, round`shared, round`estimates
      ensures Valid() && round.bridged && Remembers()
    {
      Open();
      assert PriorOk(round);
      round.BridgeState();
      StillOk(round);
      Close();
    }

    /** A new round on a prior one, which may vote. */
    method Begin(prior: VotingRound, base: Block) returns (round: VotingRound)
      requires Valid() && prior in rounds && prior.bridged && prior.number + 1 > top
      modifies this`rounds, this`voting, this`top
      ensures Valid() && fresh(round) && rounds == old(rounds) + {round} && top == round.number
      ensures round.number == prior.number + 1 && round.base == base && round.last == Of(prior)
    {
      round := new VotingRound(prior.number + 1, base, Of(prior), chain);
      Join(round, prior);
    }

    method Join(round: VotingRound, prior: VotingRound)
      requires Valid() && round !in rounds && round.Valid() && round.stage == Start && round.last == Of(prior)
      requires round.chain == chain
      requires prior in rounds && prior.bridged && prior.number + 1 == round.number > top
      modifies this`rounds, this`voting, this`top
      ensures Valid() && rounds == old(rounds) + {round} && top == round.number
    {
      Open();
      rounds, voting, top := rounds + {round}, voting[round.number := round], round.number;
      Joined(round);
      JoinedApart(round);
      Close();
    }

    twostate lemma JoinedApart(round: VotingRound)
      requires old(Ordered() && Detached() && Unique()) && rounds == old(rounds) + {round}
      requires voting == old(voting)[round.number := round] && top == round.number > old(top) && round.last != Unknown
      requires unchanged(`best) && unchanged(`prospective) && unchanged(`past) && unchanged(`committing)
      requires forall r | r in old(rounds) :: unchanged(r)
      ensures Ordered() && Detached() && Unique()
    {
    }

    /** One more round that has not voted concerns no other. */
    twostate lemma Joined(round: VotingRound)
      requires old(RoundsOk()) && round !in old(rounds) && rounds == old(rounds) + {round}
      requires forall r | r in old(rounds) :: unchanged(r)
      requires round.chain == chain && round.Valid() && PriorOk(round)
      ensures RoundsOk()
    {
      forall r | r in rounds ensures r.chain == chain && r.Valid() && PriorOk(r) {
        if r != round {
          assert old(PriorOk(r));
        }
      }
    }

    /** Makes `round` the best one and sends `former` to the background. */
    method Advance(round: VotingRound, former: VotingRound)
      requires Valid() && prospective.None? && round in rounds && former in rounds
      requires best.number <= former.number < round.number == top && round.last != Unknown
      modifies this`best, this`past, this`bests
      ensures Valid() && Level() && best == round && past == old(past) + [BackgroundRound(former, 0)]
      ensures bests == old(bests) + [round.number]
    {
      Open();
      PastNext(past, former);
      BestsNext(bests, round.number);
      best := round;
      past := past + [BackgroundRound(former, 0)];
      bests := bests + [round.number];
      Close();
    }

    /** A completed prospective round goes to the background, and the best round is a new one after it. */
    method CompletedProspectiveRound(round: VotingRound)
      requires Valid() && Level() && prospective.None? && round in rounds && round.number > best.number
      requires round.votes.completable
      modifies this`best, this`past, this`rounds, this`voting, this`top, this`bests, round`bridged, round`shared,
          round`estimates
      ensures Valid() && Level() && best.number == round.number + 1 && fresh(best) && rounds == old(rounds) + {best}
      ensures Remembers()
      ensures prospective.None?
      ensures past == old(past) + [BackgroundRound(round, 0)] && bests == old(bests) + [best.number]
      ensures best.base == round.base && best.last == Of(round)
    {
      BuildOn(round);
      var next := Begin(round, round.base);
      Advance(next, round);
    }

    /** The best round was polled: it has cast what was due, and what it reports is queued. */
    twostate predicate BestPolled(best: VotingRound, new input: PollInput, new estimate: Block)
      reads this`notifications, best, if best.last.Of? then {best.last.round} else {}
    {
      && Served(best, input, estimate)
      && notifications == old(notifications) + ReportOf(best.number, old(best.votes), best.stage, input)
    }

    /** Whether the prospective round completes in a poll. */
    ghost predicate Overtaken(failed: bool, input: PollInput)
      reads this`prospective, if prospective.Some? then {prospective.value} else {}
    {
      prospective.Some? && !failed && Completes(prospective.value.votes, input)
    }

    method TakeProspective() returns (round: VotingRound)
      requires Valid() && prospective.Some?
      modifies this`prospective
      ensures Valid() && prospective.None? && Some(round) == old(prospective)
      ensures round in rounds && round.number > best.number && round.last == Unknown && round.stage == Start
      ensures best in rounds && round != best
    {
      Open();
      round := prospective.value;
      prospective := None;
      Close();
    }

    /** Works on the prospective round. Answers `None` when the best round was replaced; otherwise whether the best
        round, if it was polled, is completable. A prospective round is given up when it fails, and also when the best
        round is completable without having caught up with it. */
    method ProcessProspectiveRound(failed: bool, input: PollInput, bestInput: PollInput)
      returns (r: Option<Option<bool>>, ghost estimate: Block)
      requires Valid() && Level() && input.Fits() && bestInput.Fits()
      modifies this`best, this`prospective, this`past, this`committing, this`rounds, this`voting, this`top,
          this`bests, this`notifications, rounds
      ensures Valid() && Level() && Remembers() && fresh(rounds - old(rounds))
      ensures r.None? ==> best.number > old(best.number) && prospective.None? && bests == old(bests) + [best.number]
      ensures r.Some? ==> best == old(best) && bests == old(bests)
      ensures r.Some? ==> prospective == if r.value == Some(false) then old(prospective) else None
      ensures old(Overtaken(failed, input)) ==> r.None? && notifications == old(notifications)
      ensures old(prospective.None? || failed) <==> r == Some(None)
      ensures r == Some(None) ==> unchanged(best) && notifications == old(notifications)
      ensures old(prospective.Some? && !failed && !Overtaken(failed, input)) ==>
                && BestPolled(old(best), bestInput, estimate)
                && r == (if !Completes(old(best.votes), bestInput) then Some(Some(false))
                         else if old(best.number) + 1 == old(prospective).value.number then None else Some(Some(true)))
    {
      r := Some(None);
      estimate := (0, 0);
      if prospective.Some? {
        var round := TakeProspective();
        if !failed {
          r, estimate := WorkOn(round, input, bestInput);
        }
      }
    }

    /** Polls the prospective round. */
    method WorkOn(round: VotingRound, input: PollInput, bestInput: PollInput)
      returns (r: Option<Option<bool>>, ghost estimate: Block)
      requires Valid() && Level() && input.Fits() && bestInput.Fits() && prospective.None? && best in rounds
      requires round in rounds && best.number < round.number && round.last == Unknown && round.stage == Start
      modifies this`best, this`prospective, this`past, this`committing, this`rounds, this`voting, this`top,
          this`bests, this`notifications, best, round
      ensures Valid() && Level() && Remembers() && fresh(rounds - old(rounds))
      ensures r.None? ==> best.number > old(best.number) && prospective.None? && bests == old(bests) + [best.number]
      ensures r.Some? ==> best == old(best) && bests == old(bests)
      ensures r.Some? ==> prospective == if r.value == Some(false) then Some(round) else None
      ensures Completes(old(round.votes), input) ==> r.None? && notifications == old(notifications)
      ensures !Completes(old(round.votes), input) ==>
                && BestPolled(old(best), bestInput, estimate)
                && r == (if !Completes(old(best.votes), bestInput) then Some(Some(false))
                         else if old(best.number) + 1 == round.number then None else Some(Some(true)))
    {
      var ready, _ := PollRound(round, input);
      if ready {
        CompletedProspectiveRound(round);
        return None, (0, 0);
      }
      r, estimate := CatchUp(round, bestInput);
    }

    /** The prospective round is not completable yet: polls the best one, which may have caught up with it. */
    method CatchUp(round: VotingRound, bestInput: PollInput) returns (r: Option<Option<bool>>, ghost estimate: Block)
      requires Valid() && Level() && bestInput.Fits() && prospective.None?
      requires round in rounds && best.number < round.number
      requires round.last == Unknown
      modifies this`best, this`prospective, this`past, this`committing, this`rounds, this`voting, this`top,
          this`bests, this`notifications, best, round`last
      ensures Valid() && Level() && Remembers() && fresh(rounds - old(rounds))
      ensures BestPolled(old(best), bestInput, estimate)
      ensures r.None? ==> best == round && prospective.None? && bests == old(bests) + [best.number]
      ensures r.Some? ==> best == old(best) && bests == old(bests)
      ensures r.Some? ==> prospective == if r.value == Some(false) then Some(round) else None
      ensures r == (if !Completes(old(best.votes), bestInput) then Some(Some(false))
                    else if old(best.number) + 1 == round.number then None else Some(Some(true)))
    {
      NotCommitting();
      var bestReady;
      bestReady, estimate := PollRound(best, bestInput);
      if bestReady {
        if best.number == round.number - 1 {
          TakeOver(round);
          return None, estimate;
        }
        return Some(Some(true)), estimate;
      }
      Keep(round);
      return Some(Some(false)), estimate;
    }

    /** The prospective round becomes the best one, and reads the state of the one before from now on. */
    method TakeOver(round: VotingRound)
      requires Valid() && Level() && prospective.None? && round in rounds && best.number + 1 == round.number
      requires best.votes.completable && round.last == Unknown
      modifies this`best, this`past, this`committing, this`rounds, this`voting, this`top, this`bests, best`bridged,
          best`shared, best`estimates, round`last
      ensures Valid() && Level() && best == round && round.last == Of(old(best)) && prospective.None?
      ensures Remembers() && fresh(rounds - old(rounds)) && bests == old(bests) + [best.number]
    {
      NotCommitting();
      BuildOn(best);
      ReadFrom(round, best);
      CompletedBestRound(Some(round));
    }

    method ReadFrom(round: VotingRound, prior: VotingRound)
      requires Valid() && round in rounds && prior in rounds && prior.bridged && prior.number + 1 == round.number
      requires round.last == Unknown && prospective != Some(round) && round.number > top
      modifies round`last, this`voting, this`top
      ensures Valid() && round.last == Of(prior) && top == round.number
    {
      Open();
      round.last := Of(prior);
      voting, top := voting[round.number := round], round.number;
      StillOk(round);
      Close();
    }

    method Keep(round: VotingRound)
      requires Valid() && round in rounds && best.number < round.number && round.last == Unknown
      modifies this`prospective
      ensures Valid() && prospective == Some(round)
    {
      Open();
      prospective := Some(round);
      Close();
    }

    /** Moves on to the next round once the best one is completable and has precommitted. Answers whether it did. */
    method ProcessBestRound(completable: Option<bool>, input: PollInput) returns (again: bool, ghost estimate: Block)
      requires Valid() && Level() && input.Fits() && (completable != Some(false) ==> prospective.None?)
      requires completable == Some(true) ==> best.votes.completable
      modifies this`best, this`past, this`committing, this`rounds, this`voting, this`top, this`bests,
          this`notifications, rounds
      ensures Valid() && Level() && Remembers() && fresh(rounds - old(rounds)) && prospective == old(prospective)
      ensures completable == None ==> BestPolled(old(best), input, estimate)
      ensures completable != None ==> notifications == old(notifications) && Rests(old(best))
      ensures again <==>
                && old(best).stage == Precommitted
                && (if completable == None then Completes(old(best.votes), input) else completable.value)
      ensures again ==> best.number == old(best.number) + 1 && bests == old(bests) + [best.number]
      ensures !again ==> best == old(best) && bests == old(bests)
    {
      NotCommitting();
      estimate := (0, 0);
      var ready: bool;
      match completable {
        case Some(known) => ready := known;
        case None => ready, estimate := PollRound(best, input);
      }
      again := ready && best.stage == Precommitted;
      if again {
        NotCommitting();
        CompletedBestRound(None);
      }
    }

    /** The round neither receives nor casts anything. */
    twostate predicate Rests(round: VotingRound) reads round {
      && round.votes == old(round.votes) && round.stage == old(round.stage) && round.cast == old(round.cast)
      && round.last == old(round.last)
    }

    /** One pass of the voter's poll, with everything it may meet. Answers whether it polls again at once. What is
        handed out as finalized are the blocks queued and those that past rounds report, then those of valid commits for
        rounds not running, as far as they are higher than all before. The best round is polled, casts what is due and
        has its report queued, unless a completed prospective round takes its place. */
    method Pass(pastInputs: seq<PollInput>, commits: seq<CommitIn>, fired: seq<nat>, failed: bool,
                prospectiveInput: PollInput, bestInput: PollInput)
      returns (again: bool, ghost polls: seq<PastPoll>, ghost polled: bool, ghost estimate: Block)
      requires Valid() && Level()
      requires |pastInputs| == |past| && forall i | 0 <= i < |pastInputs| :: pastInputs[i].Fits()
      requires prospectiveInput.Fits() && bestInput.Fits() && forall c | c in commits :: IsChange(c.imported)
      modifies this, rounds
      ensures Valid() && Level() && Remembers() && fresh(rounds - old(rounds)) && old(bests) <= bests
      ensures (again <==> best.number > old(best.number)) && (!again ==> best == old(best))
      ensures PolledPast(pastInputs, polls)
      ensures finalizations == old(finalizations) +
              Raised(Numbers(old(notifications) + ReportsOf(polls)) + ForeignNumbers(old(committing).Keys, commits),
                     old(lastFinalizedNumber))
      ensures polled ==>
                && Served(old(best), bestInput, estimate) && old(best).last != Unknown
                && notifications == ReportOf(old(best).number, old(best.votes), old(best).stage, bestInput)
                && (again <== Completes(old(best.votes), bestInput) && old(best).stage == Precommitted)
      ensures !polled ==> again && notifications == []
    {
      BestKnows();
      polls := Clear(pastInputs, commits, fired);
      label Cleared:
      again, polled, estimate := Progress(failed, prospectiveInput, bestInput);
      forall r | r in old(rounds) ensures r.GoesOn() {
        assert r.GoesOn@Cleared();
      }
    }

    /** The past rounds' polls, as they were before any of them moved on. */
    twostate predicate PolledPast(new inputs: seq<PollInput>, new polls: seq<PastPoll>) {
      && |polls| == |inputs| == |old(past)|
      && forall i | 0 <= i < |inputs| :: BeganAs(old(past)[i].inner, inputs[i], polls[i])
    }

    twostate predicate BeganAs(round: VotingRound, new input: PollInput, new poll: PastPoll) {
      && poll.number == round.number && poll.before == old(round.votes) && poll.input == input
      && old(round.stage).Rank() <= poll.stage.Rank()
    }

    lemma BestKnows()
      requires Valid()
      ensures best.last != Unknown && best.chain == chain
    {
      Open();
    }

    /** What a pass starts from and leaves, as values. */
    ghost function Now(): VoterState reads this, best {
      VoterState(best.number, best.stage, best.cast, best.votes, notifications, finalizations, lastFinalizedNumber,
                 committing.Keys)
    }

    method PassWith(input: PassInput)
      requires Valid() && Level() && input.Fits()
      modifies this, rounds
      ensures Valid() && Level() && Remembers() && fresh(rounds - old(rounds)) && old(bests) <= bests
      ensures Passes(chain, old(Now()), input, Now())
    {
      var pastInputs := seq(|past|, k requires 0 <= k => input.past(k));
      BestKnows();
      ghost var former, s := best, Now();
      var again, polls, polled, estimate :=
        Pass(pastInputs, input.commits, input.fired, input.failed, input.prospective, input.best);
      if polled {
        PassedBy(chain, s, input, Now(), polls, estimate, former.stage, former.cast);
      } else {
        assert PassesBy(chain, s, input, Now(), polls, polled, estimate);
        PassesMeans(chain, s, input, Now());
      }
    }

    /** Any number of passes. Every round that was there still is, and has gone on from pass to pass, and each pass
        leads from one state to the next as it should. */
    method Run(inputs: seq<PassInput>) returns (ghost trace: seq<VoterState>)
      requires Valid() && Level() && forall i | 0 <= i < |inputs| :: inputs[i].Fits()
      modifies this, rounds
      ensures Valid() && Level() && Remembers() && fresh(rounds - old(rounds)) && old(bests) <= bests
      ensures IsTrace(chain, inputs, trace) && trace[0] == old(Now()) && trace[|inputs|] == Now()
    {
      trace := [Now()];
      for i := 0 to |inputs|
        invariant Valid() && Level() && Remembers() && fresh(rounds - old(rounds)) && old(bests) <= bests
        invariant IsTrace(chain, inputs[..i], trace) && trace[0] == old(Now()) && trace[i] == Now()
      {
        PassWith(inputs[i]);
        TraceNext(chain, inputs, i, trace, Now());
        trace := trace + [Now()];
      }
      assert inputs[..|inputs|] == inputs;
    }

    /** The first half of a pass: past rounds, what was reported and the commits. */
    method Clear(pastInputs: seq<PollInput>, commits: seq<CommitIn>, fired: seq<nat>)
      returns (ghost polls: seq<PastPoll>)
      requires Valid() && Level()
      requires |pastInputs| == |past| && forall i | 0 <= i < |pastInputs| :: pastInputs[i].Fits()
      requires forall c | c in commits :: IsChange(c.imported)
      modifies this`past, this`notifications, this`lastFinalizedNumber, this`finalizations, this`lastFinalizedInRounds,
          this`committing, this`outgoing, this`prospective, this`rounds, rounds
      ensures Valid() && Remembers() && fresh(rounds - old(rounds)) && unchanged(best)
      ensures notifications == [] && PolledPast(pastInputs, polls)
      ensures finalizations == old(finalizations) +
              Raised(Numbers(old(notifications) + ReportsOf(polls)) + ForeignNumbers(old(committing).Keys, commits),
                     old(lastFinalizedNumber))
    {
      polls := Settle(pastInputs);
      RaisedOnto(old(finalizations), Numbers(old(notifications) + ReportsOf(polls)),
                 ForeignNumbers(committing.Keys, commits), old(lastFinalizedNumber));
      var _ := ProcessCommits(commits, fired);
    }

    /** Polls the past rounds and finalizes what rounds have reported. */
    method Settle(inputs: seq<PollInput>) returns (ghost polls: seq<PastPoll>)
      requires Valid() && |inputs| == |past| && forall i | 0 <= i < |inputs| :: inputs[i].Fits()
      modifies this`past, this`notifications, this`lastFinalizedNumber, this`finalizations, this`lastFinalizedInRounds,
          rounds
      ensures Valid() && Remembers() && unchanged(best) && notifications == [] && PolledPast(inputs, polls)
      ensures finalizations ==
              old(finalizations) + Raised(Numbers(old(notifications) + ReportsOf(polls)), old(lastFinalizedNumber))
      ensures lastFinalizedNumber == Highest(Numbers(old(notifications) + ReportsOf(polls)), old(lastFinalizedNumber))
    {
      polls := PollPast(inputs);
      HandleNotifications();
    }

    /** The second half: the prospective and the best round. */
    method Progress(failed: bool, prospectiveInput: PollInput, bestInput: PollInput)
      returns (again: bool, ghost polled: bool, ghost estimate: Block)
      requires Valid() && Level() && prospectiveInput.Fits() && bestInput.Fits()
      modifies this`best, this`prospective, this`past, this`committing, this`rounds, this`voting, this`top,
          this`bests, this`notifications, rounds
      ensures Valid() && Level() && Remembers() && fresh(rounds - old(rounds)) && old(bests) <= bests
      ensures polled <==> !old(Overtaken(failed, prospectiveInput))
      ensures polled ==> BestPolled(old(best), bestInput, estimate)
      ensures !polled ==> notifications == old(notifications)
      ensures (again <==> best.number > old(best.number)) && (!again ==> best == old(best))
      ensures again <==>
                !polled || (&& Completes(old(best.votes), bestInput)
                            && (old(best).stage == Precommitted
                                || old(prospective.Some? && !failed && best.number + 1 == prospective.value.number)))
    {
      polled := !Overtaken(failed, prospectiveInput);
      var r;
      r, estimate := ProcessProspectiveRound(failed, prospectiveInput, bestInput);
      if r.None? {
        return true, polled, estimate;
      }
      ghost var late;
      again, late := ProcessBestRound(r.value, bestInput);
      if r.value == None {
        estimate := late;
      }
    }

    method UpdateFinalized(number: nat)
      requires Valid()
      modifies this`past
      ensures Valid() && Raises(old(past), past, [number])
    {
      Open();
      AllUpdatedMeans(past, number);
      UpdatedStay(number);
      past := AllUpdated(past, number);
      assert [number][..0] == [];
      Close();
    }

    lemma UpdatedStay(number: nat)
      requires Ordered()
      ensures forall b | b in AllUpdated(past, number) :: b.inner in rounds && b.inner.number < best.number
    {
      var updated := AllUpdated(past, number);
      forall b | b in updated ensures b.inner in rounds && b.inner.number < best.number {
        var i :| 0 <= i < |updated| && updated[i] == b;
        assert past[i] in past;
      }
    }
  }

  function AllUpdated(past: seq<BackgroundRound>, number: nat): seq<BackgroundRound> {
    seq(|past|, i requires 0 <= i < |past| => past[i].(finalizedNumber := Max(past[i].finalizedNumber, number)))
  }

  /** Each past round has heard of the highest of these numbers. */
  ghost predicate Raises(before: seq<BackgroundRound>, after: seq<BackgroundRound>, numbers: seq<nat>) {
    |after| == |before| && forall i | 0 <= i < |before| ::
      after[i] == BackgroundRound(before[i].inner, Highest(numbers, before[i].finalizedNumber))
  }

  lemma RaisesNext(first: seq<BackgroundRound>, before: seq<BackgroundRound>, after: seq<BackgroundRound>,
                   numbers: seq<nat>, x: nat)
    requires Raises(first, before, numbers) && Raises(before, after, [x])
    ensures Raises(first, after, numbers + [x])
  {
    forall i | 0 <= i < |first|
      ensures after[i] == BackgroundRound(first[i].inner, Highest(numbers + [x], first[i].finalizedNumber))
    {
      RaisedNext(numbers, x, first[i].finalizedNumber);
      RaisedNext([], x, before[i].finalizedNumber);
      assert [] + [x] == [x];
    }
  }

  lemma AllUpdatedMeans(past: seq<BackgroundRound>, number: nat)
    requires Ascending(past)
    ensures Ascending(AllUpdated(past, number)) && |AllUpdated(past, number)| == |past|
    ensures forall i | 0 <= i < |past| :: AllUpdated(past, number)[i].inner == past[i].inner
  {
  }

  function Max(x: nat, y: nat): nat {
    if x < y then y else x
  }

  // ---- What runs of commits, notifications and timers amount to ----

  /** The numbers that are higher than all before them. */
  ghost function Raised(numbers: seq<nat>, last: nat): seq<nat> {
    if numbers == [] then []
    else
      var init, x := numbers[..|numbers| - 1], numbers[|numbers| - 1];
      Raised(init, last) + (if x > Highest(init, last) then [x] else [])
  }

  ghost function Highest(numbers: seq<nat>, last: nat): nat {
    if numbers == [] then last else Max(Highest(numbers[..|numbers| - 1], last), numbers[|numbers| - 1])
  }

  lemma RaisedNext(numbers: seq<nat>, x: nat, last: nat)
    ensures Raised(numbers + [x], last) == Raised(numbers, last) + (if x > Highest(numbers, last) then [x] else [])
    ensures Highest(numbers + [x], last) == Max(Highest(numbers, last), x)
  {
    assert (numbers + [x])[..|numbers|] == numbers;
  }

  lemma {:induction false} RaisedAppend(a: seq<nat>, b: seq<nat>, last: nat)
    ensures Raised(a + b, last) == Raised(a, last) + Raised(b, Highest(a, last))
    ensures Highest(a + b, last) == Highest(b, Highest(a, last))
  {
    if b == [] {
      assert a + b == a;
    } else {
      RaisedAppend(a, b[..|b| - 1], last);
      assert (a + b)[..|a + b| - 1] == a + b[..|b| - 1];
    }
  }

  lemma RaisedOnto(first: seq<nat>, a: seq<nat>, b: seq<nat>, last: nat)
    ensures first + Raised(a, last) + Raised(b, Highest(a, last)) == first + Raised(a + b, last)
  {
    RaisedAppend(a, b, last);
    Associative(first, Raised(a, last), Raised(b, Highest(a, last)));
  }

  lemma Associative(x: seq<nat>, y: seq<nat>, z: seq<nat>)
    ensures x + y + z == x + (y + z)
  {
  }

  /** What the valid commits for rounds that are not running finalize. */
  ghost function ForeignNumbers(running: set<nat>, commits: seq<CommitIn>): seq<nat> {
    if commits == [] then []
    else
      var c := commits[|commits| - 1];
      ForeignNumbers(running, commits[..|commits| - 1]) + (if Foreign(running, c) then [c.validated.value.1] else [])
  }

  lemma ForeignNext(running: set<nat>, commits: seq<CommitIn>, i: nat, last: nat)
    requires i < |commits|
    ensures var before, after, c := ForeignNumbers(running, commits[..i]), ForeignNumbers(running, commits[..i + 1]),
            commits[i];
      && Raised(after, last) == Raised(before, last) +
                                (if Foreign(running, c) && c.validated.value.1 > Highest(before, last)
                                 then [c.validated.value.1] else [])
      && Highest(after, last) == if Foreign(running, c) then Max(Highest(before, last), c.validated.value.1)
                                 else Highest(before, last)
  {
    assert commits[..i + 1][..i] == commits[..i];
    var before := ForeignNumbers(running, commits[..i]);
    if Foreign(running, commits[i]) {
      RaisedNext(before, commits[i].validated.value.1, last);
    } else {
      assert before + [] == before;
    }
  }

  ghost function Numbers(notifications: seq<Finalized>): seq<nat> {
    seq(|notifications|, i requires 0 <= i < |notifications| => notifications[i].number)
  }

  /** A commit's round is at least two above the best round and above the prospective one. */
  ghost predicate StartsAfter(best: nat, prospective: Option<VotingRound>, highest: Option<nat>) {
    highest.Some? && highest.value > best + 1 && (prospective.None? || highest.value > prospective.value.number)
  }

  /** A commit for a running round: imported if it is valid and not below what the round has finalized. */
  ghost function AfterCommit(views: map<nat, Committing>, c: CommitIn): map<nat, Committing> {
    if c.round in views && c.validated.Some?
       && (views[c.round].votes.finalized.Some? ==> c.targetNumber >= views[c.round].votes.finalized.value.1)
    then views[c.round := Committing(c.imported(views[c.round].votes), Some(c.targetNumber), views[c.round].best)]
    else views
  }

  ghost function AfterCommits(views: map<nat, Committing>, commits: seq<CommitIn>): map<nat, Committing> {
    if commits == [] then views else AfterCommit(AfterCommits(views, commits[..|commits| - 1]), Last(commits))
  }

  lemma CommitNext(views: map<nat, Committing>, commits: seq<CommitIn>, i: nat)
    requires i < |commits|
    ensures AfterCommits(views, commits[..i + 1]) == AfterCommit(AfterCommits(views, commits[..i]), commits[i])
  {
    assert commits[..i + 1][..i] == commits[..i];
  }

  /** What the committers broadcast whose timers fire, each once. */
  ghost function Broadcasts(views: map<nat, Committing>, fired: seq<nat>): seq<(nat, Block)> {
    if fired == [] then []
    else
      var k, before := fired[|fired| - 1], fired[..|fired| - 1];
      Broadcasts(views, before) + (if k in views && k !in before then BroadcastOf(k, views[k]) else [])
  }

  ghost function Keys(fired: seq<nat>): set<nat> {
    set k | k in fired
  }

  lemma LeftNext<V>(m: map<nat, V>, fired: seq<nat>, i: nat)
    requires i < |fired|
    ensures m - Keys(fired[..i]) - {fired[i]} == m - Keys(fired[..i + 1])
  {
    assert fired[..i + 1] == fired[..i] + [fired[i]];
  }

  lemma BroadcastsNext(before: seq<(nat, Block)>, views: map<nat, Committing>, fired: seq<nat>, i: nat)
    requires i < |fired|
    ensures var left := views - Keys(fired[..i]);
      before + Broadcasts(views, fired[..i]) + (if fired[i] in left then BroadcastOf(fired[i], left[fired[i]]) else [])
      == before + Broadcasts(views, fired[..i + 1])
  {
    assert fired[..i + 1][..i] == fired[..i];
  }

  /** The block reported last, if something is finalized and no commit for it or above has come in. */
  ghost function BroadcastOf(k: nat, v: Committing): seq<(nat, Block)> {
    if && v.best.Some? && v.votes.finalized.Some?
       && (v.lastCommit.Some? ==> v.lastCommit.value < v.votes.finalized.value.1)
    then [(k, v.best.value)] else []
  }

  function FinalizedIn(votes: RoundView): nat {
    if votes.finalized.Some? then votes.finalized.value.1 else 0
  }

  /** A valid commit for a round that is not running. */
  predicate Foreign(running: set<nat>, commit: CommitIn) {
    commit.round !in running && commit.validated.Some?
  }

  /** Something is finalized, and no commit for it or above has come in. */
  predicate ToBroadcast(votes: RoundView, lastCommit: Option<nat>) {
    votes.finalized.Some? && (lastCommit.None? || lastCommit.value < votes.finalized.value.1)
  }

  /** `highest` is the greatest round among the valid commits for rounds that are not running. */
  ghost predicate IsHighest(running: set<nat>, commits: seq<CommitIn>, highest: Option<nat>) {
    && (highest.None? ==> forall c | c in commits :: !Foreign(running, c))
    && (highest.Some? ==>
          && (exists c :: c in commits && Foreign(running, c) && c.round == highest.value)
          && (forall c | c in commits && Foreign(running, c) :: c.round <= highest.value))
  }

  lemma HighestNext(running: set<nat>, commits: seq<CommitIn>, i: nat, highest: Option<nat>)
    requires i < |commits| && IsHighest(running, commits[..i], highest)
    ensures IsHighest(running, commits[..i + 1],
                      if Foreign(running, commits[i]) && (highest.None? || highest.value < commits[i].round)
                      then Some(commits[i].round) else highest)
  {
    assert commits[..i + 1] == commits[..i] + [commits[i]];
    assert commits[i] in commits[..i + 1];
    if highest.Some? {
      var c :| c in commits[..i] && Foreign(running, c) && c.round == highest.value;
      assert c in commits[..i + 1];
    }
  }

  /** What a run of commits amounts to, from what was finalized `first` and `last` before it. */
  ghost predicate Seen(running: set<nat>, commits: seq<CommitIn>, first: seq<nat>, last: nat, highest: Option<nat>,
                       finalizations: seq<nat>, number: nat) {
    var numbers := ForeignNumbers(running, commits);
    && IsHighest(running, commits, highest)
    && finalizations == first + Raised(numbers, last) && number == Highest(numbers, last)
  }

  lemma SeenNext(running: set<nat>, commits: seq<CommitIn>, i: nat, first: seq<nat>, last: nat, highest: Option<nat>,
                 finalizations: seq<nat>, number: nat)
    requires i < |commits| && Seen(running, commits[..i], first, last, highest, finalizations, number)
    ensures var c, foreign := commits[i], Foreign(running, commits[i]);
      Seen(running, commits[..i + 1], first, last,
           if foreign && (highest.None? || highest.value < c.round) then Some(c.round) else highest,
           finalizations + if foreign && c.validated.value.1 > number then [c.validated.value.1] else [],
           if foreign then Max(number, c.validated.value.1) else number)
  {
    HighestNext(running, commits, i, highest);
    ForeignNext(running, commits, i, last);
  }
}
