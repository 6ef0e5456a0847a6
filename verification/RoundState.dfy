/** What a round keeps, as values: the ledger of votes and the blocks it has published. Both invariants are
    carried as single facts; lemmas open them, argue about them and close them again. */
module RoundState {
  import opened Wrappers
  import opened BlockTree
  import opened Votes
  import opened Voters
  import opened BallotBox
  import opened Tally
  import opened Tracker
  import opened GraphSpec
  import opened VoteGraphs
  import opened GhostProofs
  import opened GhostSearch
  import opened GhostRestart
  import opened AncestorSearch
  import opened AncestorProofs
  import opened RoundProofs
  import opened Search

  /** A tracker's votes and their weight. */
  datatype Box = Box(votes: map<Id, VoteMultiplicity>, weight: nat)

  /** All that a round knows about its votes. */
  datatype Ledger = Ledger(voters: VoterSet, chain: Chain, base: Hash, log: Log<VoteWeight>, equivocators: VoteWeight,
                           prevotes: Box, precommits: Box) {
    function Of(kind: Kind): Box {
      match kind case Prevotes => prevotes case Precommits => precommits
    }

    function Put(kind: Kind, box: Box): Ledger {
      match kind case Prevotes => this.(prevotes := box) case Precommits => this.(precommits := box)
    }

    ghost function Cast(kind: Kind): Ballots {
      BallotsOf(voters, Of(kind).votes)
    }
  }

  /** The blocks a round remembers and publishes. */
  datatype Outputs = Outputs(prevoteGhost: Option<(Hash, nat)>, precommitGhost: Option<(Hash, nat)>,
                             finalized: Option<(Hash, nat)>, estimate: Option<(Hash, nat)>) {
    function Ghost(kind: Kind): Option<(Hash, nat)> {
      match kind case Prevotes => prevoteGhost case Precommits => precommitGhost
    }

    function WithGhost(kind: Kind, block: Option<(Hash, nat)>): Outputs {
      match kind case Prevotes => this.(prevoteGhost := block) case Precommits => this.(precommitGhost := block)
    }
  }

  /** The votes are tracked, weighed, recorded in the graph and their double voters marked. */
  ghost predicate Books(l: Ledger) {
    BooksBehind(l, 2)
  }

  ghost predicate BooksBehind(l: Ledger, steps: nat) {
    if steps == 0 then Balanced(l) else BooksBehind(l, steps - 1)
  }

  ghost predicate Balanced(l: Ledger) {
    l.voters.Valid() && InOrder(l, Prevotes) && InOrder(l, Precommits)
  }

  /** The votes of one kind. */
  ghost predicate InOrder(l: Ledger, kind: Kind) {
    Tallied(kind, l.voters, l.chain, l.base, l.log, l.equivocators, l.Of(kind).votes, l.Of(kind).weight)
  }

  lemma OpenBooks(l: Ledger)
    requires Books(l)
    ensures Balanced(l)
  {
    assert BooksBehind(l, 1);
    assert BooksBehind(l, 0);
  }

  lemma CloseBooks(l: Ledger)
    requires Balanced(l)
    ensures Books(l)
  {
    assert BooksBehind(l, 0);
    assert BooksBehind(l, 1);
  }

  lemma NewBooks(l: Ledger)
    requires l.voters.Valid() && l.log == [] && l.equivocators == VoteWeight({}, {}) && l.prevotes == Box(map[], 0)
    requires l.precommits == Box(map[], 0)
    ensures Books(l)
  {
    SetWeightNone(l.voters.voters, {});
    assert BallotsOf(l.voters, map[]).first.Keys == {};
    assert BallotsOf(l.voters, map[]).double == {};
    CloseBooks(l);
  }

  /** The ledger after a voter's first vote of a kind, which the graph accepts only above its base. */
  ghost function FirstVoted(l: Ledger, kind: Kind, id: Id, vote: SignedVote): Ledger
    requires id in l.voters.weights
  {
    var info, h := l.voters.weights[id], vote.0.targetHash;
    l.Put(kind, Box(WithVote(l.Of(kind).votes, id, vote), l.Of(kind).weight + info.weight))
     .(log := if AtOrBelow(l.chain, l.base, h) then l.log + [(h, Mark(kind, info.canonIdx))] else l.log)
  }

  /** The ledger after a voter's second vote of a kind. */
  ghost function SecondVoted(l: Ledger, kind: Kind, id: Id, vote: SignedVote): Ledger
    requires id in l.voters.weights
  {
    l.Put(kind, Box(WithVote(l.Of(kind).votes, id, vote), l.Of(kind).weight))
     .(equivocators := Merge(l.equivocators, Mark(kind, l.voters.weights[id].canonIdx)))
  }

  /** The ledger after any vote: a first one, an equivocation, or one that changes nothing. */
  ghost function Entered(l: Ledger, kind: Kind, id: Id, vote: SignedVote): Ledger {
    if id !in l.voters.weights then l
    else
      match NewMultiplicity(l.Of(kind).votes, id, vote)
      case None => l
      case Some(Single(_)) => FirstVoted(l, kind, id, vote)
      case Some(Equivocated(_, _)) => SecondVoted(l, kind, id, vote)
  }

  lemma FirstVoteOwn(l: Ledger, kind: Kind, id: Id, vote: SignedVote)
    requires l.voters.Valid() && InOrder(l, kind) && id in l.voters.weights && id !in l.Of(kind).votes
    ensures InOrder(FirstVoted(l, kind, id, vote), kind)
  {
    FirstVotedFields(l, kind, id, vote);
    TalliedFirst(kind, l.voters, l.chain, l.base, l.log, l.equivocators, l.Of(kind).votes, l.Of(kind).weight, id, vote);
  }

  lemma FirstVotedFields(l: Ledger, kind: Kind, id: Id, vote: SignedVote)
    requires id in l.voters.weights
    ensures var l', info, h := FirstVoted(l, kind, id, vote), l.voters.weights[id], vote.0.targetHash;
      && l'.voters == l.voters && l'.chain == l.chain && l'.base == l.base && l'.equivocators == l.equivocators
      && l'.log == (if AtOrBelow(l.chain, l.base, h) then l.log + [(h, Mark(kind, info.canonIdx))] else l.log)
      && l'.Of(kind).votes == WithVote(l.Of(kind).votes, id, vote)
         && l'.Of(kind).weight == l.Of(kind).weight + info.weight
      && l'.Of(Other(kind)) == l.Of(Other(kind))
  {
  }

  lemma FirstVoteOther(l: Ledger, kind: Kind, id: Id, vote: SignedVote)
    requires InOrder(l, Other(kind)) && id in l.voters.weights
    ensures InOrder(FirstVoted(l, kind, id, vote), Other(kind))
  {
    FirstVotedFields(l, kind, id, vote);
    var h, mark := vote.0.targetHash, Mark(kind, l.voters.weights[id].canonIdx);
    if AtOrBelow(l.chain, l.base, h) {
      RecordedOther(Other(kind), l.chain, l.base, l.log, l.Cast(Other(kind)), h, mark);
    }
  }

  lemma FirstVoteBooks(l: Ledger, kind: Kind, id: Id, vote: SignedVote)
    requires Books(l) && id in l.voters.weights && id !in l.Of(kind).votes
    ensures Books(FirstVoted(l, kind, id, vote))
  {
    OpenBooks(l);
    FirstVoteOwn(l, kind, id, vote);
    FirstVoteOther(l, kind, id, vote);
    CloseBooks(FirstVoted(l, kind, id, vote));
  }

  lemma SecondVoteBooks(l: Ledger, kind: Kind, id: Id, vote: SignedVote)
    requires Books(l) && id in l.voters.weights
    requires NewMultiplicity(l.Of(kind).votes, id, vote).Some?
    requires NewMultiplicity(l.Of(kind).votes, id, vote).value.Equivocated?
    ensures Books(SecondVoted(l, kind, id, vote))
  {
    OpenBooks(l);
    var other, idx := l.Of(Other(kind)), l.voters.weights[id].canonIdx;
    TalliedSecond(kind, l.voters, l.chain, l.base, l.log, l.equivocators, l.Of(kind).votes, l.Of(kind).weight, id,
                  vote);
    TalliedMark(Other(kind), l.voters, l.chain, l.base, l.log, l.equivocators, other.votes, other.weight, idx);
    CloseBooks(SecondVoted(l, kind, id, vote));
  }

  /** What entering a vote leaves alone. */
  lemma EnteredVotes(l: Ledger, kind: Kind, id: Id, vote: SignedVote)
    requires id in l.voters.weights
    ensures var l' := Entered(l, kind, id, vote);
      && l'.Of(kind).votes == WithVote(l.Of(kind).votes, id, vote) && l'.Of(Other(kind)) == l.Of(Other(kind))
      && l'.voters == l.voters && l'.chain == l.chain && l'.base == l.base
  {
  }

  /** A first vote above the base. */
  lemma EnteredFirst(l: Ledger, kind: Kind, id: Id, vote: SignedVote)
    requires id in l.voters.weights && id !in l.Of(kind).votes && AtOrBelow(l.chain, l.base, vote.0.targetHash)
    ensures var l', info := Entered(l, kind, id, vote), l.voters.weights[id];
      && l'.log == l.log + [(vote.0.targetHash, Mark(kind, info.canonIdx))] && l'.equivocators == l.equivocators
      && l'.Of(kind) == Box(l.Of(kind).votes[id := Single(vote)], l.Of(kind).weight + info.weight)
      && l'.Of(Other(kind)) == l.Of(Other(kind)) && l'.Of(kind).votes != l.Of(kind).votes
  {
    assert id in Entered(l, kind, id, vote).Of(kind).votes;
  }

  lemma EnteredMeans(l: Ledger, kind: Kind, id: Id, vote: SignedVote)
    requires Books(l) && id in l.voters.weights
    ensures var l' := Entered(l, kind, id, vote);
      && Books(l') && l'.Of(kind).votes == WithVote(l.Of(kind).votes, id, vote)
         && l'.Of(Other(kind)) == l.Of(Other(kind))
      && l'.voters == l.voters && l'.chain == l.chain && l'.base == l.base
  {
    EnteredVotes(l, kind, id, vote);
    match NewMultiplicity(l.Of(kind).votes, id, vote) {
      case None =>
      case Some(Single(_)) => FirstVoteBooks(l, kind, id, vote);
      case Some(Equivocated(_, _)) => SecondVoteBooks(l, kind, id, vote);
    }
  }

  lemma LedgerWeights(l: Ledger)
    requires Books(l)
    ensures l.voters.Valid() && WellFormed(l.voters, l.Cast(Prevotes)) && WellFormed(l.voters, l.Cast(Precommits))
    ensures l.prevotes.weight == CastWeight(l.voters, l.Cast(Prevotes))
    ensures l.precommits.weight == CastWeight(l.voters, l.Cast(Precommits))
    ensures l.voters.threshold <= Total(l.voters.voters) && l.precommits.weight <= Total(l.voters.voters)
  {
    OpenBooks(l);
    BallotsWellFormed(l.voters, l.prevotes.votes);
    BallotsWellFormed(l.voters, l.precommits.votes);
    WeightBounds(l.voters, l.chain, l.Cast(Precommits), 0);
  }

  /** The votes cast of a kind, and those at or above the base, reach the threshold. */
  ghost predicate BaseReaches(l: Ledger, kind: Kind) {
    && CastWeight(l.voters, l.Cast(kind)) >= l.voters.threshold
    && Supermajority(l.voters, l.chain, l.Cast(kind), l.base)
  }

  /** It shows in the weight of the base. */
  lemma BaseReachesMeans(l: Ledger, kind: Kind)
    requires Books(l) && l.base in l.chain.number
    ensures BaseReaches(l, kind) <==>
            && l.Of(kind).weight >= l.voters.threshold
            && ReachesThreshold(kind, l.equivocators, l.voters)(Weight(VOTES, l.chain, l.log, l.base))
  {
    LedgerWeights(l);
    OpenBooks(l);
    WeightIsSupport(kind, l.chain, l.base, l.log, l.Cast(kind), l.equivocators, l.voters, l.base);
  }

  /** The remembered and published blocks are backed by the votes. */
  ghost predicate Backed(l: Ledger, es: Entries<VoteWeight>, o: Outputs) {
    BackedBehind(l, es, o, 2)
  }

  ghost predicate BackedBehind(l: Ledger, es: Entries<VoteWeight>, o: Outputs, steps: nat) {
    if steps == 0 then Supported(l, es, o) else BackedBehind(l, es, o, steps - 1)
  }

  ghost predicate Supported(l: Ledger, es: Entries<VoteWeight>, o: Outputs) {
    && GhostOk(l.voters, l.chain, es, l.Cast(Prevotes), o.prevoteGhost)
    && GhostOk(l.voters, l.chain, es, l.Cast(Precommits), o.precommitGhost)
    && Consistent(l.chain, l.voters, l.Cast(Precommits), o.finalized, o.estimate)
  }

  lemma OpenBacked(l: Ledger, es: Entries<VoteWeight>, o: Outputs)
    requires Backed(l, es, o)
    ensures Supported(l, es, o)
  {
    assert BackedBehind(l, es, o, 1);
    assert BackedBehind(l, es, o, 0);
  }

  lemma CloseBacked(l: Ledger, es: Entries<VoteWeight>, o: Outputs)
    requires Supported(l, es, o)
    ensures Backed(l, es, o)
  {
    assert BackedBehind(l, es, o, 0);
    assert BackedBehind(l, es, o, 1);
  }

  lemma NumbersOf(l: Ledger, es: Entries<VoteWeight>, o: Outputs)
    requires Backed(l, es, o)
    ensures GoodNumber(l.chain, o.prevoteGhost) && GoodNumber(l.chain, o.precommitGhost)
  {
    OpenBacked(l, es, o);
  }

  /** One more vote keeps what has been published true. */
  lemma VoteKeepsOutputs(l: Ledger, l': Ledger, kind: Kind, id: Id, vote: SignedVote, es: Entries<VoteWeight>,
                         es': Entries<VoteWeight>, o: Outputs)
    requires Books(l) && Backed(l, es, o) && l'.voters == l.voters && l'.chain == l.chain && id in l.voters.weights
    requires l'.Of(kind).votes == WithVote(l.Of(kind).votes, id, vote)
    requires l'.Of(Other(kind)).votes == l.Of(Other(kind)).votes
    requires forall b | InGraph(es, b) :: InGraph(es', b)
    ensures Backed(l', es', o) && Extends(l.Cast(kind), l'.Cast(kind))
  {
    OpenBooks(l);
    OpenBacked(l, es, o);
    WithVoteExtends(l.voters, l.Of(kind).votes, id, vote);
    OutputsKept(l.voters, l.chain, es, es', l.Cast(Prevotes), l'.Cast(Prevotes), l.Cast(Precommits),
                l'.Cast(Precommits),
                o.prevoteGhost, o.precommitGhost, o.finalized, o.estimate);
    CloseBacked(l', es', o);
  }

  /** What refreshing a GHOST makes of the cached one, once the votes cast of its kind reach the threshold. */
  ghost predicate Refreshed(l: Ledger, es: Entries<VoteWeight>, kind: Kind, before: Option<(Hash, nat)>,
                            after: Option<(Hash, nat)>) {
    RefreshedBehind(l, es, kind, before, after, 2)
  }

  ghost predicate RefreshedBehind(l: Ledger, es: Entries<VoteWeight>, kind: Kind, before: Option<(Hash, nat)>,
                                  after: Option<(Hash, nat)>, steps: nat) {
    if steps == 0 then RefreshedTo(l, es, kind, before, after)
    else RefreshedBehind(l, es, kind, before, after, steps - 1)
  }

  ghost predicate RefreshedTo(l: Ledger, es: Entries<VoteWeight>, kind: Kind, before: Option<(Hash, nat)>,
                              after: Option<(Hash, nat)>) {
    if CastWeight(l.voters, l.Cast(kind)) >= l.voters.threshold
    then NewGhost(l.voters, l.chain, es, l.base, l.Cast(kind), before, after)
    else after == before
  }

  lemma OpenRefreshed(l: Ledger, es: Entries<VoteWeight>, kind: Kind, before: Option<(Hash, nat)>,
                      after: Option<(Hash, nat)>)
    requires Refreshed(l, es, kind, before, after)
    ensures RefreshedTo(l, es, kind, before, after)
  {
    assert RefreshedBehind(l, es, kind, before, after, 1);
    assert RefreshedBehind(l, es, kind, before, after, 0);
  }

  lemma CloseRefreshed(l: Ledger, es: Entries<VoteWeight>, kind: Kind, before: Option<(Hash, nat)>,
                       after: Option<(Hash, nat)>)
    requires RefreshedTo(l, es, kind, before, after)
    ensures Refreshed(l, es, kind, before, after)
  {
    assert RefreshedBehind(l, es, kind, before, after, 0);
    assert RefreshedBehind(l, es, kind, before, after, 1);
  }

  /** Storing a freshly searched GHOST. */
  lemma GhostSearched(graph: VoteGraph<VoteWeight>, l: Ledger, o: Outputs, kind: Kind, r: Option<(Hash, nat)>)
    requires graph.Valid() && Books(l) && Backed(l, graph.entries, o) && l.chain == graph.chain && l.base == graph.base
    requires l.log == graph.log
    requires GhostAnswer(VOTES, l.chain, graph.entries, l.base, l.log, o.Ghost(kind),
                         ReachesThreshold(kind, l.equivocators, l.voters), r)
    requires l.Of(kind).weight >= l.voters.threshold
    ensures Backed(l, graph.entries, o.WithGhost(kind, r)) && Refreshed(l, graph.entries, kind, o.Ghost(kind), r)
    ensures o.Ghost(kind).Some? ==> r.Some? && AtOrBelow(l.chain, o.Ghost(kind).value.0, r.value.0)
  {
    graph.Open();
    OpenBooks(l);
    OpenBacked(l, graph.entries, o);
    GhostMeans(kind, l.chain, graph.entries, l.base, l.log, l.voters, l.equivocators, l.Cast(kind), o.Ghost(kind), r);
    CloseBacked(l, graph.entries, o.WithGhost(kind, r));
    CloseRefreshed(l, graph.entries, kind, o.Ghost(kind), r);
  }

  /** Too few votes cast: the cached GHOST stays. */
  lemma GhostUnchanged(l: Ledger, es: Entries<VoteWeight>, kind: Kind, cached: Option<(Hash, nat)>)
    requires Books(l) && l.Of(kind).weight < l.voters.threshold
    ensures Refreshed(l, es, kind, cached, cached)
  {
    LedgerWeights(l);
    CloseRefreshed(l, es, kind, cached, cached);
  }

  /** Before precommits reach the threshold nothing is finalized, so any estimate will do. */
  lemma EarlyEstimate(l: Ledger, es: Entries<VoteWeight>, o: Outputs)
    requires Books(l) && Backed(l, es, o) && l.precommits.weight < l.voters.threshold
    ensures o.finalized.None? && Backed(l, es, o.(estimate := o.prevoteGhost))
  {
    LedgerWeights(l);
    OpenBacked(l, es, o);
    NothingFinalized(l.chain, l.voters, l.Cast(Precommits), o.finalized);
    CloseBacked(l, es, o.(estimate := o.prevoteGhost));
  }

  ghost predicate Searched(graph: VoteGraph<VoteWeight>, l: Ledger, g: (Hash, nat), cond: VoteWeight -> bool,
                           r: Option<(Hash, nat)>, start: Hash, canon: Hash, hashes: seq<Hash>)
    reads graph
  {
    AnswerBy(VOTES, l.chain, graph.entries, l.base, l.log, graph.order(graph.heads), g.0, g.1, cond, r, start, canon,
             hashes)
  }

  type Published = (Option<(Hash, nat)>, Option<(Hash, nat)>, bool)

  /** What an update publishes: finalized block, estimate, completable. */
  ghost predicate Updated(l: Ledger, es: Entries<VoteWeight>, order: seq<Hash>, prevoteGhost: Option<(Hash, nat)>,
                          before: Published, after: Published) {
    UpdatedBehind(l, es, order, prevoteGhost, before, after, 2)
  }

  ghost predicate UpdatedBehind(l: Ledger, es: Entries<VoteWeight>, order: seq<Hash>, prevoteGhost: Option<(Hash, nat)>,
                                before: Published, after: Published, steps: nat) {
    if steps == 0 then UpdatedTo(l, es, order, prevoteGhost, before, after)
    else UpdatedBehind(l, es, order, prevoteGhost, before, after, steps - 1)
  }

  ghost predicate UpdatedTo(l: Ledger, es: Entries<VoteWeight>, order: seq<Hash>, prevoteGhost: Option<(Hash, nat)>,
                            before: Published, after: Published) {
    && l.voters.Valid() && WellFormed(l.voters, l.Cast(Precommits))
    && if CastWeight(l.voters, l.Cast(Prevotes)) < l.voters.threshold || prevoteGhost.None? then after == before
       else if CastWeight(l.voters, l.Cast(Precommits)) < l.voters.threshold
       then after == (before.0, prevoteGhost, before.2)
       else
         && Found(l, es, after.0, after.1)
         && Concluded(l, es, order, prevoteGhost.value, after.0, after.1)
         && FromNode(l.voters, l.chain, es, l.Cast(Precommits), prevoteGhost.value.0, after.0, after.1)
         && after.2 == Completes(l, es, prevoteGhost.value.0, after.1)
  }

  /** Both blocks are what the searches from the prevote-GHOST answer. */
  ghost predicate Concluded(l: Ledger, es: Entries<VoteWeight>, order: seq<Hash>, g: (Hash, nat),
                            f: Option<(Hash, nat)>, e: Option<(Hash, nat)>)
    requires l.voters.Valid() && WellFormed(l.voters, l.Cast(Precommits))
  {
    && Answers(VOTES, l.chain, es, l.base, l.log, order, g.0, g.1, Reaches(l.voters, l.equivocators), f)
    && Answers(VOTES, l.chain, es, l.base, l.log, order, g.0, g.1,
               CouldReach(l.voters, l.equivocators, l.Cast(Precommits)), e)
  }

  /** A block is finalized exactly when the base has a supermajority, and has one itself; there is an estimate exactly
      when the base could still get one, and it could too. */
  ghost predicate Found(l: Ledger, es: Entries<VoteWeight>, f: Option<(Hash, nat)>, e: Option<(Hash, nat)>)
    requires l.voters.Valid() && WellFormed(l.voters, l.Cast(Precommits))
  {
    && (f.None? <==> !Supermajority(l.voters, l.chain, l.Cast(Precommits), l.base))
    && (f.Some? ==> InGraph(es, f.value.0) && Supermajority(l.voters, l.chain, l.Cast(Precommits), f.value.0))
    && (e.None? <==> !Possible(l.voters, l.chain, l.Cast(Precommits), l.base))
    && (e.Some? ==> InGraph(es, e.value.0) && Possible(l.voters, l.chain, l.Cast(Precommits), e.value.0))
  }

  lemma UpdateFound(l: Ledger, es: Entries<VoteWeight>, pc: Ballots, order: seq<Hash>, g: (Hash, nat),
                    f: Option<(Hash, nat)>, fStart: Hash, fCanon: Hash, fHashes: seq<Hash>,
                    e: Option<(Hash, nat)>, eStart: Hash, eCanon: Hash, eHashes: seq<Hash>)
    requires Counts(l.chain, es, l.base, l.log, l.voters, l.equivocators, pc) && pc == l.Cast(Precommits)
    requires InGraph(es, g.0)
    requires AncestorAnswer(VOTES, l.chain, es, l.base, l.log, order, g.0, g.1, Reaches(l.voters, l.equivocators), f,
                            fStart, fCanon, fHashes)
    requires AncestorAnswer(VOTES, l.chain, es, l.base, l.log, order, g.0, g.1,
                            CouldReach(l.voters, l.equivocators, pc), e, eStart, eCanon, eHashes)
    ensures Found(l, es, f, e)
  {
    var vs, eq := l.voters, l.equivocators;
    ConditionsMonotone(vs, eq, pc);
    AnswerFound(VOTES, l.chain, es, l.base, l.log, order, g.0, g.1, Reaches(vs, eq), f, fStart, fCanon, fHashes);
    AnswerFound(VOTES, l.chain, es, l.base, l.log, order, g.0, g.1, CouldReach(vs, eq, pc), e, eStart, eCanon, eHashes);
    ConditionsMean(l.chain, es, l.base, l.log, vs, eq, pc, l.base);
    if f.Some? {
      ConditionsMean(l.chain, es, l.base, l.log, vs, eq, pc, f.value.0);
    }
    if e.Some? {
      ConditionsMean(l.chain, es, l.base, l.log, vs, eq, pc, e.value.0);
    }
  }

  /** The estimate has fallen behind the prevote-GHOST, or nothing above it can reach the threshold any more. */
  ghost predicate Completes(l: Ledger, es: Entries<VoteWeight>, g: Hash, estimate: Option<(Hash, nat)>)
    requires l.voters.Valid() && WellFormed(l.voters, l.Cast(Precommits))
  {
    estimate.Some? && (estimate.value.0 != g || NoneAbove(l.voters, l.chain, es, l.Cast(Precommits), g))
  }

  lemma OpenUpdated(l: Ledger, es: Entries<VoteWeight>, order: seq<Hash>, prevoteGhost: Option<(Hash, nat)>,
                    before: Published, after: Published)
    requires Updated(l, es, order, prevoteGhost, before, after)
    ensures UpdatedTo(l, es, order, prevoteGhost, before, after)
  {
    assert UpdatedBehind(l, es, order, prevoteGhost, before, after, 1);
    assert UpdatedBehind(l, es, order, prevoteGhost, before, after, 0);
  }

  lemma CloseUpdated(l: Ledger, es: Entries<VoteWeight>, order: seq<Hash>, prevoteGhost: Option<(Hash, nat)>,
                     before: Published, after: Published)
    requires UpdatedTo(l, es, order, prevoteGhost, before, after)
    ensures Updated(l, es, order, prevoteGhost, before, after)
  {
    assert UpdatedBehind(l, es, order, prevoteGhost, before, after, 0);
    assert UpdatedBehind(l, es, order, prevoteGhost, before, after, 1);
  }

  /** No block of the graph strictly above `g` could still reach the threshold. */
  ghost predicate NoneAbove(vs: VoterSet, c: Chain, es: Entries<VoteWeight>, pc: Ballots, g: Hash)
    requires vs.Valid() && WellFormed(vs, pc)
  {
    forall y {:trigger InGraph(es, y)} | InGraph(es, y) && AtOrBelow(c, g, y) && y != g :: !Possible(vs, c, pc, y)
  }

  /** When the prevote-GHOST is a vote-node: both blocks are at or below it. The estimate is the GHOST itself while that
      is possible, and else at or above every possible node below it. With tolerable double voting the finalized block
      is the highest there with a supermajority. */
  ghost predicate FromNode(vs: VoterSet, c: Chain, es: Entries<VoteWeight>, pc: Ballots, g: Hash,
                           f: Option<(Hash, nat)>, e: Option<(Hash, nat)>)
    requires vs.Valid() && WellFormed(vs, pc)
  {
    g in es ==>
      && (f.Some? ==> AtOrBelow(c, f.value.0, g))
      && (e.Some? ==> AtOrBelow(c, e.value.0, g))
      && (Possible(vs, c, pc, g) ==> e.Some? && e.value.0 == g)
      && (forall k {:trigger k in es} | k in es && AtOrBelow(c, k, g) && Possible(vs, c, pc, k) ::
            e.Some? && AtOrBelow(c, k, e.value.0))
      && (Total(vs.voters) > 0 && Tolerable(vs, pc) ==>
            forall x {:trigger InGraph(es, x)} | InGraph(es, x) && AtOrBelow(c, x, g) && Supermajority(vs, c, pc, x) ::
              f.Some? && AtOrBelow(c, x, f.value.0))
  }

  lemma UpdateFromNode(c: Chain, es: Entries<VoteWeight>, base: Hash, log: Log<VoteWeight>, vs: VoterSet,
                       eq: VoteWeight, pc: Ballots, order: seq<Hash>, g: Hash, n: nat, f: Option<(Hash, nat)>,
                       fStart: Hash, fCanon: Hash, fHashes: seq<Hash>, e: Option<(Hash, nat)>, eStart: Hash,
                       eCanon: Hash, eHashes: seq<Hash>)
    requires Counts(c, es, base, log, vs, eq, pc)
    requires AncestorAnswer(VOTES, c, es, base, log, order, g, n, Reaches(vs, eq), f, fStart, fCanon, fHashes)
    requires AncestorAnswer(VOTES, c, es, base, log, order, g, n, CouldReach(vs, eq, pc), e, eStart, eCanon, eHashes)
    ensures FromNode(vs, c, es, pc, g, f, e)
  {
    if g in es {
      ConditionsMonotone(vs, eq, pc);
      if f.Some? && !Reaches(vs, eq)(Weight(VOTES, c, log, g)) {
        AnswerMeets(VOTES, c, es, base, log, Reaches(vs, eq), fStart, fCanon, fHashes, f.value.0);
      }
      if e.Some? && !CouldReach(vs, eq, pc)(Weight(VOTES, c, log, g)) {
        AnswerMeets(VOTES, c, es, base, log, CouldReach(vs, eq, pc), eStart, eCanon, eHashes, e.value.0);
      }
      ConditionsMean(c, es, base, log, vs, eq, pc, g);
      forall k | k in es && AtOrBelow(c, k, g) && Possible(vs, c, pc, k) ensures e.Some? && AtOrBelow(c, k, e.value.0) {
        EstimateAbove(c, es, base, log, vs, eq, pc, order, g, n, e, eStart, eCanon, eHashes, k);
      }
      if Total(vs.voters) > 0 && Tolerable(vs, pc) {
        forall x | InGraph(es, x) && AtOrBelow(c, x, g) && Supermajority(vs, c, pc, x)
          ensures f.Some? && AtOrBelow(c, x, f.value.0) {
          HighestFinalized(c, es, base, log, vs, eq, pc, order, g, n, f, fStart, fCanon, fHashes, x);
        }
      }
    }
  }

  lemma EstimateAbove(c: Chain, es: Entries<VoteWeight>, base: Hash, log: Log<VoteWeight>, vs: VoterSet, eq: VoteWeight,
                      pc: Ballots, order: seq<Hash>, g: Hash, n: nat, e: Option<(Hash, nat)>, start: Hash, canon: Hash,
                      hashes: seq<Hash>, k: Hash)
    requires Counts(c, es, base, log, vs, eq, pc) && g in es && k in es && AtOrBelow(c, k, g) && Possible(vs, c, pc, k)
    requires AncestorAnswer(VOTES, c, es, base, log, order, g, n, CouldReach(vs, eq, pc), e, start, canon, hashes)
    ensures e.Some? && AtOrBelow(c, k, e.value.0)
  {
    var cond := CouldReach(vs, eq, pc);
    ConditionsMonotone(vs, eq, pc);
    ConditionsMean(c, es, base, log, vs, eq, pc, k);
    AnswerFound(VOTES, c, es, base, log, order, g, n, cond, e, start, canon, hashes);
    BaseBelow(c, es, base, k);
    WeightMonotone(VOTES, c, log, base, k, cond);
    if !cond(Weight(VOTES, c, log, g)) {
      AboveNodes(VOTES, c, es, base, log, cond, start, canon, hashes, e.value.0, k);
    }
  }

  lemma HighestFinalized(c: Chain, es: Entries<VoteWeight>, base: Hash, log: Log<VoteWeight>, vs: VoterSet,
                         eq: VoteWeight, pc: Ballots, order: seq<Hash>, g: Hash, n: nat, f: Option<(Hash, nat)>,
                         start: Hash, canon: Hash, hashes: seq<Hash>, x: Hash)
    requires Counts(c, es, base, log, vs, eq, pc) && Total(vs.voters) > 0 && Tolerable(vs, pc)
    requires AncestorAnswer(VOTES, c, es, base, log, order, g, n, Reaches(vs, eq), f, start, canon, hashes)
    requires g in es && InGraph(es, x) && AtOrBelow(c, x, g) && Supermajority(vs, c, pc, x)
    ensures f.Some? && AtOrBelow(c, x, f.value.0)
  {
    ConditionsMonotone(vs, eq, pc);
    ConditionsMean(c, es, base, log, vs, eq, pc, x);
    if !Reaches(vs, eq)(Weight(VOTES, c, log, g)) {
      GraphKnown(c, es, base, x);
      WeightMonotone(VOTES, c, log, base, x, Reaches(vs, eq));
      SupermajorityExclusive(c, es, base, log, vs, eq, pc);
      FindAncestorHighest(VOTES, c, es, base, log, Reaches(vs, eq), start, canon, hashes, f.value.0, x);
    }
  }

  /** Below the threshold nothing can have been finalized. */
  lemma NothingFinalized(c: Chain, vs: VoterSet, pc: Ballots, f: Option<(Hash, nat)>)
    requires vs.Valid() && WellFormed(vs, pc) && CastWeight(vs, pc) < vs.threshold
    requires f.Some? ==> Supermajority(vs, c, pc, f.value.0)
    ensures f.None?
  {
    if f.Some? {
      WeightBounds(vs, c, pc, f.value.0);
    }
  }

  /** The search above the estimate tells whether any higher block could still reach the threshold. */
  lemma CompletableMeans(c: Chain, es: Entries<VoteWeight>, base: Hash, log: Log<VoteWeight>, vs: VoterSet,
                         eq: VoteWeight, pc: Ballots, g: Hash, n: nat, x: Option<(Hash, nat)>)
    requires Counts(c, es, base, log, vs, eq, pc) && InGraph(es, g) && g in c.number && n == c.number[g]
    requires CouldReach(vs, eq, pc)(Weight(VOTES, c, log, g))
    requires GhostAnswer(VOTES, c, es, base, log, Some((g, n)), CouldReach(vs, eq, pc), x)
    ensures x.None? || x.value == (g, n) <==> NoneAbove(vs, c, es, pc, g)
  {
    var cond := CouldReach(vs, eq, pc);
    var start := StartBelow(c, es, base, (g, n));
    StartMeets(c, es, base, log, vs, eq, pc, g, n, start);
    var b: Hash := x.value.0;
    assert Heaviest(VOTES, c, es, log, cond, b);
    forall y | InGraph(es, y) ensures cond(Weight(VOTES, c, log, y)) <==> Possible(vs, c, pc, y) {
      ConditionsMean(c, es, base, log, vs, eq, pc, y);
    }
  }

  lemma StartMeets(c: Chain, es: Entries<VoteWeight>, base: Hash, log: Log<VoteWeight>, vs: VoterSet, eq: VoteWeight,
                   pc: Ballots, g: Hash, n: nat, start: Hash)
    requires Counts(c, es, base, log, vs, eq, pc) && AtOrBelow(c, start, g)
    requires CouldReach(vs, eq, pc)(Weight(VOTES, c, log, g))
    ensures CouldReach(vs, eq, pc)(Weight(VOTES, c, log, start))
  {
    ConditionsMonotone(vs, eq, pc);
    WeightMonotone(VOTES, c, log, start, g, CouldReach(vs, eq, pc));
  }

  /** A GHOST search with the threshold condition finds the supermajority block it should. */
  lemma GhostMeans(kind: Kind, c: Chain, es: Entries<VoteWeight>, base: Hash, log: Log<VoteWeight>, vs: VoterSet,
                   eq: VoteWeight, s: Ballots, cached: Option<(Hash, nat)>, r: Option<(Hash, nat)>)
    requires EdgesOk(c, es, base) && Recorded(kind, c, base, log, s) && Half(kind, eq) == s.double
    requires GhostOk(vs, c, es, s, cached)
    requires GhostAnswer(VOTES, c, es, base, log, cached, ReachesThreshold(kind, eq, vs), r)
    ensures NewGhost(vs, c, es, base, s, cached, r) && GhostOk(vs, c, es, s, r)
  {
    var cond := ReachesThreshold(kind, eq, vs);
    forall y | InGraph(es, y) ensures cond(Weight(VOTES, c, log, y)) <==> Supermajority(vs, c, s, y) {
      GraphKnown(c, es, base, y);
      WeightIsSupport(kind, c, base, log, s, eq, vs, y);
    }
    if cached.Some? {
      var start := StartBelow(c, es, base, cached.value);
      MergeLawful();
      ThresholdMonotone(kind, eq, vs);
      WeightMonotone(VOTES, c, log, start, cached.value.0, cond);
    } else {
      assert StartsAt(es, base, cached, base) && InGraph(es, base);
    }
  }

  lemma OutputsKept(vs: VoterSet, c: Chain, es: Entries<VoteWeight>, es': Entries<VoteWeight>, pv: Ballots,
                    pv': Ballots, pc: Ballots, pc': Ballots, prevoteGhost: Option<(Hash, nat)>,
                    precommitGhost: Option<(Hash, nat)>, finalized: Option<(Hash, nat)>, estimate: Option<(Hash, nat)>)
    requires (forall b | InGraph(es, b) :: InGraph(es', b)) && Extends(pv, pv') && Extends(pc, pc')
    requires GhostOk(vs, c, es, pv, prevoteGhost) && GhostOk(vs, c, es, pc, precommitGhost)
    requires Consistent(c, vs, pc, finalized, estimate)
    ensures GhostOk(vs, c, es', pv', prevoteGhost) && GhostOk(vs, c, es', pc', precommitGhost)
    ensures Consistent(c, vs, pc', finalized, estimate)
  {
    GhostKept(vs, c, es, es', pv, pv', prevoteGhost);
    GhostKept(vs, c, es, es', pc, pc', precommitGhost);
    SetWeightMonotone(vs.voters, pc.double, pc'.double);
    if finalized.Some? {
      SupermajorityKept(vs, c, pc, pc', finalized.value.0);
    }
  }

  lemma SupermajorityKept(vs: VoterSet, c: Chain, s: Ballots, s': Ballots, b: Hash)
    requires Extends(s, s') && Supermajority(vs, c, s, b)
    ensures Supermajority(vs, c, s', b)
  {
    SupportGrows(c, s, s', b);
    SetWeightMonotone(vs.voters, Support(c, s, b), Support(c, s', b));
  }

  lemma GhostKept(vs: VoterSet, c: Chain, es: Entries<VoteWeight>, es': Entries<VoteWeight>, s: Ballots, s': Ballots,
                  block: Option<(Hash, nat)>)
    requires (forall b | InGraph(es, b) :: InGraph(es', b)) && Extends(s, s') && GhostOk(vs, c, es, s, block)
    ensures GhostOk(vs, c, es', s', block)
  {
    if block.Some? {
      var b: Hash := block.value.0;
      assert InGraph(es, b);
      SupermajorityKept(vs, c, s, s', block.value.0);
    }
  }

  /** Tracking a vote extends the ballots. */
  lemma WithVoteExtends(vs: VoterSet, votes: map<Id, VoteMultiplicity>, id: Id, vote: SignedVote)
    requires vs.Valid() && id in vs.weights
    ensures Extends(BallotsOf(vs, votes), BallotsOf(vs, WithVote(votes, id, vote)))
  {
    match NewMultiplicity(votes, id, vote) {
      case None =>
      case Some(Single(_)) => FirstVoteBallots(vs, votes, id, vote);
      case Some(Equivocated(_, _)) => SecondVoteBallots(vs, votes, id, vote);
    }
  }

  /** The equivocation proof for a voter's multiplicity. */
  function Evidence(m: Option<VoteMultiplicity>): Option<(SignedVote, SignedVote)> {
    match m
    case Some(Equivocated(first, second)) => Some((first, second))
    case _ => None
  }

  /** A freshly searched GHOST: at or above the cached one, with a supermajority that nothing of the graph above
      it has; there is none only when there was none and the base has no supermajority. */
  ghost predicate NewGhost(vs: VoterSet, c: Chain, es: Entries<VoteWeight>, base: Hash, s: Ballots,
                           cached: Option<(Hash, nat)>, r: Option<(Hash, nat)>) {
    && (r.None? <==> cached.None? && !Supermajority(vs, c, s, base))
    && (r.Some? ==>
          && InGraph(es, r.value.0) && Supermajority(vs, c, s, r.value.0)
          && AtOrBelow(c, if cached.Some? then cached.value.0 else base, r.value.0)
          && (forall y {:trigger InGraph(es, y)} | InGraph(es, y) && AtOrBelow(c, r.value.0, y)
              && y != r.value.0 :: !Supermajority(vs, c, s, y)))
  }

  /** No block of the whole chain above it has a supermajority, but for the one that voters counted for every block have
      among themselves. */
  ghost predicate NoneHigher(vs: VoterSet, c: Chain, s: Ballots, block: Hash) {
    forall y | AtOrBelow(c, block, y) && y != block && Supermajority(vs, c, s, y) :: Support(c, s, y) == s.double
  }

  /** What a GHOST search finds is the highest not only in the graph: whatever else is supported is in the graph. */
  lemma GhostIsHighest(kind: Kind, c: Chain, es: Entries<VoteWeight>, base: Hash, log: Log<VoteWeight>, vs: VoterSet,
                       s: Ballots, cached: Option<(Hash, nat)>, r: Option<(Hash, nat)>)
    requires EdgesOk(c, es, base) && VotesOk(VOTES, c, es, log) && Recorded(kind, c, base, log, s)
    requires NewGhost(vs, c, es, base, s, cached, r) && r.Some?
    ensures NoneHigher(vs, c, s, r.value.0)
  {
    var b: Hash := r.value.0;
    InGraphMeans(c, es, base, b);
    forall y | AtOrBelow(c, b, y) && y != b && Supermajority(vs, c, s, y) ensures Support(c, s, y) == s.double {
      forall i | i in s.first ensures !AtOrBelow(c, y, s.first[i]) {
        VotedInGraph(kind, c, es, base, log, s, b, y, i);
      }
      assert Support(c, s, y) == {} + s.double;
    }
  }

  lemma VotedInGraph(kind: Kind, c: Chain, es: Entries<VoteWeight>, base: Hash, log: Log<VoteWeight>, s: Ballots,
                     b: Hash, y: Hash, i: int)
    requires EdgesOk(c, es, base) && VotesOk(VOTES, c, es, log) && Recorded(kind, c, base, log, s)
    requires AtOrBelow(c, base, b) && AtOrBelow(c, b, y) && i in s.first
    ensures AtOrBelow(c, y, s.first[i]) ==> InGraph(es, y)
  {
    if AtOrBelow(c, y, s.first[i]) {
      BelowTrans(c, base, b, y);
      BelowTrans(c, base, y, s.first[i]);
      assert HasLogEntry(kind, log, i);
      var j :| LoggedBy(kind, log, j, i);
      assert log[j].0 in es;
      InGraphMeans(c, es, base, y);
    }
  }

  ghost predicate GoodTarget(c: Chain, vote: Vote) {
    vote.targetHash in c.number ==> vote.targetNumber == c.number[vote.targetHash]
  }

  /** One kind of votes is tracked by voters of the set, weighed, recorded in the graph and its double voters marked. */
  ghost predicate Tallied(kind: Kind, vs: VoterSet, c: Chain, base: Hash, log: Log<VoteWeight>, eq: VoteWeight,
                          votes: map<Id, VoteMultiplicity>, weight: nat) {
    && votes.Keys <= vs.weights.Keys
    && weight == CastWeight(vs, BallotsOf(vs, votes))
    && Half(kind, eq) == BallotsOf(vs, votes).double
    && Recorded(kind, c, base, log, BallotsOf(vs, votes))
  }

  /** A second vote marks its voter and keeps everything else. */
  lemma TalliedSecond(kind: Kind, vs: VoterSet, c: Chain, base: Hash, log: Log<VoteWeight>, eq: VoteWeight,
                      votes: map<Id, VoteMultiplicity>, weight: nat, id: Id, vote: SignedVote)
    requires vs.Valid() && Tallied(kind, vs, c, base, log, eq, votes, weight) && id in vs.weights
    requires NewMultiplicity(votes, id, vote).Some? && NewMultiplicity(votes, id, vote).value.Equivocated?
    ensures Tallied(kind, vs, c, base, log, Merge(eq, Mark(kind, vs.weights[id].canonIdx)), WithVote(votes, id, vote),
                    weight)
  {
    SecondVoteBallots(vs, votes, id, vote);
    var s, s' := BallotsOf(vs, votes), BallotsOf(vs, WithVote(votes, id, vote));
    assert s'.first == s.first;
    RecordedSame(kind, c, base, log, s, s');
  }

  lemma RecordedSame(kind: Kind, c: Chain, base: Hash, log: Log<VoteWeight>, s: Ballots, s': Ballots)
    requires Recorded(kind, c, base, log, s) && s'.first == s.first
    ensures Recorded(kind, c, base, log, s')
  {
  }

  /** Marking a double vote of the other kind changes nothing. */
  lemma TalliedMark(kind: Kind, vs: VoterSet, c: Chain, base: Hash, log: Log<VoteWeight>, eq: VoteWeight,
                    votes: map<Id, VoteMultiplicity>, weight: nat, idx: nat)
    requires Tallied(kind, vs, c, base, log, eq, votes, weight)
    ensures Tallied(kind, vs, c, base, log, Merge(eq, Mark(Other(kind), idx)), votes, weight)
  {
    assert Half(kind, eq) + {} == Half(kind, eq);
  }

  /** A first vote is accounted for once it is in the graph, or at once when it is not above the base. */
  lemma TalliedFirst(kind: Kind, vs: VoterSet, c: Chain, base: Hash, log: Log<VoteWeight>, eq: VoteWeight,
                     votes: map<Id, VoteMultiplicity>, weight: nat, id: Id, vote: SignedVote)
    requires vs.Valid() && Tallied(kind, vs, c, base, log, eq, votes, weight) && id in vs.weights && id !in votes
    ensures var log' := if AtOrBelow(c, base, vote.0.targetHash)
            then log + [(vote.0.targetHash, Mark(kind, vs.weights[id].canonIdx))] else log;
            Tallied(kind, vs, c, base, log', eq, WithVote(votes, id, vote), weight + vs.weights[id].weight)
  {
    FirstVoteBallots(vs, votes, id, vote);
    var s, s', idx := BallotsOf(vs, votes), BallotsOf(vs, WithVote(votes, id, vote)), vs.weights[id].canonIdx;
    assert WithVote(votes, id, vote) == votes[id := Single(vote)];
    if AtOrBelow(c, base, vote.0.targetHash) {
      RecordedFirst(kind, c, base, log, s, s', idx, vote.0.targetHash, Mark(kind, idx));
    } else {
      RecordedNotDescendent(kind, c, base, log, s, s', idx, vote.0.targetHash);
    }
  }

  /** A cached GHOST: a block of the graph with a supermajority. */
  ghost predicate GhostOk(vs: VoterSet, c: Chain, es: Entries<VoteWeight>, s: Ballots, block: Option<(Hash, nat)>) {
    block.Some? ==>
      && block.value.0 in c.number && block.value.1 == c.number[block.value.0]
      && InGraph(es, block.value.0) && Supermajority(vs, c, s, block.value.0)
  }

  /** What the searches of an update find, once the precommits have reached the threshold. */
  lemma UpdateFacts(graph: VoteGraph<VoteWeight>, l: Ledger, o: Outputs, g: (Hash, nat), f: Option<(Hash, nat)>,
                    fStart: Hash, fCanon: Hash, fHashes: seq<Hash>, e: Option<(Hash, nat)>, eStart: Hash, eCanon: Hash,
                    eHashes: seq<Hash>, x: Option<(Hash, nat)>, done: bool)
    requires graph.Valid() && Books(l) && Backed(l, graph.entries, o) && l.chain == graph.chain && l.base == graph.base
    requires l.log == graph.log
    requires graph.monoid == VOTES && o.prevoteGhost == Some(g) && l.voters.Valid()
    requires WellFormed(l.voters, l.Cast(Precommits))
    requires Searched(graph, l, g, Reaches(l.voters, l.equivocators), f, fStart, fCanon, fHashes)
    requires Searched(graph, l, g, CouldReach(l.voters, l.equivocators, l.Cast(Precommits)), e, eStart, eCanon, eHashes)
    requires e.Some? && e.value.0 == g.0 ==>
               GhostAnswer(VOTES, l.chain, graph.entries, l.base, l.log, e,
                           CouldReach(l.voters, l.equivocators, l.Cast(Precommits)), x)
    requires done == (e.Some? && (e.value.0 != g.0 || x.None? || x.value == g))
    ensures Backed(l, graph.entries, o.(finalized := f, estimate := e))
    ensures Found(l, graph.entries, f, e) && FromNode(l.voters, l.chain, graph.entries, l.Cast(Precommits), g.0, f, e)
    ensures Concluded(l, graph.entries, graph.order(graph.heads), g, f, e)
    ensures done == Completes(l, graph.entries, g.0, e)
  {
    var es, pc := graph.entries, l.Cast(Precommits);
    graph.Open();
    OpenBooks(l);
    OpenBacked(l, es, o);
    assert Counts(l.chain, es, l.base, l.log, l.voters, l.equivocators, pc);
    UpdateConsistent(l.chain, es, l.base, l.log, l.voters, l.equivocators, pc, graph.order(graph.heads),
                     g.0, g.1, f, fStart, fCanon, fHashes, e, eStart, eCanon, eHashes);
    UpdateFound(l, es, pc, graph.order(graph.heads), g, f, fStart, fCanon, fHashes, e, eStart, eCanon, eHashes);
    UpdateFromNode(l.chain, es, l.base, l.log, l.voters, l.equivocators, pc, graph.order(graph.heads),
                   g.0, g.1, f, fStart, fCanon, fHashes, e, eStart, eCanon, eHashes);
    if e.Some? && e.value.0 == g.0 {
      EstimateMeets(l.chain, es, l.base, l.log, l.voters, l.equivocators, pc, graph.order(graph.heads), g, e, eStart,
                    eCanon, eHashes);
      CompletableMeans(l.chain, es, l.base, l.log, l.voters, l.equivocators, pc, g.0, g.1, x);
    }
    CloseBacked(l, es, o.(finalized := f, estimate := e));
  }

  /** Everything an update publishes, from its searches. */
  lemma UpdateMeans(graph: VoteGraph<VoteWeight>, l: Ledger, o: Outputs, g: (Hash, nat), f: Option<(Hash, nat)>,
                    fStart: Hash, fCanon: Hash, fHashes: seq<Hash>, e: Option<(Hash, nat)>, eStart: Hash, eCanon: Hash,
                    eHashes: seq<Hash>, x: Option<(Hash, nat)>, done: bool, before: Published)
    requires graph.Valid() && Books(l) && Backed(l, graph.entries, o) && l.chain == graph.chain && l.base == graph.base
    requires l.log == graph.log
    requires graph.monoid == VOTES && o.prevoteGhost == Some(g) && l.voters.Valid()
    requires WellFormed(l.voters, l.Cast(Precommits))
    requires Searched(graph, l, g, Reaches(l.voters, l.equivocators), f, fStart, fCanon, fHashes)
    requires Searched(graph, l, g, CouldReach(l.voters, l.equivocators, l.Cast(Precommits)), e, eStart, eCanon, eHashes)
    requires e.Some? && e.value.0 == g.0 ==>
               GhostAnswer(VOTES, l.chain, graph.entries, l.base, l.log, e,
                           CouldReach(l.voters, l.equivocators, l.Cast(Precommits)), x)
    requires done == (e.Some? && (e.value.0 != g.0 || x.None? || x.value == g))
    requires l.prevotes.weight >= l.voters.threshold && l.precommits.weight >= l.voters.threshold
    ensures Backed(l, graph.entries, o.(finalized := f, estimate := e))
    ensures Updated(l, graph.entries, graph.order(graph.heads), Some(g), before, (f, e, done))
  {
    UpdateFacts(graph, l, o, g, f, fStart, fCanon, fHashes, e, eStart, eCanon, eHashes, x, done);
    LedgerWeights(l);
    CloseUpdated(l, graph.entries, graph.order(graph.heads), Some(g), before, (f, e, done));
  }

  /** Too few prevotes, or no GHOST yet: nothing is published. */
  lemma UpdatedSame(l: Ledger, es: Entries<VoteWeight>, order: seq<Hash>, prevoteGhost: Option<(Hash, nat)>,
                    before: Published)
    requires Books(l) && (l.prevotes.weight < l.voters.threshold || prevoteGhost.None?)
    ensures Updated(l, es, order, prevoteGhost, before, before)
  {
    LedgerWeights(l);
    CloseUpdated(l, es, order, prevoteGhost, before, before);
  }

  /** Too few precommits: the estimate is the prevote-GHOST. */
  lemma UpdatedEarly(l: Ledger, es: Entries<VoteWeight>, order: seq<Hash>, prevoteGhost: Option<(Hash, nat)>,
                     before: Published)
    requires Books(l) && l.prevotes.weight >= l.voters.threshold && prevoteGhost.Some?
    requires l.precommits.weight < l.voters.threshold
    ensures Updated(l, es, order, prevoteGhost, before, (before.0, prevoteGhost, before.2))
  {
    LedgerWeights(l);
    CloseUpdated(l, es, order, prevoteGhost, before, (before.0, prevoteGhost, before.2));
  }

  lemma EstimateMeets(c: Chain, es: Entries<VoteWeight>, base: Hash, log: Log<VoteWeight>, vs: VoterSet, eq: VoteWeight,
                      pc: Ballots, order: seq<Hash>, g: (Hash, nat), e: Option<(Hash, nat)>, start: Hash, canon: Hash,
                      hashes: seq<Hash>)
    requires Counts(c, es, base, log, vs, eq, pc) && InGraph(es, g.0) && g.0 in c.number && g.1 == c.number[g.0]
    requires AncestorAnswer(VOTES, c, es, base, log, order, g.0, g.1, CouldReach(vs, eq, pc), e, start, canon, hashes)
    requires e.Some? && e.value.0 == g.0
    ensures e == Some(g) && CouldReach(vs, eq, pc)(Weight(VOTES, c, log, g.0))
  {
    if !(g.0 in es && CouldReach(vs, eq, pc)(Weight(VOTES, c, log, g.0))) {
      ConditionsMonotone(vs, eq, pc);
      AnswerMeets(VOTES, c, es, base, log, CouldReach(vs, eq, pc), start, canon, hashes, e.value.0);
    }
  }
}
