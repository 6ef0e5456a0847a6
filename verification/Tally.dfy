/** Vote weights as a pair of voter sets, and how the votes recorded in a graph relate to ballots. */
module Tally {
  import opened Wrappers
  import opened BlockTree
  import opened Votes
  import opened Voters
  import opened BallotBox

  /** Positions of the voters who prevoted, and of those who precommitted. */
  datatype VoteWeight = VoteWeight(prevotes: set<int>, precommits: set<int>)

  function Merge(x: VoteWeight, y: VoteWeight): VoteWeight {
    VoteWeight(x.prevotes + y.prevotes, x.precommits + y.precommits)
  }

  const VOTES: Monoid<VoteWeight> := Monoid(VoteWeight({}, {}), (x: VoteWeight, y: VoteWeight) => Merge(x, y))

  lemma MergeLawful()
    ensures Lawful(VOTES)
  {
    forall x, y ensures Commutes(VOTES, x, y) {
      assert x.prevotes + y.prevotes == y.prevotes + x.prevotes
             && x.precommits + y.precommits == y.precommits + x.precommits;
    }
    forall x, y, z ensures Associates(VOTES, x, y, z) {
      assert x.prevotes + y.prevotes + z.prevotes == x.prevotes + (y.prevotes + z.prevotes);
      assert x.precommits + y.precommits + z.precommits == x.precommits + (y.precommits + z.precommits);
    }
    forall x ensures Neutral(VOTES, x) {
      assert {} + x.prevotes == x.prevotes && {} + x.precommits == x.precommits;
    }
  }

  /** Which half of a vote weight is meant. */
  datatype Kind = Prevotes | Precommits

  function Half(kind: Kind, w: VoteWeight): set<int> {
    match kind case Prevotes => w.prevotes case Precommits => w.precommits
  }

  function Other(kind: Kind): Kind {
    match kind case Prevotes => Precommits case Precommits => Prevotes
  }

  /** The weight of one voter's vote. */
  function Mark(kind: Kind, idx: nat): VoteWeight {
    match kind case Prevotes => VoteWeight({idx}, {}) case Precommits => VoteWeight({}, {idx})
  }

  /** `VoteWeight::total_weight`, one component: equivocators count for everything, once. */
  function TotalWeight(kind: Kind, w: VoteWeight, equivocators: VoteWeight, vs: VoterSet): nat {
    SetWeight(vs.voters, Half(kind, Merge(w, equivocators)))
  }

  /** The threshold condition handed to the graph searches. */
  function ReachesThreshold(kind: Kind, equivocators: VoteWeight, vs: VoterSet): VoteWeight -> bool {
    (w: VoteWeight) => TotalWeight(kind, w, equivocators, vs) >= vs.threshold
  }

  /** The `possible_to_precommit` closure. */
  function CouldReachThreshold(equivocators: VoteWeight, vs: VoterSet, total: nat, cast: nat): VoteWeight -> bool
    requires vs.threshold <= total && cast <= total
  {
    (w: VoteWeight) =>
      CanStillReach(total, vs.threshold, cast, SetWeight(vs.voters, equivocators.precommits),
                    TotalWeight(Precommits, w, equivocators, vs))
  }

  lemma TotalWeightGrows(kind: Kind, w: VoteWeight, v: VoteWeight, equivocators: VoteWeight, vs: VoterSet)
    ensures TotalWeight(kind, w, equivocators, vs) <= TotalWeight(kind, Merge(w, v), equivocators, vs)
  {
    SetWeightMonotone(vs.voters, Half(kind, Merge(w, equivocators)), Half(kind, Merge(Merge(w, v), equivocators)));
  }

  lemma ThresholdMonotone(kind: Kind, equivocators: VoteWeight, vs: VoterSet)
    ensures Monotone(VOTES, ReachesThreshold(kind, equivocators, vs))
  {
    forall w, v ensures Preserves(VOTES, ReachesThreshold(kind, equivocators, vs), w, v) {
      TotalWeightGrows(kind, w, v, equivocators, vs);
    }
  }

  lemma CouldReachMonotone(equivocators: VoteWeight, vs: VoterSet, total: nat, cast: nat)
    requires vs.threshold <= total && cast <= total
    ensures Monotone(VOTES, CouldReachThreshold(equivocators, vs, total, cast))
  {
    forall w, v ensures Preserves(VOTES, CouldReachThreshold(equivocators, vs, total, cast), w, v) {
      TotalWeightGrows(Precommits, w, v, equivocators, vs);
    }
  }

  // ---- What a graph's log says about each voter ----

  /** The log has exactly the first votes that target the base or above, each under its voter. */
  ghost predicate Recorded(kind: Kind, c: Chain, base: Hash, log: Log<VoteWeight>, s: Ballots) {
    && (forall j, i {:trigger LoggedBy(kind, log, j, i)} | LoggedBy(kind, log, j, i) ::
          i in s.first && s.first[i] == log[j].0)
    && (forall i {:trigger HasLogEntry(kind, log, i)} | i in s.first
        && AtOrBelow(c, base, s.first[i]) :: HasLogEntry(kind, log, i))
  }

  ghost predicate HasLogEntry(kind: Kind, log: Log<VoteWeight>, i: int) {
    exists j :: LoggedBy(kind, log, j, i)
  }

  ghost predicate LoggedBy(kind: Kind, log: Log<VoteWeight>, j: int, i: int) {
    0 <= j < |log| && i in Half(kind, log[j].1)
  }

  lemma {:induction false} SumHalf(kind: Kind, log: Log<VoteWeight>, s: set<Hash>, i: int)
    ensures i in Half(kind, SumIn(VOTES, log, s)) <==> exists j :: LoggedBy(kind, log, j, i) && log[j].0 in s
  {
    if log != [] {
      var last := |log| - 1;
      var init := log[..last];
      SumHalf(kind, init, s, i);
      assert forall j :: LoggedBy(kind, init, j, i) ==> LoggedBy(kind, log, j, i) && init[j] == log[j];
      assert forall j :: LoggedBy(kind, log, j, i) && j < last ==> LoggedBy(kind, init, j, i);
      assert LoggedBy(kind, log, last, i) <==> i in Half(kind, log[last].1);
    }
  }

  /** The voters combined at a block are those whose first vote is at or above it. */
  lemma HalfOfWeight(kind: Kind, c: Chain, base: Hash, log: Log<VoteWeight>, s: Ballots, b: Hash)
    requires Recorded(kind, c, base, log, s) && AtOrBelow(c, base, b) && b in c.number
    ensures Half(kind, Weight(VOTES, c, log, b)) == set i | i in s.first && AtOrBelow(c, b, s.first[i])
  {
    var voters := set i | i in s.first && AtOrBelow(c, b, s.first[i]);
    forall i ensures i in Half(kind, Weight(VOTES, c, log, b)) <==> i in voters {
      SumHalf(kind, log, Up(c, b), i);
      if i in voters {
        BelowTrans(c, base, b, s.first[i]);
        AboveKnown(c, b, s.first[i]);
        assert HasLogEntry(kind, log, i);
        var j :| LoggedBy(kind, log, j, i);
      }
    }
  }

  /** The graph's condition says what it should about the plain tree. */
  lemma WeightIsSupport(kind: Kind, c: Chain, base: Hash, log: Log<VoteWeight>, s: Ballots, equivocators: VoteWeight,
                        vs: VoterSet, b: Hash)
    requires Recorded(kind, c, base, log, s) && AtOrBelow(c, base, b) && b in c.number
    requires Half(kind, equivocators) == s.double
    ensures TotalWeight(kind, Weight(VOTES, c, log, b), equivocators, vs) == SupportWeight(vs, c, s, b)
  {
    HalfOfWeight(kind, c, base, log, s, b);
    assert Half(kind, Merge(Weight(VOTES, c, log, b), equivocators)) == Support(c, s, b);
  }

  /** Recording a first vote in the graph. */
  lemma RecordedFirst(kind: Kind, c: Chain, base: Hash, log: Log<VoteWeight>, s: Ballots, s': Ballots, i: int, h: Hash,
                      w: VoteWeight)
    requires Recorded(kind, c, base, log, s) && i !in s.first && s'.first == s.first[i := h] && Half(kind, w) == {i}
    ensures Recorded(kind, c, base, log + [(h, w)], s')
  {
    var log' := log + [(h, w)];
    forall j, k | LoggedBy(kind, log', j, k) ensures k in s'.first && s'.first[k] == log'[j].0 {
      if j < |log| {
        assert LoggedBy(kind, log, j, k);
      }
    }
    forall k | k in s'.first && AtOrBelow(c, base, s'.first[k]) ensures HasLogEntry(kind, log', k) {
      if k == i {
        assert LoggedBy(kind, log', |log|, k);
      } else {
        assert HasLogEntry(kind, log, k);
        var j :| LoggedBy(kind, log, j, k);
        assert LoggedBy(kind, log', j, k);
      }
    }
  }

  /** A vote of the other kind changes nothing. */
  lemma RecordedOther(kind: Kind, c: Chain, base: Hash, log: Log<VoteWeight>, s: Ballots, h: Hash, w: VoteWeight)
    requires Recorded(kind, c, base, log, s) && Half(kind, w) == {}
    ensures Recorded(kind, c, base, log + [(h, w)], s)
  {
    var log' := log + [(h, w)];
    forall j, k | LoggedBy(kind, log', j, k) ensures k in s.first && s.first[k] == log'[j].0 {
      assert LoggedBy(kind, log, j, k);
    }
    forall k | k in s.first && AtOrBelow(c, base, s.first[k]) ensures HasLogEntry(kind, log', k) {
      assert HasLogEntry(kind, log, k);
      var j :| LoggedBy(kind, log, j, k);
      assert LoggedBy(kind, log', j, k);
    }
  }

  /** A first vote that does not target a descendent of the base is tracked but not in the graph. */
  lemma RecordedNotDescendent(kind: Kind, c: Chain, base: Hash, log: Log<VoteWeight>, s: Ballots, s': Ballots, i: int,
                              h: Hash)
    requires Recorded(kind, c, base, log, s) && i !in s.first && s'.first == s.first[i := h] && !AtOrBelow(c, base, h)
    ensures Recorded(kind, c, base, log, s')
  {
    forall j, k | LoggedBy(kind, log, j, k) ensures k in s'.first && s'.first[k] == log[j].0 {
    }
    forall k | k in s'.first && AtOrBelow(c, base, s'.first[k]) ensures HasLogEntry(kind, log, k) {
      assert k in s.first && s.first[k] == s'.first[k];
    }
  }
}
