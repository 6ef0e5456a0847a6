/** One kind of votes in one round, seen as sets of voters: what supports a block, what can still support
    it, and the quorum arguments over whole runs. */
module BallotBox {
  import opened Wrappers
  import opened BlockTree
  import opened Voters

  /** By voter position: the target of the first vote, and who has voted twice. */
  datatype Ballots = Ballots(first: map<int, Hash>, double: set<int>)

  ghost predicate WellFormed(vs: VoterSet, s: Ballots) {
    s.double <= s.first.Keys && forall i | i in s.first :: 0 <= i < |vs.voters|
  }

  /** Voters counted for `b`: those whose first vote is at or above it, and all who voted twice. */
  ghost function Support(c: Chain, s: Ballots, b: Hash): set<int> {
    (set i | i in s.first && AtOrBelow(c, b, s.first[i])) + s.double
  }

  ghost function SupportWeight(vs: VoterSet, c: Chain, s: Ballots, b: Hash): nat {
    SetWeight(vs.voters, Support(c, s, b))
  }

  ghost function CastWeight(vs: VoterSet, s: Ballots): nat {
    SetWeight(vs.voters, s.first.Keys)
  }

  ghost function DoubleWeight(vs: VoterSet, s: Ballots): nat {
    SetWeight(vs.voters, s.double)
  }

  ghost predicate Supermajority(vs: VoterSet, c: Chain, s: Ballots, b: Hash) {
    SupportWeight(vs, c, s, b) >= vs.threshold
  }

  /** `possible_to_precommit`, from the weights the round keeps. */
  predicate CanStillReach(total: nat, threshold: nat, cast: nat, double: nat, support: nat)
    requires threshold <= total && cast <= total
  {
    var additionalEquiv := SaturatingSub(total - threshold, double);
    var possibleEquivocations := Min(SaturatingSub(cast, support), additionalEquiv);
    support + (total - cast) + possibleEquivocations >= threshold
  }

  lemma WeightBounds(vs: VoterSet, c: Chain, s: Ballots, b: Hash)
    requires vs.Valid() && WellFormed(vs, s)
    ensures vs.threshold <= Total(vs.voters) && CastWeight(vs, s) <= Total(vs.voters)
    ensures DoubleWeight(vs, s) <= SupportWeight(vs, c, s, b) <= CastWeight(vs, s)
  {
    SetWeightAtMostTotal(vs.voters, s.first.Keys);
    SetWeightMonotone(vs.voters, Support(c, s, b), s.first.Keys);
    SetWeightMonotone(vs.voters, s.double, Support(c, s, b));
  }

  ghost predicate Possible(vs: VoterSet, c: Chain, s: Ballots, b: Hash)
    requires vs.Valid() && WellFormed(vs, s)
  {
    WeightBounds(vs, c, s, b);
    CanStillReach(Total(vs.voters), vs.threshold, CastWeight(vs, s), DoubleWeight(vs, s), SupportWeight(vs, c, s, b))
  }

  /** The tolerated amount of double voting. */
  ghost predicate Tolerable(vs: VoterSet, s: Ballots) {
    DoubleWeight(vs, s) + vs.threshold <= Total(vs.voters)
  }

  /** Voters counted for two blocks on different forks have voted twice. */
  lemma BothSupportersDouble(c: Chain, s: Ballots, x: Hash, y: Hash)
    requires !Comparable(c, x, y) && x in c.number
    ensures Support(c, s, x) * Support(c, s, y) == s.double
  {
    forall i | i in Support(c, s, x) * Support(c, s, y) ensures i in s.double {
      if i !in s.double {
        AboveKnown(c, x, s.first[i]);
        BelowLinear(c, x, y, s.first[i]);
        BelowLinear(c, y, x, s.first[i]);
      }
    }
  }

  /** Quorum intersection: two forks with a supermajority each take double votes of more than a third. */
  lemma QuorumIntersection(vs: VoterSet, c: Chain, s: Ballots, x: Hash, y: Hash)
    requires vs.Valid() && WellFormed(vs, s) && Total(vs.voters) > 0
    requires x in c.number && Supermajority(vs, c, s, x) && Supermajority(vs, c, s, y) && !Comparable(c, x, y)
    ensures DoubleWeight(vs, s) >= 2 * vs.threshold - Total(vs.voters) > (Total(vs.voters) - 1) / 3
    ensures !Tolerable(vs, s)
  {
    BothSupportersDouble(c, s, x, y);
    InclusionExclusion(vs.voters, Support(c, s, x), Support(c, s, y));
    SetWeightAtMostTotal(vs.voters, Support(c, s, x) + Support(c, s, y));
    ThresholdQuorum(Total(vs.voters));
  }

  /** A supermajority block can still reach the threshold, and rules out every fork beside it. */
  lemma SupermajorityRulesOutForks(vs: VoterSet, c: Chain, s: Ballots, f: Hash, x: Hash)
    requires vs.Valid() && WellFormed(vs, s) && Total(vs.voters) > 0 && Tolerable(vs, s)
    requires Supermajority(vs, c, s, f)
    ensures Possible(vs, c, s, f)
    ensures x in c.number && !Comparable(c, x, f) ==> !Possible(vs, c, s, x)
  {
    WeightBounds(vs, c, s, f);
    WeightBounds(vs, c, s, x);
    if x in c.number && !Comparable(c, x, f) {
      BothSupportersDouble(c, s, x, f);
      InclusionExclusion(vs.voters, Support(c, s, x), Support(c, s, f));
      SetWeightMonotone(vs.voters, Support(c, s, x) + Support(c, s, f), s.first.Keys);
      ThresholdQuorum(Total(vs.voters));
    }
  }

  /** More votes arrive: first votes stay, double voters stay. */
  ghost predicate Extends(s: Ballots, s': Ballots) {
    && s.first.Keys <= s'.first.Keys && (forall i | i in s.first :: s'.first[i] == s.first[i])
    && s.double <= s'.double
  }

  lemma SupportGrows(c: Chain, s: Ballots, s': Ballots, b: Hash)
    requires Extends(s, s')
    ensures Support(c, s, b) <= Support(c, s', b)
  {
    forall i | i in Support(c, s, b) ensures i in Support(c, s', b) {
      assert i in s.first ==> s'.first[i] == s.first[i];
    }
  }

  /** The supporters gained are voters unseen before and voters who have meanwhile voted twice. */
  lemma SupportGain(vs: VoterSet, c: Chain, s: Ballots, s': Ballots, b: Hash)
    requires vs.Valid() && WellFormed(vs, s) && WellFormed(vs, s') && Extends(s, s')
    ensures var most := SupportWeight(vs, c, s, b) + (Total(vs.voters) - CastWeight(vs, s));
      && SupportWeight(vs, c, s', b) <= most + (CastWeight(vs, s) - SupportWeight(vs, c, s, b))
      && SupportWeight(vs, c, s', b) <= most + (DoubleWeight(vs, s') - DoubleWeight(vs, s))
  {
    WeightBounds(vs, c, s, b);
    var before, after := Support(c, s, b), Support(c, s', b);
    var unseen := s'.first.Keys - s.first.Keys;
    var turned := (s'.double - s.double) * (s.first.Keys - before);
    forall i | i in after ensures i in before + unseen + turned {
      if i in s.first && i !in before {
        assert s'.first[i] == s.first[i];
      }
    }
    SetWeightMonotone(vs.voters, after, before + unseen + turned);
    SetWeightDisjoint(vs.voters, before, unseen);
    SetWeightDisjoint(vs.voters, before + unseen, turned);
    assert s.first.Keys + unseen == s'.first.Keys;
    SetWeightDisjoint(vs.voters, s.first.Keys, unseen);
    SetWeightAtMostTotal(vs.voters, s'.first.Keys);
    SetWeightMonotone(vs.voters, turned, s'.double - s.double);
    assert s.double + (s'.double - s.double) == s'.double;
    SetWeightDisjoint(vs.voters, s.double, s'.double - s.double);
    SetWeightMonotone(vs.voters, turned, s.first.Keys - before);
    assert before + (s.first.Keys - before) == s.first.Keys;
    SetWeightDisjoint(vs.voters, before, s.first.Keys - before);
  }

  /** A run of one round: each state extends the one before. */
  ghost predicate IsRun(vs: VoterSet, run: seq<Ballots>) {
    && (forall k | 0 <= k < |run| :: WellFormed(vs, run[k]))
    && (forall k | 0 <= k < |run| - 1 :: ExtendsNext(run, k))
  }

  ghost predicate ExtendsNext(run: seq<Ballots>, k: int)
    requires 0 <= k < |run| - 1
  {
    Extends(run[k], run[k + 1])
  }

  lemma {:induction false} RunExtends(vs: VoterSet, run: seq<Ballots>, i: nat, j: nat)
    requires IsRun(vs, run) && i <= j < |run|
    ensures Extends(run[i], run[j])
  {
    if i < j {
      RunExtends(vs, run, i, j - 1);
      assert ExtendsNext(run, j - 1);
    }
  }

  /** Ruling out is permanent: a block that cannot reach the threshold at one point of a run never does, as
      long as double voting stays tolerable. */
  lemma RulingOutIsPermanent(vs: VoterSet, c: Chain, run: seq<Ballots>, i: nat, j: nat, b: Hash)
    requires vs.Valid() && IsRun(vs, run) && i <= j < |run|
    requires !Possible(vs, c, run[i], b) && Tolerable(vs, run[j])
    ensures !Supermajority(vs, c, run[j], b)
  {
    RunExtends(vs, run, i, j);
    WeightBounds(vs, c, run[i], b);
    SetWeightMonotone(vs.voters, run[i].double, run[j].double);
    SupportGain(vs, c, run[i], run[j], b);
  }
}
