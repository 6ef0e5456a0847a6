/** Voter sets, their weights, and the supermajority threshold. */
module Voters {
  import opened Wrappers

  type Id = int

  datatype VoterInfo = VoterInfo(canonIdx: nat, weight: nat)

  /** The voters in canonical order with an index from identity to position, and the threshold weight. */
  datatype VoterSet = VoterSet(weights: map<Id, VoterInfo>, voters: seq<(Id, nat)>, threshold: nat) {

    function Info(id: Id): Option<VoterInfo> {
      if id in weights then Some(weights[id]) else None
    }

    function TotalWeight(): nat {
      Total(voters)
    }

    ghost predicate IndexOk(id: Id) {
      id in weights && weights[id].canonIdx < |voters| && voters[weights[id].canonIdx] == (id, weights[id].weight)
    }

    ghost predicate PositionOk(i: int) {
      0 <= i < |voters| && voters[i].0 in weights && weights[voters[i].0] == VoterInfo(i, voters[i].1)
    }

    /** Distinct identities, indexed by position, under the threshold of their total weight. */
    ghost predicate Valid() {
      && threshold == Threshold(Total(voters))
      && (forall id {:trigger IndexOk(id)} | id in weights :: IndexOk(id))
      && (forall i {:trigger PositionOk(i)} | 0 <= i < |voters| :: PositionOk(i))
    }
  }

  function Total(voters: seq<(Id, nat)>): nat {
    if voters == [] then 0 else Total(voters[..|voters| - 1]) + voters[|voters| - 1].1
  }

  /** More than two thirds: everything but the largest weight below a third. */
  function Threshold(total: nat): nat {
    total - (if total == 0 then 0 else (total - 1) / 3)
  }

  lemma ThresholdQuorum(total: nat)
    requires total > 0
    ensures Threshold(total) <= total && 3 * Threshold(total) > 2 * total && 3 * (Threshold(total) - 1) <= 2 * total
    ensures 2 * Threshold(total) - total > (total - 1) / 3
  {
  }

  /** The combined weight of the voters whose positions are in `s`. */
  function SetWeight(voters: seq<(Id, nat)>, s: set<int>): nat {
    if voters == [] then 0
    else
      var last := |voters| - 1;
      SetWeight(voters[..last], s) + (if last in s then voters[last].1 else 0)
  }

  lemma {:induction false} InclusionExclusion(voters: seq<(Id, nat)>, s: set<int>, t: set<int>)
    ensures SetWeight(voters, s) + SetWeight(voters, t) == SetWeight(voters, s + t) + SetWeight(voters, s * t)
  {
    if voters != [] {
      InclusionExclusion(voters[..|voters| - 1], s, t);
    }
  }

  lemma {:induction false} SetWeightMonotone(voters: seq<(Id, nat)>, s: set<int>, t: set<int>)
    requires forall i | i in s && 0 <= i < |voters| :: i in t
    ensures SetWeight(voters, s) <= SetWeight(voters, t)
  {
    if voters != [] {
      SetWeightMonotone(voters[..|voters| - 1], s, t);
    }
  }

  lemma {:induction false} SetWeightNone(voters: seq<(Id, nat)>, s: set<int>)
    requires forall i | i in s :: !(0 <= i < |voters|)
    ensures SetWeight(voters, s) == 0
  {
    if voters != [] {
      SetWeightNone(voters[..|voters| - 1], s);
    }
  }

  lemma {:induction false} SetWeightAtMostTotal(voters: seq<(Id, nat)>, s: set<int>)
    ensures SetWeight(voters, s) <= Total(voters)
  {
    if voters != [] {
      SetWeightAtMostTotal(voters[..|voters| - 1], s);
    }
  }

  lemma {:induction false} SetWeightOne(voters: seq<(Id, nat)>, i: nat)
    requires i < |voters|
    ensures SetWeight(voters, {i}) == voters[i].1
  {
    var last := |voters| - 1;
    if i == last {
      SetWeightNone(voters[..last], {i});
    } else {
      SetWeightOne(voters[..last], i);
    }
  }

  lemma SetWeightDisjoint(voters: seq<(Id, nat)>, s: set<int>, t: set<int>)
    requires s !! t
    ensures SetWeight(voters, s + t) == SetWeight(voters, s) + SetWeight(voters, t)
  {
    InclusionExclusion(voters, s, t);
    assert s * t == {};
    SetWeightNone(voters, {});
  }

  /** `VoterSet::from_iter`: the set in the order given. */
  method FromIter(input: seq<(Id, nat)>) returns (r: VoterSet)
    ensures r.voters == input && r.threshold == Threshold(Total(input))
    ensures forall id :: id in r.weights <==> exists i :: 0 <= i < |input| && input[i].0 == id
    ensures forall id | id in r.weights ::
              && r.weights[id].canonIdx < |input| && input[r.weights[id].canonIdx] == (id, r.weights[id].weight)
              && forall j | r.weights[id].canonIdx < j < |input| :: input[j].0 != id
    ensures (forall i, j | 0 <= i < j < |input| :: input[i].0 != input[j].0) ==> r.Valid()
  {
    var weights: map<Id, VoterInfo> := map[];
    var voters: seq<(Id, nat)> := [];
    var total := 0;
    for idx := 0 to |input|
      invariant voters == input[..idx] && total == Total(input[..idx])
      invariant forall id :: id in weights <==> exists i :: 0 <= i < idx && input[i].0 == id
      invariant forall id | id in weights ::
                  && weights[id].canonIdx < idx && input[weights[id].canonIdx] == (id, weights[id].weight)
                  && forall j | weights[id].canonIdx < j < idx :: input[j].0 != id
    {
      assert input[..idx + 1][..idx] == input[..idx] && input[..idx + 1] == input[..idx] + [input[idx]];
      var (id, weight) := input[idx];
      voters := voters + [(id, weight)];
      weights := weights[id := VoterInfo(idx, weight)];
      total := total + weight;
    }
    assert input[..|input|] == input;
    r := VoterSet(weights, voters, Threshold(total));
    if forall i, j | 0 <= i < j < |input| :: input[i].0 != input[j].0 {
      forall i | 0 <= i < |input| ensures r.PositionOk(i) {
        assert input[i].0 in weights;
      }
    }
  }
}
