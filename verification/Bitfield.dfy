/** Bitfields with two bits a voter, packed into 64-bit words from the left: the first bit for prevotes, the
    second for precommits. They refine the pairs of voter sets that the vote graph combines. */
module Bitfields {
  import opened Wrappers
  import opened BlockTree
  import opened Votes
  import opened Voters
  import Tally

  // ---- 64-bit words, bit by bit from the most significant one ----

  type Word = w: seq<bool> | |w| == 64 witness seq(64, i => false)

  const ZERO: Word := seq(64, i => false)

  function Or(v: Word, w: Word): Word {
    seq(64, i requires 0 <= i < 64 => v[i] || w[i])
  }

  function And(v: Word, w: Word): Word {
    seq(64, i requires 0 <= i < 64 => v[i] && w[i])
  }

  /** `w << k`, with the overflowing bits lost. */
  function ShiftLeft(w: Word, k: nat): Word
    requires k < 64
  {
    w[k..] + seq(k, i => false)
  }

  /** `1 << k`. */
  function One(k: nat): Word
    requires k < 64
  {
    seq(64, i => i == 63 - k)
  }

  lemma OneAt(w: Word, i: nat)
    requires i < 64
    ensures And(w, One(63 - i)) == One(63 - i) <==> w[i]
  {
    assert One(63 - i)[i];
    if w[i] {
      assert And(w, One(63 - i)) == One(63 - i);
    } else {
      assert !And(w, One(63 - i))[i];
    }
  }

  // ---- Bitfields ----

  datatype BitError = IndexOutOfBounds(voter: nat, voters: nat) | LengthMismatch(left: nat, right: nat)

  datatype Bitfield = Blank | Live(bits: seq<Word>)

  /** The voter's bit of this kind is set: 32 voters a word. */
  ghost predicate HasBit(bits: seq<Word>, kind: Tally.Kind, voter: nat) {
    voter / 32 < |bits| && bits[voter / 32][2 * (voter % 32) + Offset(kind)]
  }

  ghost predicate Marked(b: Bitfield, kind: Tally.Kind, voter: int) {
    b.Live? && voter >= 0 && HasBit(b.bits, kind, voter)
  }

  function Offset(kind: Tally.Kind): nat {
    match kind case Prevotes => 0 case Precommits => 1
  }

  ghost function MarkedVoters(b: Bitfield, kind: Tally.Kind): set<int> {
    if b.Blank? then {} else set k | 0 <= k < 32 * |b.bits| && Marked(b, kind, k)
  }

  /** The pair of voter sets that a bitfield stands for. */
  ghost function View(b: Bitfield): Tally.VoteWeight {
    Tally.VoteWeight(MarkedVoters(b, Tally.Prevotes), MarkedVoters(b, Tally.Precommits))
  }

  lemma InView(b: Bitfield, kind: Tally.Kind, k: int)
    ensures k in Tally.Half(kind, View(b)) <==> Marked(b, kind, k)
  {
  }

  lemma SameView(b: Bitfield, w: Tally.VoteWeight)
    requires forall kind, k {:trigger Marked(b, kind, k)} :: Marked(b, kind, k) <==> k in Tally.Half(kind, w)
    ensures View(b) == w
  {
    forall k ensures k in View(b).prevotes <==> k in w.prevotes {
      InView(b, Tally.Prevotes, k);
      assert Marked(b, Tally.Prevotes, k) <==> k in Tally.Half(Tally.Prevotes, w);
    }
    forall k ensures k in View(b).precommits <==> k in w.precommits {
      InView(b, Tally.Precommits, k);
      assert Marked(b, Tally.Precommits, k) <==> k in Tally.Half(Tally.Precommits, w);
    }
  }

  /** Combines two bitfields; words of different lengths come from different contexts. */
  function Merge(a: Bitfield, b: Bitfield): (r: Result<Bitfield, BitError>)
    ensures r.Err? <==> a.Live? && b.Live? && |a.bits| != |b.bits|
  {
    match (a, b)
    case (Blank, _) => Ok(b)
    case (_, Blank) => Ok(a)
    case (Live(x), Live(y)) =>
      if |x| != |y| then Err(LengthMismatch(|x|, |y|))
      else Ok(Live(seq(|x|, i requires 0 <= i < |x| => Or(x[i], y[i]))))
  }

  function Overlap(a: Bitfield, b: Bitfield): (r: Result<Bitfield, BitError>)
    ensures r.Err? <==> a.Live? && b.Live? && |a.bits| != |b.bits|
  {
    match (a, b)
    case (Live(x), Live(y)) =>
      if |x| != |y| then Err(LengthMismatch(|x|, |y|))
      else Ok(Live(seq(|x|, i requires 0 <= i < |x| => And(x[i], y[i]))))
    case _ => Ok(Blank)
  }

  /** Merging is union. */
  lemma MergeIsUnion(a: Bitfield, b: Bitfield)
    requires Merge(a, b).Ok?
    ensures View(Merge(a, b).value) == Tally.Merge(View(a), View(b))
  {
    var r := Merge(a, b).value;
    forall kind, k ensures Marked(r, kind, k) <==> k in Tally.Half(kind, Tally.Merge(View(a), View(b))) {
      InView(a, kind, k);
      InView(b, kind, k);
      assert Marked(r, kind, k) <==> Marked(a, kind, k) || Marked(b, kind, k);
    }
    SameView(r, Tally.Merge(View(a), View(b)));
  }

  /** Overlap is intersection. */
  lemma OverlapIsIntersection(a: Bitfield, b: Bitfield)
    requires Overlap(a, b).Ok?
    ensures View(Overlap(a, b).value) ==
              Tally.VoteWeight(View(a).prevotes * View(b).prevotes, View(a).precommits * View(b).precommits)
  {
    var r := Overlap(a, b).value;
    var w := Tally.VoteWeight(View(a).prevotes * View(b).prevotes, View(a).precommits * View(b).precommits);
    forall kind, k ensures Marked(r, kind, k) <==> k in Tally.Half(kind, w) {
      InView(a, kind, k);
      InView(b, kind, k);
      assert Marked(r, kind, k) <==> Marked(a, kind, k) && Marked(b, kind, k);
    }
    SameView(r, w);
  }

  // ---- Setting bits ----

  /** As many words as are needed for two bits a voter. */
  function WordsFor(voters: nat): (words: nat)
    ensures voters <= 32 * words < voters + 32
  {
    (voters * 2 + 63) / 64
  }

  function WithVoters(voters: nat): seq<Word> {
    seq(WordsFor(voters), i => ZERO)
  }

  function SetWordBit(bits: seq<Word>, bitIdx: nat, voters: nat): Result<seq<Word>, BitError> {
    var wordOff, bitOff := bitIdx / 64, bitIdx % 64;
    if wordOff < |bits| then Ok(bits[wordOff := Or(bits[wordOff], One(63 - bitOff))])
    else Err(IndexOutOfBounds(bitIdx / 2, voters))
  }

  lemma BitPosition(kind: Tally.Kind, voter: nat)
    ensures (2 * voter + Offset(kind)) / 64 == voter / 32
    ensures (2 * voter + Offset(kind)) % 64 == 2 * (voter % 32) + Offset(kind)
  {
    var q, r := voter / 32, voter % 32;
    assert 2 * voter + Offset(kind) == 64 * q + (2 * r + Offset(kind));
  }

  lemma SetBitOnly(bits: seq<Word>, kind: Tally.Kind, voter: nat, voters: nat, other: Tally.Kind, k: nat)
    requires voter / 32 < |bits|
    ensures SetWordBit(bits, 2 * voter + Offset(kind), voters).Ok?
    ensures HasBit(SetWordBit(bits, 2 * voter + Offset(kind), voters).value, other, k) <==>
              HasBit(bits, other, k) || (k == voter && other == kind)
  {
    BitPosition(kind, voter);
    var q, p, p' := voter / 32, 2 * (voter % 32) + Offset(kind), 2 * (k % 32) + Offset(other);
    var r := SetWordBit(bits, 2 * voter + Offset(kind), voters).value;
    assert r == bits[q := Or(bits[q], One(63 - p))];
    if k / 32 == q {
      assert r[q][p'] <==> bits[q][p'] || p' == p;
    }
  }

  /** Setting a voter's bit adds the voter to its half and leaves the rest. */
  lemma SetBitMarks(bits: seq<Word>, kind: Tally.Kind, voter: nat, voters: nat)
    ensures var r := SetWordBit(bits, 2 * voter + Offset(kind), voters);
      && (r.Ok? <==> voter < 32 * |bits|)
      && (r.Ok? ==>
            |r.value| == |bits| && View(Live(r.value)) == Tally.Merge(View(Live(bits)), Tally.Mark(kind, voter)))
  {
    BitPosition(kind, voter);
    var r := SetWordBit(bits, 2 * voter + Offset(kind), voters);
    if r.Ok? {
      var w := Tally.Merge(View(Live(bits)), Tally.Mark(kind, voter));
      forall other, k ensures Marked(Live(r.value), other, k) <==> k in Tally.Half(other, w) {
        InView(Live(bits), other, k);
        if k >= 0 {
          SetBitOnly(bits, kind, voter, voters, other, k);
        }
      }
      SameView(Live(r.value), w);
    }
  }

  lemma NoBits(b: Bitfield)
    requires b.Live? ==> forall i | 0 <= i < |b.bits| :: b.bits[i] == ZERO
    ensures View(b) == Tally.VoteWeight({}, {})
  {
    assert forall kind, k :: !Marked(b, kind, k);
    SameView(b, Tally.VoteWeight({}, {}));
  }

  /** A bitfield for this many voters: either blank or of their number of words. */
  ghost predicate Fits(b: Bitfield, voters: nat) {
    b.Live? ==> |b.bits| == WordsFor(voters)
  }

  /** Bitfields of one context always merge, and stay in it. */
  lemma MergeFits(a: Bitfield, b: Bitfield, voters: nat)
    requires Fits(a, voters) && Fits(b, voters)
    ensures Merge(a, b).Ok? && Fits(Merge(a, b).value, voters)
  {
  }

  /** `Bitfield::set_bit`: the field taken out, made live if blank, and put back only if the bit is in range. */
  function SetBit(b: Bitfield, bitIdx: nat, voters: nat): (Bitfield, Result<(), BitError>) {
    match SetWordBit(if b.Blank? then WithVoters(voters) else b.bits, bitIdx, voters)
    case Err(e) => (Blank, Err(e))
    case Ok(bits) => (Live(bits), Ok(()))
  }

  lemma SetBitMeans(b: Bitfield, kind: Tally.Kind, voter: nat, voters: nat)
    requires Fits(b, voters)
    ensures var (b', r) := SetBit(b, voter * 2 + Offset(kind), voters);
      && Fits(b', voters) && (r.Ok? <==> voter < 32 * WordsFor(voters))
      && View(b') == if r.Ok? then Tally.Merge(View(b), Tally.Mark(kind, voter)) else Tally.VoteWeight({}, {})
  {
    NoBits(Blank);
    var bits := if b.Blank? then WithVoters(voters) else b.bits;
    assert |bits| == WordsFor(voters) && View(Live(bits)) == View(b) by {
      if b.Blank? {
        NoBits(Live(bits));
      }
    }
    assert voter * 2 + Offset(kind) == 2 * voter + Offset(kind);
    SetBitMarks(bits, kind, voter, voters);
  }

  /** Shared data among the bitfields of a round: the marked equivocators. */
  class Shared {
    const voters: nat
    var equivocators: Bitfield

    constructor (voters: nat)
      ensures this.voters == voters && equivocators == Blank
    {
      this.voters := voters;
      equivocators := Blank;
    }

    /** A bitfield for a single voter's vote. */
    method VoteBitfield(kind: Tally.Kind, info: VoterInfo) returns (r: Result<Bitfield, BitError>)
      ensures r.Ok? <==> info.canonIdx < 32 * WordsFor(voters)
      ensures r.Ok? ==> Fits(r.value, voters) && View(r.value) == Tally.Mark(kind, info.canonIdx)
    {
      var bits := WithVoters(voters);
      SetBitMarks(bits, kind, info.canonIdx, voters);
      NoBits(Live(bits));
      match SetWordBit(bits, info.canonIdx * 2 + Offset(kind), voters) {
        case Err(e) => r := Err(e);
        case Ok(marked) =>
          r := Ok(Live(marked));
          assert Tally.Merge(Tally.VoteWeight({}, {}), Tally.Mark(kind, info.canonIdx)) ==
                   Tally.Mark(kind, info.canonIdx);
      }
    }

    /** Marks an equivocation. On a voter out of range the field has already been taken and is left blank. */
    method Equivocated(kind: Tally.Kind, info: VoterInfo) returns (r: Result<(), BitError>)
      requires Fits(equivocators, voters)
      modifies this
      ensures Fits(equivocators, voters) && (r.Ok? <==> info.canonIdx < 32 * WordsFor(voters))
      ensures View(equivocators) == if r.Ok? then Tally.Merge(old(View(equivocators)), Tally.Mark(kind, info.canonIdx))
                                    else Tally.VoteWeight({}, {})
    {
      SetBitMeans(equivocators, kind, info.canonIdx, voters);
      var (b, result) := SetBit(equivocators, info.canonIdx * 2 + Offset(kind), voters);
      equivocators := b;
      r := result;
    }
  }

  // ---- Weighing ----

  /** The weight of the first `n` voters whose bit is set. */
  ghost function BitSum(lookup: nat -> nat, bits: seq<Word>, kind: Tally.Kind, n: nat): nat {
    if n == 0 then 0
    else BitSum(lookup, bits, kind, n - 1) + (if HasBit(bits, kind, n - 1) then lookup(n - 1) else 0)
  }

  lemma {:induction false} BitSumRest(lookup: nat -> nat, bits: seq<Word>, kind: Tally.Kind, m: nat, n: nat)
    requires m <= n && forall k: nat | m <= k < n :: !HasBit(bits, kind, k)
    ensures BitSum(lookup, bits, kind, n) == BitSum(lookup, bits, kind, m)
  {
    if m < n {
      BitSumRest(lookup, bits, kind, m, n - 1);
    }
  }

  /** `word` is `first` with the bits of `i` voters shifted out. */
  ghost predicate Shifted(word: Word, first: Word, i: nat) {
    i <= 32 && forall k {:trigger word[k]} | 0 <= k < 64 - 2 * i :: word[k] == first[k + 2 * i]
  }

  lemma ShiftedNext(word: Word, first: Word, i: nat)
    requires Shifted(word, first, i) && i < 32
    ensures Shifted(ShiftLeft(word, 2), first, i + 1) && word[0] == first[2 * i] && word[1] == first[2 * i + 1]
  {
    forall k | 0 <= k < 64 - 2 * (i + 1) ensures ShiftLeft(word, 2)[k] == first[k + 2 * (i + 1)] {
      assert word[k + 2] == first[k + 2 + 2 * i];
    }
  }

  lemma VoterBit(bits: seq<Word>, kind: Tally.Kind, j: nat, i: nat)
    requires j < |bits| && i < 32
    ensures HasBit(bits, kind, 32 * j + i) == bits[j][2 * i + Offset(kind)]
  {
    assert (32 * j + i) / 32 == j && (32 * j + i) % 32 == i;
  }

  /** Nothing is left in the word, so no further voter of it is marked. */
  lemma NoneLeft(lookup: nat -> nat, bits: seq<Word>, kind: Tally.Kind, j: nat, valIdx: nat, i: nat)
    requires j < |bits| && valIdx == 32 * j && i < 32 && Shifted(ZERO, bits[j], i)
    ensures BitSum(lookup, bits, kind, valIdx + 32) == BitSum(lookup, bits, kind, valIdx + i)
  {
    forall k: nat | valIdx + i <= k < valIdx + 32 ensures !HasBit(bits, kind, k) {
      var n := k - 32 * j;
      VoterBit(bits, kind, j, n);
      assert !ZERO[2 * n + Offset(kind) - 2 * i];
    }
    BitSumRest(lookup, bits, kind, valIdx + i, valIdx + 32);
  }

  /** One step of the scan adds a voter's weight for each of the two leftmost bits that is set. */
  lemma ScanStep(lookup: nat -> nat, bits: seq<Word>, j: nat, valIdx: nat, i: nat, word: Word)
    requires j < |bits| && valIdx == 32 * j && i < 32 && Shifted(word, bits[j], i)
    ensures Shifted(ShiftLeft(word, 2), bits[j], i + 1)
    ensures BitSum(lookup, bits, Tally.Prevotes, valIdx + (i + 1)) ==
            BitSum(lookup, bits, Tally.Prevotes, valIdx + i)
            + (if And(word, One(63)) == One(63) then lookup(valIdx + i) else 0)
    ensures BitSum(lookup, bits, Tally.Precommits, valIdx + (i + 1)) ==
            BitSum(lookup, bits, Tally.Precommits, valIdx + i)
            + (if And(word, One(62)) == One(62) then lookup(valIdx + i) else 0)
  {
    OneAt(word, 0);
    OneAt(word, 1);
    ShiftedNext(word, bits[j], i);
    VoterBit(bits, Tally.Prevotes, j, i);
    VoterBit(bits, Tally.Precommits, j, i);
  }

  /** The weights of the first `n` voters. */
  ghost predicate Counted(lookup: nat -> nat, bits: seq<Word>, n: nat, prevote: nat, precommit: nat) {
    prevote == BitSum(lookup, bits, Tally.Prevotes, n) && precommit == BitSum(lookup, bits, Tally.Precommits, n)
  }

  /** Looks at the two leftmost bits. */
  method AddVoter(ghost bits: seq<Word>, ghost j: nat, valIdx: nat, i: nat, word: Word, lookup: nat -> nat,
                  prevote: nat, precommit: nat)
    returns (newPrevote: nat, newPrecommit: nat)
    requires j < |bits| && valIdx == 32 * j && i < 32 && Shifted(word, bits[j], i)
    requires Counted(lookup, bits, valIdx + i, prevote, precommit)
    ensures Shifted(ShiftLeft(word, 2), bits[j], i + 1)
    ensures Counted(lookup, bits, valIdx + (i + 1), newPrevote, newPrecommit)
  {
    ScanStep(lookup, bits, j, valIdx, i, word);
    newPrevote, newPrecommit := prevote, precommit;
    if And(word, One(63)) == One(63) {
      newPrevote := newPrevote + lookup(valIdx + i);
    }
    if And(word, One(62)) == One(62) {
      newPrecommit := newPrecommit + lookup(valIdx + i);
    }
  }

  /** One word: shifts the two leftmost bits out, and stops once none is left. */
  method WordWeight(ghost bits: seq<Word>, ghost j: nat, first: Word, valIdx: nat, lookup: nat -> nat, prevote: nat,
                    precommit: nat)
    returns (newPrevote: nat, newPrecommit: nat)
    requires j < |bits| && bits[j] == first && valIdx == 32 * j && Counted(lookup, bits, valIdx, prevote, precommit)
    ensures Counted(lookup, bits, valIdx + 32, newPrevote, newPrecommit)
  {
    newPrevote, newPrecommit := prevote, precommit;
    var word, i := first, 0;
    while i < 32 && word != ZERO
      invariant 0 <= i <= 32 && Shifted(word, first, i)
      invariant Counted(lookup, bits, valIdx + i, newPrevote, newPrecommit)
    {
      newPrevote, newPrecommit := AddVoter(bits, j, valIdx, i, word, lookup, newPrevote, newPrecommit);
      word := ShiftLeft(word, 2);
      i := i + 1;
    }
    if i < 32 {
      NoneLeft(lookup, bits, Tally.Prevotes, j, valIdx, i);
      NoneLeft(lookup, bits, Tally.Precommits, j, valIdx, i);
    }
  }

  /** The summed weights of the voters with their prevote bit set, and with their precommit bit set. */
  method TotalWeight(b: Bitfield, lookup: nat -> nat) returns (prevote: nat, precommit: nat)
    ensures b.Blank? ==> prevote == 0 && precommit == 0
    ensures b.Live? ==>
              prevote == BitSum(lookup, b.bits, Tally.Prevotes, 32 * |b.bits|)
              && precommit == BitSum(lookup, b.bits, Tally.Precommits, 32 * |b.bits|)
  {
    prevote, precommit := 0, 0;
    if b.Live? {
      for j := 0 to |b.bits|
        invariant prevote == BitSum(lookup, b.bits, Tally.Prevotes, 32 * j)
        invariant precommit == BitSum(lookup, b.bits, Tally.Precommits, 32 * j)
      {
        prevote, precommit := WordWeight(b.bits, j, b.bits[j], 32 * j, lookup, prevote, precommit);
      }
    }
  }

  function WeightByIndex(vs: VoterSet): nat -> nat {
    (i: nat) => if i < |vs.voters| then vs.voters[i].1 else 0
  }

  lemma {:induction false} BitSumIsSetWeight(vs: VoterSet, bits: seq<Word>, kind: Tally.Kind, n: nat)
    requires n <= 32 * |bits|
    ensures BitSum(WeightByIndex(vs), bits, kind, n) ==
            SetWeight(vs.voters[..if n < |vs.voters| then n else |vs.voters|], Tally.Half(kind, View(Live(bits))))
  {
    if n > |vs.voters| {
      BitSumIsSetWeight(vs, bits, kind, n - 1);
    } else if n > 0 {
      BitSumIsSetWeight(vs, bits, kind, n - 1);
      assert HasBit(bits, kind, n - 1) <==> n - 1 in Tally.Half(kind, View(Live(bits))) by {
        InView(Live(bits), kind, n - 1);
      }
      assert vs.voters[..n][..n - 1] == vs.voters[..n - 1];
    }
  }

  lemma WeighsVoters(vs: VoterSet, bits: seq<Word>, kind: Tally.Kind)
    ensures BitSum(WeightByIndex(vs), bits, kind, 32 * |bits|) ==
              SetWeight(vs.voters, Tally.Half(kind, View(Live(bits))))
  {
    var n := 32 * |bits|;
    BitSumIsSetWeight(vs, bits, kind, n);
    if n < |vs.voters| {
      SetWeightPrefix(vs.voters, Tally.Half(kind, View(Live(bits))), n);
    } else {
      assert vs.voters[..|vs.voters|] == vs.voters;
    }
  }

  lemma {:induction false} SetWeightPrefix(voters: seq<(Id, nat)>, s: set<int>, n: nat)
    requires n <= |voters| && forall i | i in s :: i < n
    ensures SetWeight(voters, s) == SetWeight(voters[..n], s)
  {
    if n < |voters| {
      SetWeightPrefix(voters[..|voters| - 1], s, n);
      assert voters[..|voters| - 1][..n] == voters[..n];
    } else {
      assert voters[..n] == voters;
    }
  }

  /** The weight of a node's votes, equivocators counted for everything, once: the packed words compute what the
      pair of voter sets says, and their merge cannot fail within one context. */
  method VoteTotalWeight(b: Bitfield, equivocators: Bitfield, vs: VoterSet) returns (prevote: nat, precommit: nat)
    requires Fits(b, |vs.voters|) && Fits(equivocators, |vs.voters|)
    ensures prevote == Tally.TotalWeight(Tally.Prevotes, View(b), View(equivocators), vs)
    ensures precommit == Tally.TotalWeight(Tally.Precommits, View(b), View(equivocators), vs)
  {
    MergeFits(b, equivocators, |vs.voters|);
    MergeIsUnion(b, equivocators);
    var merged := Merge(b, equivocators).value;
    prevote, precommit := TotalWeight(merged, WeightByIndex(vs));
    if merged.Live? {
      WeighsVoters(vs, merged.bits, Tally.Prevotes);
      WeighsVoters(vs, merged.bits, Tally.Precommits);
    } else {
      SetWeightNone(vs.voters, {});
    }
  }

  // ---- Whole rounds ----

  /** Votes merged in some order and grouping, as the votes of a node are over a round. */
  datatype Merged = Nothing | Cast(vote: Bitfield) | Both(left: Merged, right: Merged)

  /** The packed result, or the first error of a merge on the way. */
  function Pack(t: Merged): Result<Bitfield, BitError> {
    match t
    case Nothing => Ok(Blank)
    case Cast(vote) => Ok(vote)
    case Both(left, right) =>
      var l, r := Pack(left), Pack(right);
      if l.Err? then l else if r.Err? then r else Merge(l.value, r.value)
  }

  ghost function Union(t: Merged): Tally.VoteWeight {
    match t
    case Nothing => Tally.VoteWeight({}, {})
    case Cast(vote) => View(vote)
    case Both(left, right) => Tally.Merge(Union(left), Union(right))
  }

  ghost predicate AllFit(t: Merged, voters: nat) {
    match t
    case Nothing => true
    case Cast(vote) => Fits(vote, voters)
    case Both(left, right) => AllFit(left, voters) && AllFit(right, voters)
  }

  /** However the votes of one context are merged, no merge fails, and the result is the union of the voter sets. */
  lemma {:induction false} MergedMeans(t: Merged, voters: nat)
    requires AllFit(t, voters)
    ensures Pack(t).Ok? && Fits(Pack(t).value, voters) && View(Pack(t).value) == Union(t)
  {
    match t
    case Nothing => NoBits(Blank);
    case Cast(_) =>
    case Both(left, right) =>
      MergedMeans(left, voters);
      MergedMeans(right, voters);
      MergeFits(Pack(left).value, Pack(right).value, voters);
      MergeIsUnion(Pack(left).value, Pack(right).value);
  }

  /** The votes of a log on blocks of a set, merged in order. */
  function MergedLog(log: Log<Bitfield>, s: set<Hash>): Merged {
    if log == [] then Nothing
    else
      var rest, last := MergedLog(log[..|log| - 1], s), log[|log| - 1];
      if last.0 in s then Both(rest, Cast(last.1)) else rest
  }

  /** The log of voter sets that a log of bitfields stands for. */
  ghost function Views(log: Log<Bitfield>): Log<Tally.VoteWeight> {
    if log == [] then [] else Views(log[..|log| - 1]) + [(log[|log| - 1].0, View(log[|log| - 1].1))]
  }

  /** Packing commutes with summing over a whole log. */
  lemma {:induction false} LogMeans(log: Log<Bitfield>, s: set<Hash>, voters: nat)
    requires forall i | 0 <= i < |log| :: Fits(log[i].1, voters)
    ensures AllFit(MergedLog(log, s), voters) && Union(MergedLog(log, s)) == SumIn(Tally.VOTES, Views(log), s)
  {
    if log != [] {
      LogMeans(log[..|log| - 1], s, voters);
      assert Views(log)[..|Views(log)| - 1] == Views(log[..|log| - 1]);
    }
  }

  /** The weight of the votes on blocks of a set over a whole log, from the packed words: that of the voter sets. */
  method LogTotalWeight(log: Log<Bitfield>, s: set<Hash>, equivocators: Bitfield, vs: VoterSet)
    returns (prevote: nat, precommit: nat)
    requires (forall i | 0 <= i < |log| :: Fits(log[i].1, |vs.voters|)) && Fits(equivocators, |vs.voters|)
    ensures var sum := SumIn(Tally.VOTES, Views(log), s);
      && prevote == Tally.TotalWeight(Tally.Prevotes, sum, View(equivocators), vs)
      && precommit == Tally.TotalWeight(Tally.Precommits, sum, View(equivocators), vs)
  {
    LogMeans(log, s, |vs.voters|);
    MergedMeans(MergedLog(log, s), |vs.voters|);
    prevote, precommit := VoteTotalWeight(Pack(MergedLog(log, s)).value, equivocators, vs);
  }
}
