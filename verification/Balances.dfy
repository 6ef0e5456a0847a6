/** The balances of one shard: free and reserved funds, the total issuance, and the imbalances in between. */
module ShardBalances {
  import opened Wrappers

  datatype Account = Account(id: nat)

  const MAX_BALANCE: nat := 0xFFFF_FFFF_FFFF_FFFF_FFFF_FFFF_FFFF_FFFF

  /** An amount of money, in 128 bits. */
  type Amount = x: nat | x <= MAX_BALANCE

  type Funds = map<Account, nat>

  function Get(m: Funds, who: Account): nat {
    if who in m then m[who] else 0
  }

  ghost function Sum(m: Funds): nat
    decreases |m|
  {
    if forall who :: who !in m then 0
    else
      var who :| who in m;
      Smaller(m, who);
      m[who] + Sum(m - {who})
  }

  lemma Smaller(m: Funds, who: Account)
    requires who in m
    ensures |m - {who}| < |m|
  {
    assert (m - {who}).Keys == m.Keys - {who};
    assert |m.Keys - {who}| == |m.Keys| - 1;
  }

  lemma {:induction false} SumWithout(m: Funds, who: Account)
    requires who in m
    ensures Sum(m) == m[who] + Sum(m - {who})
    decreases |m|
  {
    var first :| first in m && Sum(m) == m[first] + Sum(m - {first});
    if first != who {
      Smaller(m, first);
      Smaller(m, who);
      SumWithout(m - {first}, who);
      SumWithout(m - {who}, first);
      assert m - {first} - {who} == m - {who} - {first};
    }
  }

  lemma SumUpdate(m: Funds, who: Account, amount: nat)
    ensures Sum(m[who := amount]) == Sum(m) - Get(m, who) + amount
  {
    SumWithout(m[who := amount], who);
    if who in m {
      SumWithout(m, who);
      assert m[who := amount] - {who} == m - {who};
    } else {
      assert m[who := amount] - {who} == m;
    }
  }

  lemma SumRemove(m: Funds, who: Account)
    ensures Sum(m - {who}) == Sum(m) - Get(m, who)
  {
    if who in m {
      SumWithout(m, who);
    } else {
      assert m - {who} == m;
    }
  }

  /** The sum of all balances, unfolded only where a balance is set. */
  ghost function Worth(m: Funds): nat {
    WorthBehind(m, 3)
  }

  ghost function WorthBehind(m: Funds, steps: nat): nat {
    if steps == 0 then Sum(m) else WorthBehind(m, steps - 1)
  }

  lemma WorthIsSum(m: Funds)
    ensures Worth(m) == Sum(m)
  {
    assert WorthBehind(m, 1) == WorthBehind(m, 0);
    assert WorthBehind(m, 2) == WorthBehind(m, 1);
  }

  function SaturatingAdd(x: nat, y: nat): nat {
    if x + y > MAX_BALANCE then MAX_BALANCE else x + y
  }

  /** Burning in two steps is burning in one. */
  lemma BurnTwice(x: nat, a: nat, b: nat)
    ensures SaturatingSub(SaturatingSub(x, a), b) == SaturatingSub(x, a + b)
    ensures SaturatingSub(a, x) + SaturatingSub(b, SaturatingSub(x, a)) == SaturatingSub(a + b, x)
  {
  }

  /** What is left of a number in 128 bits. It is the account that keeps the verifier from unfolding this before
      `WrapMeans` does. */
  function Wrap(who: Account, x: nat): (r: Amount)
    ensures r <= x
  {
    WrapBehind(who, x, 3)
  }

  function WrapBehind(who: Account, x: nat, steps: nat): (r: Amount)
    ensures r <= x
  {
    if steps > 0 then WrapBehind(who, x, steps - 1) else x % (MAX_BALANCE + 1)
  }

  lemma WrapMeans(who: Account, x: nat)
    ensures Wrap(who, x) == x % (MAX_BALANCE + 1)
  {
    assert WrapBehind(who, x, 1) == WrapBehind(who, x, 0);
    assert WrapBehind(who, x, 2) == WrapBehind(who, x, 1);
  }

  /** An unchecked sum, for an account. */
  function Plus(who: Account, x: Amount, y: Amount): Amount {
    Wrap(who, x + y)
  }

  /** What it loses. */
  function Wrapped(who: Account, x: Amount, y: Amount): nat {
    x + y - Plus(who, x, y)
  }

  lemma PlusMeans(who: Account, x: Amount, y: Amount)
    ensures Wrapped(who, x, y) == if x + y <= MAX_BALANCE then 0 else MAX_BALANCE + 1
  {
    WrapMeans(who, x + y);
  }

  /** What a balance set to `amount` keeps: nothing below the existential deposit. */
  function Kept(deposit: nat, amount: nat): nat {
    if amount < deposit then 0 else amount
  }

  /** The rest, which is burnt. */
  function Dust(deposit: nat, amount: nat): nat {
    amount - Kept(deposit, amount)
  }

  /** The balances with one set, unfolded only by `PutMeans`. */
  ghost function Put(m: Funds, deposit: nat, who: Account, amount: nat): Funds {
    PutBehind(m, deposit, who, amount, 3)
  }

  ghost function PutBehind(m: Funds, deposit: nat, who: Account, amount: nat, steps: nat): Funds {
    if steps > 0 then PutBehind(m, deposit, who, amount, steps - 1)
    else if amount < deposit then m - {who} else m[who := amount]
  }

  lemma PutMeans(m: Funds, deposit: nat, who: Account, amount: nat)
    ensures Put(m, deposit, who, amount) == if amount < deposit then m - {who} else m[who := amount]
  {
    assert PutBehind(m, deposit, who, amount, 1) == PutBehind(m, deposit, who, amount, 0);
    assert PutBehind(m, deposit, who, amount, 2) == PutBehind(m, deposit, who, amount, 1);
  }

  /** No stored balance is below the existential deposit, and all are in range; unfolded only by `StoredMeans`. */
  ghost predicate Stored(m: Funds, deposit: nat) {
    StoredBehind(m, deposit, 3)
  }

  ghost predicate StoredBehind(m: Funds, deposit: nat, steps: nat) {
    if steps > 0 then StoredBehind(m, deposit, steps - 1) else forall who | who in m :: deposit <= m[who] <= MAX_BALANCE
  }

  lemma StoredMeans(m: Funds, deposit: nat)
    ensures Stored(m, deposit) <==> forall who | who in m :: deposit <= m[who] <= MAX_BALANCE
  {
    assert StoredBehind(m, deposit, 1) == StoredBehind(m, deposit, 0);
    assert StoredBehind(m, deposit, 2) == StoredBehind(m, deposit, 1);
  }

  lemma StoredGet(m: Funds, deposit: nat, who: Account)
    requires Stored(m, deposit)
    ensures Get(m, who) <= MAX_BALANCE && (Get(m, who) == 0 || deposit <= Get(m, who))
  {
    StoredMeans(m, deposit);
  }

  lemma PutStored(m: Funds, deposit: nat, who: Account, amount: Amount)
    requires Stored(m, deposit)
    ensures Stored(Put(m, deposit, who, amount), deposit)
  {
    StoredMeans(m, deposit);
    PutMeans(m, deposit, who, amount);
    StoredMeans(Put(m, deposit, who, amount), deposit);
  }

  lemma PutElsewhere(m: Funds, deposit: nat, who: Account, amount: nat, other: Account)
    requires who != other
    ensures Get(Put(m, deposit, who, amount), other) == Get(m, other)
  {
    PutMeans(m, deposit, who, amount);
  }

  lemma PutGet(m: Funds, deposit: nat, who: Account, amount: nat)
    ensures Get(Put(m, deposit, who, amount), who) == Kept(deposit, amount)
  {
    PutMeans(m, deposit, who, amount);
  }

  lemma PutSum(m: Funds, deposit: nat, who: Account, amount: nat)
    ensures Worth(Put(m, deposit, who, amount)) == Worth(m) - Get(m, who) + Kept(deposit, amount)
  {
    PutMeans(m, deposit, who, amount);
    WorthIsSum(m);
    WorthIsSum(Put(m, deposit, who, amount));
    SumUpdate(m, who, amount);
    SumRemove(m, who);
  }

  // ---- Imbalances ----

  /** Funds created (positive) or destroyed (negative) that the total issuance does not account for yet. */
  datatype Imbalance = Positive(amount: nat) | Negative(amount: nat) {
    function Value(): int {
      var a: int := amount;
      if Positive? then a else -a
    }

    function Split(first: nat): (Imbalance, Imbalance) {
      var f := Min(amount, first);
      match this
      case Positive(a) => (Positive(f), Positive(a - f))
      case Negative(a) => (Negative(f), Negative(a - f))
    }
  }

  /** Two imbalances of one sign. */
  function Merge(x: Imbalance, y: Imbalance): Imbalance
    requires x.Positive? <==> y.Positive?
  {
    match x
    case Positive(a) => Positive(SaturatingAdd(a, y.amount))
    case Negative(a) => Negative(SaturatingAdd(a, y.amount))
  }

  /** Two imbalances of opposite signs. */
  function Offset(x: Imbalance, y: Imbalance): Imbalance
    requires x.Positive? <==> y.Negative?
  {
    match x
    case Positive(a) => if a >= y.amount then Positive(a - y.amount) else Negative(y.amount - a)
    case Negative(a) => if a >= y.amount then Negative(a - y.amount) else Positive(y.amount - a)
  }

  lemma SplitConserves(x: Imbalance, first: nat)
    ensures x.Split(first).0.Value() + x.Split(first).1.Value() == x.Value()
    ensures x.Split(first).0.amount == if x.amount <= first then x.amount else first
    ensures (x.Split(first).0.Positive? <==> x.Positive?) && (x.Split(first).1.Positive? <==> x.Positive?)
  {
  }

  /** Merging conserves the value exactly when the amounts do not saturate. */
  lemma MergeConserves(x: Imbalance, y: Imbalance)
    requires x.Positive? <==> y.Positive?
    ensures Merge(x, y).Value() == x.Value() + y.Value() <==> x.amount + y.amount <= MAX_BALANCE
    ensures x.amount + y.amount > MAX_BALANCE ==> Merge(x, y).amount == MAX_BALANCE
    ensures Merge(x, y).Positive? <==> x.Positive?
  {
  }

  lemma OffsetConserves(x: Imbalance, y: Imbalance)
    requires x.Positive? <==> y.Negative?
    ensures Offset(x, y).Value() == x.Value() + y.Value()
    ensures (Offset(x, y).Positive? <==> x.Positive?) <==> x.amount >= y.amount
  {
  }

  datatype Failure = TooLow | TooHigh | Overflow | Restricted | WouldKill | MustExist

  /** What an operation does to the total issuance: it burns, then issues. `wrapped` is what its unchecked sums lose. */
  datatype Effect = Effect(burnt: nat, issued: nat, wrapped: nat) {
    ghost function Issuance(before: nat): nat {
      AfterBehind(this, before, 3).0
    }

    /** By how much saturating and wrapping put the issuance above what it stands for. */
    ghost function Drift(before: nat): int {
      AfterBehind(this, before, 3).1
    }

    /** Nothing saturates and nothing wraps. */
    predicate Fits(before: nat) {
      burnt <= before && before - burnt + issued <= MAX_BALANCE && wrapped == 0
    }

    /** This is burning some dust and losing some of a sum, and then dropping an imbalance. */
    ghost predicate Completes(dust: nat, lost: nat, x: Imbalance) {
      match x
      case Positive(a) => burnt == dust && issued == a && wrapped == lost
      case Negative(a) => burnt == dust + a && issued == 0 && wrapped == lost
    }
  }

  /** The effect of dropping an imbalance alone. */
  ghost function DropEffect(x: Imbalance): Effect {
    match x
    case Positive(a) => Effect(0, a, 0)
    case Negative(a) => Effect(a, 0, 0)
  }

  /** The issuance after an effect and the drift, unfolded only by `EffectMeans`. */
  ghost function AfterBehind(e: Effect, before: nat, steps: nat): (nat, int) {
    if steps > 0 then AfterBehind(e, before, steps - 1)
    else
      var left := SaturatingSub(before, e.burnt);
      (SaturatingAdd(left, e.issued),
       SaturatingSub(e.burnt, before) - SaturatingSub(left + e.issued, MAX_BALANCE) + e.wrapped)
  }

  lemma EffectMeans(e: Effect, before: nat)
    ensures var left := SaturatingSub(before, e.burnt);
      && e.Issuance(before) == SaturatingAdd(left, e.issued)
      && e.Drift(before) == SaturatingSub(e.burnt, before) - SaturatingSub(left + e.issued, MAX_BALANCE) + e.wrapped
  {
    assert AfterBehind(e, before, 1) == AfterBehind(e, before, 0);
    assert AfterBehind(e, before, 2) == AfterBehind(e, before, 1);
  }

  lemma OnlyBurns(burnt: nat, wrapped: nat, before: nat)
    requires before <= MAX_BALANCE
    ensures Effect(burnt, 0, wrapped).Issuance(before) == SaturatingSub(before, burnt)
    ensures Effect(burnt, 0, wrapped).Drift(before) == SaturatingSub(burnt, before) + wrapped
  {
    EffectMeans(Effect(burnt, 0, wrapped), before);
  }

  const NOTHING := Effect(0, 0, 0)

  lemma NothingMeans(before: nat)
    requires before <= MAX_BALANCE
    ensures NOTHING.burnt == NOTHING.issued == NOTHING.wrapped == 0
    ensures NOTHING.Issuance(before) == before && NOTHING.Drift(before) == 0
  {
    EffectMeans(NOTHING, before);
  }

  /** Losses never make up for each other: there is no drift exactly when nothing saturates and nothing wraps. */
  lemma NoDrift(e: Effect, before: nat)
    requires before <= MAX_BALANCE && e.issued <= MAX_BALANCE && (e.wrapped == 0 || e.wrapped > MAX_BALANCE)
    ensures e.Drift(before) == 0 <==> e.Fits(before)
  {
    EffectMeans(e, before);
  }

  /** The issuance moves by what is burnt and issued, but for the drift. */
  lemma IssuanceMoves(e: Effect, before: nat)
    requires before <= MAX_BALANCE
    ensures e.Issuance(before) == before - e.burnt + e.issued + e.Drift(before) - e.wrapped
    ensures e.Issuance(before) <= MAX_BALANCE
  {
    EffectMeans(e, before);
  }

  /** Burning dust and dropping an imbalance, in one. */
  lemma ThenDrop(dust: nat, lost: nat, x: Imbalance, whole: Effect, before: nat)
    requires before <= MAX_BALANCE && whole.Completes(dust, lost, x)
    ensures var left := SaturatingSub(before, dust);
      && (x.Positive? ==> whole.Issuance(before) == SaturatingAdd(left, x.amount))
      && (x.Negative? ==> whole.Issuance(before) == SaturatingSub(left, x.amount))
      && whole.Drift(before) == SaturatingSub(dust, before) + lost + whole.Issuance(before) - left - x.Value()
  {
    EffectMeans(whole, before);
  }

  /** The imbalance left by setting a balance. */
  function MadeBy(deposit: nat, original: nat, balance: nat): Imbalance {
    if balance < deposit && original == 0 then Positive(0)
    else if original <= balance then Positive(balance - original) else Negative(original - balance)
  }

  // ---- The balances as a value ----

  /** Computed without checks. */
  function FeeFor(who: Account, baseFee: Amount, byteFee: Amount, length: nat): Amount {
    Wrap(who, baseFee + byteFee * length)
  }

  /** A base fee and one for each byte, in 128 bits. */
  lemma FeeMeans(who: Account, baseFee: Amount, byteFee: Amount, length: nat)
    ensures FeeFor(who, baseFee, byteFee, length) == (baseFee + byteFee * length) % (MAX_BALANCE + 1)
  {
    WrapMeans(who, baseFee + byteFee * length);
  }

  /** A shard's balances at one moment. */
  datatype Sheet = Sheet(deposit: nat, transferFee: Amount, baseFee: Amount, byteFee: Amount, free: Funds,
                         reserved: Funds, issuance: nat) {
    ghost predicate Valid() {
      issuance <= MAX_BALANCE && Stored(free, deposit) && Stored(reserved, deposit)
    }

    /** What all accounts have. */
    ghost function Held(): nat {
      Worth(free) + Worth(reserved)
    }

    ghost function Free(who: Account): Amount
      requires Valid()
    {
      StoredGet(free, deposit, who);
      Get(free, who)
    }

    ghost function Reserved(who: Account): Amount
      requires Valid()
    {
      StoredGet(reserved, deposit, who);
      Get(reserved, who)
    }

    /** The account has funds, by an unchecked sum. */
    ghost predicate Exists(who: Account)
      requires Valid()
    {
      Plus(who, Free(who), Reserved(who)) != 0
    }

    /** What a transfer leaves its sender, and gives its receiver. */
    ghost function Debited(from: Account, value: Amount): Amount
      requires Valid()
    {
      SaturatingSub(Free(from), value + transferFee)
    }

    ghost function Credited(to: Account, value: Amount): nat
      requires Valid()
    {
      Free(to) + value
    }

    ghost predicate TransferOk(from: Account, dest: Account, value: Amount, elsewhere: bool, allowed: bool)
      requires Valid()
    {
      && value + transferFee <= MAX_BALANCE && value + transferFee <= Free(from) && allowed
      && (elsewhere || Credited(dest, value) <= MAX_BALANCE)
    }

    /** A transfer burns its fee and the dust it leaves. */
    ghost function TransferEffect(from: Account, dest: Account, value: Amount, elsewhere: bool, allowed: bool): Effect
      requires Valid()
    {
      if !TransferOk(from, dest, value, elsewhere, allowed) || (!elsewhere && from == dest) then NOTHING
      else
        var left := Dust(deposit, Debited(from, value));
        Effect(transferFee + left + (if elsewhere then 0 else Dust(deposit, Credited(dest, value))), 0, 0)
    }

    ghost function Transferred(from: Account, dest: Account, value: Amount, elsewhere: bool, allowed: bool): Sheet
      requires Valid()
    {
      if !TransferOk(from, dest, value, elsewhere, allowed) || (!elsewhere && from == dest) then this
      else
        var left := Put(free, deposit, from, Debited(from, value));
        this.(free := if elsewhere then left else Put(left, deposit, dest, Credited(dest, value)),
              issuance := TransferEffect(from, dest, value, elsewhere, allowed).Issuance(issuance))
    }

    /** What another shard has debited can burn dust. */
    ghost function RelayEffect(to: Account, amount: Amount): Effect
      requires Valid()
    {
      if Credited(to, amount) > MAX_BALANCE then NOTHING else Effect(Dust(deposit, Credited(to, amount)), 0, 0)
    }

    ghost function Relayed(to: Account, amount: Amount): Sheet
      requires Valid()
    {
      if Credited(to, amount) > MAX_BALANCE then this
      else
        this.(free := Put(free, deposit, to, Credited(to, amount)),
              issuance := RelayEffect(to, amount).Issuance(issuance))
    }

    ghost predicate WithdrawOk(who: Account, value: Amount, allowed: bool, keepAlive: bool)
      requires Valid()
    {
      value <= Free(who) && !(keepAlive && Free(who) - value < deposit) && allowed
    }

    /** What a slash of `value` does not find among the free funds. */
    ghost function Lacking(who: Account, value: Amount): Amount
      requires Valid()
    {
      SaturatingSub(value, Free(who))
    }

    /** The dust a slash leaves on the sides it touches. */
    ghost function SlashDust(who: Account, value: Amount): nat
      requires Valid()
    {
      Dust(deposit, SaturatingSub(Free(who), value)) +
      if Lacking(who, value) == 0 then 0 else Dust(deposit, SaturatingSub(Reserved(who), Lacking(who, value)))
    }

    /** What setting a free balance burns: nothing for an account without free funds. */
    ghost function SettingBurns(who: Account, balance: Amount): nat
      requires Valid()
    {
      if Free(who) == 0 then 0 else Dust(deposit, balance)
    }

    /** What depositing into an account that may be new burns at once: nothing, unless the new balance wraps around,
        when all that the account loses by it is. */
    ghost function DepositCreatingBurns(who: Account, value: Amount): nat
      requires Valid()
    {
      var balance := Plus(who, Free(who), value);
      PlusMeans(who, Free(who), value);
      if Free(who) + value <= MAX_BALANCE then 0 else Dust(deposit, balance) + Free(who) - balance
    }

    /** What it issues: all of it, unless the new balance wraps around or does not reach the deposit. */
    ghost function DepositCreatingIssues(who: Account, value: Amount): nat
      requires Valid()
    {
      if Free(who) + value > MAX_BALANCE || (Free(who) == 0 && value < deposit) then 0 else value
    }

    /** The new reserved balance is an unchecked sum. */
    ghost function ReserveEffect(who: Account, value: Amount, allowed: bool): Effect
      requires Valid()
    {
      if value <= Free(who) && allowed
      then
        var sum, left := Plus(who, Reserved(who), value), SaturatingSub(Free(who), value);
        Effect(Dust(deposit, sum) + Dust(deposit, left), 0, Wrapped(who, Reserved(who), value))
      else NOTHING
    }

    /** What moving reserved funds into free ones burns and loses. */
    ghost function ReleaseEffect(from: Account, to: Account, value: Amount): Effect
      requires Valid()
    {
      var actual := Min(Reserved(from), value);
      var sum, left := Plus(to, Free(to), actual), SaturatingSub(Reserved(from), value);
      Effect(Dust(deposit, sum) + Dust(deposit, left), 0, Wrapped(to, Free(to), actual))
    }

    ghost function Fee(who: Account, length: nat): Amount {
      FeeFor(who, baseFee, byteFee, length)
    }
  }

  lemma ReleaseSums(b: Sheet, from: Account, to: Account, value: Amount)
    requires b.Valid()
    ensures var actual, e := Min(b.Reserved(from), value), b.ReleaseEffect(from, to, value);
      var sum, left := Plus(to, b.Free(to), actual), SaturatingSub(b.Reserved(from), value);
      && left == b.Reserved(from) - actual && sum + left + e.wrapped == b.Free(to) + b.Reserved(from)
      && e == Effect(Dust(b.deposit, sum) + Dust(b.deposit, left), 0, e.wrapped)
  {
  }

  // ---- One shard ----

  class Balances {
    const deposit: nat        // existential deposit
    const transferFee: Amount
    const baseFee: Amount
    const byteFee: Amount
    var free: Funds
    var reserved: Funds
    var issuance: nat
    ghost var open: int       // imbalances handed out and not dropped yet
    ghost var sent: nat       // debited here for other shards
    ghost var received: nat   // credited here for other shards

    /** By how much what is issued, or about to be, exceeds what is in balances or was sent away. */
    ghost function Gap(): int reads this {
      issuance + open - Now().Held() - sent + received
    }

    ghost function Now(): Sheet reads this {
      Sheet(deposit, transferFee, baseFee, byteFee, free, reserved, issuance)
    }

    ghost predicate Valid() reads this {
      Now().Valid()
    }

    /** Genesis: the balances configured, all at least the deposit, and their sum as issuance. */
    constructor (deposit: nat, transferFee: Amount, baseFee: Amount, byteFee: Amount, free: Funds, issuance: nat)
      requires issuance == Sum(free) <= MAX_BALANCE && forall who | who in free :: deposit <= free[who] <= MAX_BALANCE
      ensures Valid() && Gap() == 0 && open == 0 && sent == 0 && received == 0
      ensures this.free == free && reserved == map[] && this.issuance == issuance
      ensures this.deposit == deposit && this.transferFee == transferFee
      ensures this.baseFee == baseFee && this.byteFee == byteFee
    {
      this.deposit, this.transferFee, this.baseFee, this.byteFee := deposit, transferFee, baseFee, byteFee;
      this.free, reserved, this.issuance := free, map[], issuance;
      open, sent, received := 0, 0, 0;
      WorthIsSum(free);
      WorthIsSum(map[]);
      StoredMeans(free, deposit);
      StoredMeans(map[], deposit);
    }

    function Free(who: Account): (r: Amount)
      requires Valid()
      reads this
    {
      StoredGet(free, deposit, who);
      Get(free, who)
    }

    function Reserved(who: Account): (r: Amount)
      requires Valid()
      reads this
    {
      StoredGet(reserved, deposit, who);
      Get(reserved, who)
    }

    /** The issuance has changed by an effect, and the gap by the drift of it. */
    twostate predicate Settled(e: Effect) reads this {
      issuance == e.Issuance(old(issuance)) && Gap() == old(Gap()) + e.Drift(old(issuance))
    }

    /** An amount was burnt, and some of a sum lost. */
    twostate predicate Burnt(amount: nat, lost: nat) reads this {
      && issuance == SaturatingSub(old(issuance), amount)
      && Gap() == old(Gap()) + SaturatingSub(amount, old(issuance)) + lost
    }

    /** Dropping an imbalance squares up the total issuance. */
    method Drop(x: Imbalance)
      requires Valid()
      modifies this`issuance, this`open
      ensures Valid() && open == old(open) - x.Value() && Settled(DropEffect(x))
      ensures x.Positive? ==> issuance == SaturatingAdd(old(issuance), x.amount)
      ensures x.Negative? ==> issuance == SaturatingSub(old(issuance), x.amount)
      ensures Gap() == old(Gap()) + issuance - old(issuance) - x.Value()
    {
      ThenDrop(0, 0, x, DropEffect(x), issuance);
      match x {
        case Positive(a) =>
          issuance := SaturatingAdd(issuance, a);
        case Negative(a) =>
          issuance := SaturatingSub(issuance, a);
      }
      open := open - x.Value();
    }

    /** Drops an imbalance after dust was burnt, from the issuance and the gap given. */
    method DropAfter(x: Imbalance, ghost dust: nat, ghost lost: nat, ghost whole: Effect, ghost before: nat,
                     ghost gap: int)
      requires Valid() && before <= MAX_BALANCE && whole.Completes(dust, lost, x)
      requires issuance == SaturatingSub(before, dust) && Gap() == gap + SaturatingSub(dust, before) + lost
      modifies this`issuance, this`open
      ensures Valid() && open == old(open) - x.Value()
      ensures issuance == whole.Issuance(before) && Gap() == gap + whole.Drift(before)
    {
      ThenDrop(dust, lost, x, whole, before);
      Drop(x);
    }

    /** Hands out an imbalance, to be dropped later. */
    ghost method Issue(x: Imbalance)
      modifies this`open
      ensures open == old(open) + x.Value() && Gap() == old(Gap()) + x.Value()
    {
      open := open + x.Value();
    }

    /** Sets a free balance. Below the existential deposit the account's free side is reaped and its dust burnt. */
    method SetFree(who: Account, balance: Amount)
      requires Valid()
      modifies this`free, this`issuance
      ensures Valid() && free == Put(old(free), deposit, who, balance)
      ensures issuance == SaturatingSub(old(issuance), Dust(deposit, balance))
      ensures Gap() == old(Gap()) + old(Free(who)) - balance + SaturatingSub(Dust(deposit, balance), old(issuance))
    {
      PutSum(free, deposit, who, balance);
      PutStored(free, deposit, who, balance);
      PutMeans(free, deposit, who, balance);
      if balance < deposit {
        free := free - {who};
        if balance != 0 {
          Burn(balance);
        }
      } else {
        free := free[who := balance];
      }
    }

    /** Sets a reserved balance, likewise. */
    method SetReserved(who: Account, balance: Amount)
      requires Valid()
      modifies this`reserved, this`issuance
      ensures Valid() && reserved == Put(old(reserved), deposit, who, balance)
      ensures issuance == SaturatingSub(old(issuance), Dust(deposit, balance))
      ensures Gap() == old(Gap()) + old(Reserved(who)) - balance + SaturatingSub(Dust(deposit, balance), old(issuance))
    {
      PutSum(reserved, deposit, who, balance);
      PutStored(reserved, deposit, who, balance);
      PutMeans(reserved, deposit, who, balance);
      if balance < deposit {
        reserved := reserved - {who};
        if balance != 0 {
          Burn(balance);
        }
      } else {
        reserved := reserved[who := balance];
      }
    }

    /** Burns an amount: a negative imbalance that is made and dropped at once. */
    method Burn(amount: nat)
      requires Valid()
      modifies this`issuance
      ensures Valid() && issuance == SaturatingSub(old(issuance), amount)
      ensures Gap() == old(Gap()) - amount + SaturatingSub(amount, old(issuance))
    {
      issuance := SaturatingSub(issuance, amount);
    }

    // ---- Transfers ----

    /** Transfers free funds. To another shard they are only debited here, and sent. `allowed` is whether vesting and
        locks permit the withdrawal. Answers the fee withdrawn. */
    method Transfer(from: Account, dest: Account, value: Amount, elsewhere: bool, allowed: bool)
      returns (r: Result<Amount, Failure>)
      requires Valid()
      modifies this
      ensures Valid() && received == old(received) && open == old(open)
      ensures Now() == old(Now()).Transferred(from, dest, value, elsewhere, allowed)
      ensures Settled(old(Now()).TransferEffect(from, dest, value, elsewhere, allowed))
      ensures r.Err? ==>
                && unchanged(this)
                && r.error == if value + transferFee > MAX_BALANCE then Overflow
                              else if Free(from) < value + transferFee then TooLow
                              else if !allowed then Restricted else TooHigh
      ensures r.Ok? <==> old(Now()).TransferOk(from, dest, value, elsewhere, allowed)
      ensures sent == old(sent) + if r.Ok? && elsewhere then value else 0
      ensures r.Ok? ==> r.value == if !elsewhere && from == dest then 0 else transferFee
    {
      NothingMeans(issuance);
      var liability := value + transferFee;
      if liability > MAX_BALANCE {
        return Err(Overflow);
      }
      if Free(from) < liability {
        return Err(TooLow);
      }
      if !allowed {
        return Err(Restricted);
      }
      if elsewhere {
        SendAway(from, dest, value);
        return Ok(transferFee);
      }
      if Free(dest) + value > MAX_BALANCE {
        return Err(TooHigh);
      }
      if from == dest {
        return Ok(0);
      }
      Move(from, dest, value);
      return Ok(transferFee);
    }

    /** Debits what goes to another shard, and the fee. */
    method SendAway(from: Account, dest: Account, value: Amount)
      requires Valid() && Now().TransferOk(from, dest, value, true, true)
      modifies this`free, this`issuance, this`sent
      ensures Valid() && sent == old(sent) + value && Now() == old(Now()).Transferred(from, dest, value, true, true)
      ensures Settled(old(Now()).TransferEffect(from, dest, value, true, true))
    {
      OnlyBurns(Now().TransferEffect(from, dest, value, true, true).burnt, 0, issuance);
      Debit(from, Free(from) - (value + transferFee), value);
      sent := sent + value;
    }

    method Debit(from: Account, left: Amount, value: Amount)
      requires Valid() && left + value + transferFee == Free(from)
      modifies this`free, this`issuance
      ensures Valid() && free == Put(old(free), deposit, from, left)
      ensures issuance == SaturatingSub(old(issuance), transferFee + Dust(deposit, left))
      ensures Gap() == old(Gap()) + value + SaturatingSub(transferFee + Dust(deposit, left), old(issuance))
    {
      BurnTwice(issuance, Dust(deposit, left), transferFee);
      SetFree(from, left);
      Burn(transferFee);
    }

    /** Moves funds within the shard, and takes the fee. */
    method Move(from: Account, dest: Account, value: Amount)
      requires Valid() && Now().TransferOk(from, dest, value, false, true) && from != dest
      modifies this`free, this`issuance
      ensures Valid() && Now() == old(Now()).Transferred(from, dest, value, false, true)
      ensures Settled(old(Now()).TransferEffect(from, dest, value, false, true))
    {
      OnlyBurns(Now().TransferEffect(from, dest, value, false, true).burnt, 0, issuance);
      SetBoth(from, Free(from) - (value + transferFee), dest, Free(dest) + value);
    }

    method SetBoth(from: Account, left: Amount, dest: Account, right: Amount)
      requires Valid() && from != dest && left + right + transferFee == Free(from) + Free(dest)
      modifies this`free, this`issuance
      ensures Valid() && free == Put(Put(old(free), deposit, from, left), deposit, dest, right)
      ensures Burnt(transferFee + Dust(deposit, left) + Dust(deposit, right), 0)
    {
      BurnTwice(issuance, Dust(deposit, left), Dust(deposit, right));
      BurnTwice(issuance, Dust(deposit, left) + Dust(deposit, right), transferFee);
      PutElsewhere(free, deposit, from, left, dest);
      SetFree(from, left);
      SetFree(dest, right);
      Burn(transferFee);
    }

    /** Credits what another shard has debited. The issuance is not touched: it moved with the funds. */
    method RelayTransfer(to: Account, amount: Amount) returns (r: Result<(), Failure>)
      requires Valid()
      modifies this
      ensures Valid() && sent == old(sent) && open == old(open)
      ensures Now() == old(Now()).Relayed(to, amount) && Settled(old(Now()).RelayEffect(to, amount))
      ensures r.Ok? <==> old(Now()).Credited(to, amount) <= MAX_BALANCE
      ensures r.Err? ==> unchanged(this) && r.error == TooHigh
      ensures r.Ok? ==> received == old(received) + amount
    {
      var toBalance := Free(to);
      assert toBalance + amount == Now().Credited(to, amount);
      OnlyBurns(Now().RelayEffect(to, amount).burnt, 0, issuance);
      if toBalance + amount > MAX_BALANCE {
        return Err(TooHigh);
      }
      SetFree(to, toBalance + amount);
      received := received + amount;
      return Ok(());
    }

    // ---- Operations that answer an imbalance ----

    /** Takes free funds out of an account, as an imbalance. */
    method Withdraw(who: Account, value: Amount, allowed: bool, keepAlive: bool) returns (r: Result<Imbalance, Failure>)
      requires Valid()
      modifies this`free, this`issuance, this`open
      ensures Valid() && (r.Err? ==> unchanged(this))
      ensures r.Err? ==>
                r.error == if Free(who) < value then TooLow
                           else if keepAlive && Free(who) - value < deposit then WouldKill else Restricted
      ensures r.Ok? <==> old(Now()).WithdrawOk(who, value, allowed, keepAlive)
      ensures r.Ok? ==> r.value == Negative(value) && open == old(open) - value
      ensures r.Ok? ==> free == Put(old(free), deposit, who, SaturatingSub(old(Free(who)), value))
      ensures r.Ok? ==> Burnt(Dust(deposit, SaturatingSub(old(Free(who)), value)), 0)
    {
      if Free(who) < value {
        return Err(TooLow);
      }
      var balance := Free(who) - value;
      if keepAlive && balance < deposit {
        return Err(WouldKill);
      }
      if !allowed {
        return Err(Restricted);
      }
      assert balance == SaturatingSub(Free(who), value);
      SetFree(who, balance);
      Issue(Negative(value));
      return Ok(Negative(value));
    }

    /** Takes free and, if need be, reserved funds. Answers what was taken and what could not be. */
    method Slash(who: Account, value: Amount) returns (x: Imbalance, remaining: nat)
      requires Valid()
      modifies this`free, this`reserved, this`issuance, this`open
      ensures Valid() && x.Negative? && x.amount + remaining == value && open == old(open) - x.amount
      ensures x.amount == Min(value, old(Free(who)) + old(Reserved(who)))
      ensures free == Put(old(free), deposit, who, SaturatingSub(old(Free(who)), value))
      ensures var lacking := old(Now()).Lacking(who, value);
        reserved == if lacking == 0 then old(reserved)
                    else Put(old(reserved), deposit, who, SaturatingSub(old(Reserved(who)), lacking))
      ensures Burnt(old(Now()).SlashDust(who, value), 0)
    {
      ghost var before, left, lacking := issuance, SaturatingSub(Free(who), value), Now().Lacking(who, value);
      var freeSlash := TakeFree(who, value);
      var rest := value - freeSlash;
      assert rest == lacking;
      if rest != 0 {
        BurnTwice(before, Dust(deposit, left), Dust(deposit, SaturatingSub(Reserved(who), lacking)));
        var reservedSlash := TakeReserved(who, rest);
        x, remaining := Negative(freeSlash + reservedSlash), rest - reservedSlash;
      } else {
        x, remaining := Negative(value), 0;
      }
      Issue(x);
    }

    /** Takes free funds, up to `value`. */
    method TakeFree(who: Account, value: Amount) returns (taken: nat)
      requires Valid()
      modifies this`free, this`issuance
      ensures Valid() && taken == Min(old(Free(who)), value)
      ensures free == Put(old(free), deposit, who, SaturatingSub(old(Free(who)), value))
      ensures var dust := Dust(deposit, SaturatingSub(old(Free(who)), value));
        && issuance == SaturatingSub(old(issuance), dust)
        && Gap() == old(Gap()) + taken + SaturatingSub(dust, old(issuance))
    {
      var b := Free(who);
      taken := Min(b, value);
      assert b - taken == SaturatingSub(b, value);
      SetFree(who, b - taken);
    }

    /** Takes reserved funds, up to `value`. */
    method TakeReserved(who: Account, value: Amount) returns (taken: nat)
      requires Valid()
      modifies this`reserved, this`issuance
      ensures Valid() && taken == Min(old(Reserved(who)), value)
      ensures reserved == Put(old(reserved), deposit, who, SaturatingSub(old(Reserved(who)), value))
      ensures var dust := Dust(deposit, SaturatingSub(old(Reserved(who)), value));
        && issuance == SaturatingSub(old(issuance), dust)
        && Gap() == old(Gap()) + taken + SaturatingSub(dust, old(issuance))
    {
      var b := Reserved(who);
      taken := Min(b, value);
      assert b - taken == SaturatingSub(b, value);
      SetReserved(who, b - taken);
    }

    /** The new balance is an unchecked sum. */
    method DepositIntoExisting(who: Account, value: Amount) returns (r: Result<Imbalance, Failure>)
      requires Valid()
      modifies this`free, this`issuance, this`open
      ensures Valid() && (r.Err? ==> unchanged(this) && r.error == MustExist) && (r.Ok? <==> old(Now()).Exists(who))
      ensures r.Ok? ==> r.value == Positive(value) && open == old(open) + value
      ensures r.Ok? ==> free == Put(old(free), deposit, who, Plus(who, old(Free(who)), value))
      ensures r.Ok? ==> Burnt(Dust(deposit, Plus(who, old(Free(who)), value)), Wrapped(who, old(Free(who)), value))
    {
      if Plus(who, Free(who), Reserved(who)) == 0 {
        return Err(MustExist);
      }
      SetFree(who, Plus(who, Free(who), value));
      Issue(Positive(value));
      return Ok(Positive(value));
    }

    /** Sets a free balance and answers the imbalance this makes. An empty account is not given less than the
        deposit. */
    method MakeFreeBalanceBe(who: Account, balance: Amount) returns (x: Imbalance)
      requires Valid()
      modifies this`free, this`issuance, this`open
      ensures Valid() && x == MadeBy(deposit, old(Free(who)), balance) && open == old(open) + x.Value()
      ensures free == if old(Free(who)) == 0 && balance < deposit then old(free)
                      else Put(old(free), deposit, who, balance)
      ensures Burnt(old(Now()).SettingBurns(who, balance), 0)
    {
      var original := Free(who);
      if balance < deposit && original == 0 {
        return Positive(0);
      }
      x := if original <= balance then Positive(balance - original) else Negative(original - balance);
      SetFree(who, balance);
      Issue(x);
    }

    /** Deposits into an account that may be new. The new balance is an unchecked sum. */
    method DepositCreating(who: Account, value: Amount) returns (x: Imbalance)
      requires Valid()
      modifies this`free, this`issuance, this`open
      ensures Valid() && x.Positive? && open == old(open) + x.amount
      ensures x.amount == old(Now()).DepositCreatingIssues(who, value)
      ensures free == if old(Free(who)) == 0 && value < deposit then old(free)
                      else Put(old(free), deposit, who, Plus(who, old(Free(who)), value))
      ensures Burnt(old(Now()).DepositCreatingBurns(who, value), 0)
    {
      PlusMeans(who, Free(who), value);
      StoredGet(free, deposit, who);
      ghost var before, gap, burns := issuance, Gap(), Now().DepositCreatingBurns(who, value);
      ghost var dust := Now().SettingBurns(who, Plus(who, Free(who), value));
      x := MakeFreeBalanceBe(who, Plus(who, Free(who), value));
      if x.Negative? {
        OnlyBurns(burns, 0, before);
        DropAfter(x, dust, 0, Effect(burns, 0, 0), before, gap);
        x := Positive(0);
      }
    }

    method SlashReserved(who: Account, value: Amount) returns (x: Imbalance, remaining: nat)
      requires Valid()
      modifies this`reserved, this`issuance, this`open
      ensures Valid() && x == Negative(Min(old(Reserved(who)), value)) && remaining == value - x.amount
      ensures open == old(open) - x.amount
      ensures reserved == Put(old(reserved), deposit, who, SaturatingSub(old(Reserved(who)), value))
      ensures Burnt(Dust(deposit, SaturatingSub(old(Reserved(who)), value)), 0)
    {
      var slash := TakeReserved(who, value);
      x, remaining := Negative(slash), value - slash;
      Issue(x);
    }

    // ---- Reserving ----

    method Reserve(who: Account, value: Amount, allowed: bool) returns (r: Result<(), Failure>)
      requires Valid()
      modifies this`free, this`reserved, this`issuance
      ensures Valid() && (r.Ok? <==> value <= old(Free(who)) && allowed)
      ensures r.Err? ==> unchanged(this) && r.error == if Free(who) < value then TooLow else Restricted
      ensures Settled(old(Now()).ReserveEffect(who, value, allowed))
      ensures r.Ok? ==>
                && free == Put(old(free), deposit, who, SaturatingSub(old(Free(who)), value))
                && reserved == Put(old(reserved), deposit, who, Plus(who, old(Reserved(who)), value))
    {
      var b := Free(who);
      NothingMeans(issuance);
      if b < value {
        return Err(TooLow);
      }
      if !allowed {
        return Err(Restricted);
      }
      assert b - value == SaturatingSub(b, value);
      ghost var e := Now().ReserveEffect(who, value, allowed);
      OnlyBurns(e.burnt, e.wrapped, issuance);
      SetAside(who, Plus(who, Reserved(who), value), b - value, Wrapped(who, Reserved(who), value));
      return Ok(());
    }

    /** Sets the reserved and then the free side of an account, of which `wrapped` is lost. */
    method SetAside(who: Account, aside: Amount, left: Amount, ghost wrapped: nat)
      requires Valid() && aside + left + wrapped == Free(who) + Reserved(who)
      modifies this`free, this`reserved, this`issuance
      ensures Valid() && free == Put(old(free), deposit, who, left)
      ensures reserved == Put(old(reserved), deposit, who, aside)
      ensures Burnt(Dust(deposit, aside) + Dust(deposit, left), wrapped)
    {
      BurnTwice(issuance, Dust(deposit, aside), Dust(deposit, left));
      SetReserved(who, aside);
      SetFree(who, left);
    }

    /** Moves reserved funds into free ones, as far as there are any. */
    method Release(from: Account, to: Account, value: Amount) returns (actual: Amount)
      requires Valid()
      modifies this`free, this`reserved, this`issuance
      ensures Valid() && actual == Min(old(Reserved(from)), value)
      ensures Settled(old(Now()).ReleaseEffect(from, to, value))
      ensures free == Put(old(free), deposit, to, Plus(to, old(Free(to)), actual))
      ensures reserved == Put(old(reserved), deposit, from, SaturatingSub(old(Reserved(from)), value))
    {
      actual := Min(Reserved(from), value);
      ghost var e := Now().ReleaseEffect(from, to, value);
      ReleaseSums(Now(), from, to, value);
      OnlyBurns(e.burnt, e.wrapped, issuance);
      var left := Reserved(from) - actual;
      assert left == SaturatingSub(Reserved(from), value);
      SetBack(from, left, to, Plus(to, Free(to), actual), e.wrapped);
    }

    /** Sets a free and then a reserved side, likewise. */
    method SetBack(from: Account, left: Amount, to: Account, now: Amount, ghost wrapped: nat)
      requires Valid() && now + left + wrapped == Free(to) + Reserved(from)
      modifies this`free, this`reserved, this`issuance
      ensures Valid() && free == Put(old(free), deposit, to, now) && reserved == Put(old(reserved), deposit, from, left)
      ensures Burnt(Dust(deposit, now) + Dust(deposit, left), wrapped)
    {
      BurnTwice(issuance, Dust(deposit, now), Dust(deposit, left));
      SetFree(to, now);
      SetReserved(from, left);
    }

    method Unreserve(who: Account, value: Amount) returns (missing: nat)
      requires Valid()
      modifies this`free, this`reserved, this`issuance
      ensures Valid() && missing == SaturatingSub(value, old(Reserved(who)))
      ensures Settled(old(Now()).ReleaseEffect(who, who, value))
      ensures free == Put(old(free), deposit, who, Plus(who, old(Free(who)), Min(old(Reserved(who)), value)))
      ensures reserved == Put(old(reserved), deposit, who, SaturatingSub(old(Reserved(who)), value))
    {
      var actual := Release(who, who, value);
      return value - actual;
    }

    method RepatriateReserved(slashed: Account, beneficiary: Account, value: Amount)
      returns (r: Result<nat, Failure>)
      requires Valid()
      modifies this`free, this`reserved, this`issuance
      ensures Valid() && (r.Err? ==> unchanged(this) && r.error == MustExist)
      ensures r.Ok? <==> old(Now()).Exists(beneficiary)
      ensures r.Ok? ==>
                var slash := Min(old(Reserved(slashed)), value);
                && r.value == value - slash && Settled(old(Now()).ReleaseEffect(slashed, beneficiary, value))
                && free == Put(old(free), deposit, beneficiary, Plus(beneficiary, old(Free(beneficiary)), slash))
                && reserved == Put(old(reserved), deposit, slashed, SaturatingSub(old(Reserved(slashed)), value))
    {
      if Plus(beneficiary, Free(beneficiary), Reserved(beneficiary)) == 0 {
        return Err(MustExist);
      }
      var slash := Release(slashed, beneficiary, value);
      return Ok(value - slash);
    }

    // ---- Fees ----

    /** Charges the fee of a transaction, which must leave the account alive. Answers the fee withdrawn. */
    method MakePayment(who: Account, length: nat, allowed: bool) returns (r: Result<Amount, Failure>)
      requires Valid()
      modifies this`free, this`issuance, this`open
      ensures Valid() && open == old(open) && (r.Err? ==> unchanged(this))
      ensures r.Err? ==>
                r.error == if Free(who) < Fee(who, length) then TooLow
                           else if Free(who) - Fee(who, length) < deposit then WouldKill else Restricted
      ensures r.Ok? <==> old(Now()).WithdrawOk(who, Fee(who, length), allowed, true)
      ensures r.Ok? ==>
                && r.value == Fee(who, length)
                && free == Put(old(free), deposit, who, SaturatingSub(old(Free(who)), r.value))
      ensures Settled(if r.Ok? then Effect(r.value, 0, 0) else NOTHING)
    {
      var fee := Fee(who, length);
      ghost var before, left := issuance, SaturatingSub(Free(who), fee);
      NothingMeans(before);
      OnlyBurns(fee, 0, before);
      var withdrawn := Withdraw(who, fee, allowed, true);
      if withdrawn.Err? {
        return Err(withdrawn.error);
      }
      assert Dust(deposit, left) == 0;
      assert issuance == before;
      Drop(withdrawn.value);
      return Ok(fee);
    }

    function Fee(who: Account, length: nat): Amount {
      FeeFor(who, baseFee, byteFee, length)
    }
  }
}
