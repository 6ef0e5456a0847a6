/** Block rewards: the fees of a block, with the block reward, are planned at its end and paid out later. */
module PowRewards {
  import opened Wrappers
  import opened ShardBalances
  import opened ShardWorld

  datatype RewardPlan = RewardPlan(block: nat, coinbase: Account, blockReward: nat, feeReward: nat)

  /** An unchecked sum. */
  function RewardAmount(plan: RewardPlan): Amount {
    Wrap(plan.coinbase, plan.blockReward + plan.feeReward)
  }

  datatype RewardCondition = Normal | SlashCoinbase

  datatype PowInfo = PowInfo(coinbase: Account, condition: RewardCondition)

  /** A plan handed to `reward`, and the block in which it was. */
  datatype Handed = Handed(plan: RewardPlan, at: nat)

  /** Everything planned, handed out and paid so far: the plans pending, those handed out, those of all blocks, the last
      block, all fees ever withdrawn and all rewards ever paid in this shard. */
  datatype Record = Record(plans: seq<RewardPlan>, handed: seq<Handed>, history: seq<RewardPlan>, block: nat,
                           withdrawn: nat, paid: nat)

  ghost function PlannedFees(plans: seq<RewardPlan>): nat {
    if plans == [] then 0 else PlannedFees(plans[..|plans| - 1]) + Last(plans).feeReward
  }

  ghost function HandedFees(handed: seq<Handed>): nat {
    if handed == [] then 0 else HandedFees(handed[..|handed| - 1]) + handed[|handed| - 1].plan.feeReward
  }

  lemma PlannedFeesAppend(plans: seq<RewardPlan>, plan: RewardPlan)
    ensures PlannedFees(plans + [plan]) == PlannedFees(plans) + plan.feeReward
  {
    assert (plans + [plan])[..|plans|] == plans;
  }

  lemma {:induction false} PlannedFeesRest(plans: seq<RewardPlan>)
    requires plans != []
    ensures PlannedFees(plans) == plans[0].feeReward + PlannedFees(plans[1..])
  {
    var init := plans[..|plans| - 1];
    if init != [] {
      PlannedFeesRest(init);
      assert init[1..] == plans[1..][..|plans| - 2];
    }
  }

  /** The plans of the last blocks up to `n`, one a block. */
  ghost predicate Consecutive(plans: seq<RewardPlan>, n: nat) {
    |plans| <= n && forall i | 0 <= i < |plans| :: plans[i].block == n - |plans| + 1 + i
  }

  /** The first blocks' plans, each handed out `latency` blocks later. */
  ghost predicate HandedInTime(handed: seq<Handed>, latency: nat) {
    forall j | 0 <= j < |handed| :: handed[j].plan.block == j + 1 && handed[j].at == j + 1 + latency
  }

  /** The plans up to a block, or those after it, in order. */
  ghost function Select(plans: seq<RewardPlan>, due: nat, paid: bool): seq<RewardPlan> {
    if plans == [] then []
    else
      var last := plans[|plans| - 1];
      Select(plans[..|plans| - 1], due, paid) + (if (last.block <= due) == paid then [last] else [])
  }

  /** Splits the plans into those due by a block and the others. */
  method Retain(plans: seq<RewardPlan>, due: nat) returns (paid: seq<RewardPlan>, kept: seq<RewardPlan>)
    ensures paid == Select(plans, due, true) && kept == Select(plans, due, false)
  {
    paid, kept := [], [];
    for i := 0 to |plans|
      invariant paid == Select(plans[..i], due, true) && kept == Select(plans[..i], due, false)
    {
      assert plans[..i + 1][..i] == plans[..i];
      if plans[i].block <= due {
        paid := paid + [plans[i]];
      } else {
        kept := kept + [plans[i]];
      }
    }
    assert plans[..|plans|] == plans;
  }

  lemma {:induction false} SelectNone(plans: seq<RewardPlan>, due: nat)
    requires forall plan | plan in plans :: plan.block > due
    ensures Select(plans, due, true) == [] && Select(plans, due, false) == plans
  {
    if plans != [] {
      var init, last := plans[..|plans| - 1], plans[|plans| - 1];
      assert plans == init + [last] && last in plans;
      SelectNone(init, due);
    }
  }

  lemma {:induction false} SelectCons(first: RewardPlan, rest: seq<RewardPlan>, due: nat, paid: bool)
    ensures Select([first] + rest, due, paid) == (if (first.block <= due) == paid then [first] else [])
            + Select(rest, due, paid)
  {
    var plans := [first] + rest;
    if rest == [] {
      assert plans == [first] && plans[..0] == [];
    } else {
      assert plans[..|plans| - 1] == [first] + rest[..|rest| - 1];
      SelectCons(first, rest[..|rest| - 1], due, paid);
    }
  }

  /** Of consecutive plans only the first can be due at a time. */
  lemma SelectFirst(plans: seq<RewardPlan>, n: nat, due: nat)
    requires Consecutive(plans, n) && due <= n - |plans| + 1
    ensures var k := if due == n - |plans| + 1 && |plans| > 0 then 1 else 0;
            Select(plans, due, true) == plans[..k] && Select(plans, due, false) == plans[k..]
  {
    if due == n - |plans| + 1 && |plans| > 0 {
      var rest := plans[1..];
      assert plans == [plans[0]] + rest;
      SelectCons(plans[0], rest, due, true);
      SelectCons(plans[0], rest, due, false);
      SelectNone(rest, due);
    } else {
      SelectNone(plans, due);
      assert plans[..0] == [] && plans[0..] == plans;
    }
  }

  ghost predicate Scheduled(plans: seq<RewardPlan>, handed: seq<Handed>, block: nat, latency: nat) {
    && Consecutive(plans, block) && |plans| == Min(block, latency)
    && |handed| == block - |plans| && HandedInTime(handed, latency)
  }

  /** Up to the latency, plans only pile up. */
  lemma ScheduledEarly(plans: seq<RewardPlan>, handed: seq<Handed>, n: nat, latency: nat, plan: RewardPlan)
    requires 0 < n <= latency && Scheduled(plans, handed, n - 1, latency) && plan.block == n
    ensures var all := plans + [plan];
      && Scheduled(all, handed, n, latency) && PlannedFees(all) == PlannedFees(plans) + plan.feeReward
      && Select(all, 0, true) == [] && Select(all, 0, false) == all
  {
    var all := plans + [plan];
    PlannedFeesAppend(plans, plan);
    ConsecutiveNext(plans, n - 1, plan);
    SelectFirst(all, n, 0);
    assert all[..0] == [] && all[0..] == all;
  }

  lemma ConsecutiveNext(plans: seq<RewardPlan>, n: nat, plan: RewardPlan)
    requires Consecutive(plans, n) && plan.block == n + 1
    ensures Consecutive(plans + [plan], n + 1)
    ensures Consecutive((plans + [plan])[1..], n + 1)
  {
    var all := plans + [plan];
    var rest := all[1..];
    forall i | 0 <= i < |rest| ensures rest[i].block == n + 1 - |rest| + 1 + i {
      assert rest[i] == all[i + 1];
    }
  }

  lemma HandedNext(handed: seq<Handed>, plan: RewardPlan, at: nat, latency: nat)
    requires HandedInTime(handed, latency) && plan.block == |handed| + 1 && at == |handed| + 1 + latency
    ensures HandedInTime(handed + [Handed(plan, at)], latency)
    ensures HandedFees(handed + [Handed(plan, at)]) == HandedFees(handed) + plan.feeReward
  {
    var more := handed + [Handed(plan, at)];
    assert more[..|more| - 1] == handed;
  }

  /** After it, every block hands the first plan out. */
  lemma ScheduledLate(plans: seq<RewardPlan>, handed: seq<Handed>, n: nat, latency: nat, plan: RewardPlan)
    requires n > latency && Scheduled(plans, handed, n - 1, latency) && plan.block == n
    ensures var all := plans + [plan];
      var handed' := handed + [Handed(all[0], n)];
      && Scheduled(all[1..], handed', n, latency)
      && HandedFees(handed') + PlannedFees(all[1..]) == HandedFees(handed) + PlannedFees(plans) + plan.feeReward
      && Select(all, n - latency, true) == [all[0]] && Select(all, n - latency, false) == all[1..]
  {
    var all := plans + [plan];
    PlannedFeesAppend(plans, plan);
    ConsecutiveNext(plans, n - 1, plan);
    SelectFirst(all, n, n - latency);
    assert all[..1] == [all[0]];
    PlannedFeesRest(all);
    HandedNext(handed, all[0], n, latency);
  }

  /** One more block keeps the schedule and the fees. */
  lemma ScheduledNext(plans: seq<RewardPlan>, handed: seq<Handed>, n: nat, latency: nat, plan: RewardPlan)
    requires n > 0 && Scheduled(plans, handed, n - 1, latency) && plan.block == n
    ensures var all := plans + [plan];
      if n > latency
      then
        var handed' := handed + [Handed(all[0], n)];
        && Scheduled(all[1..], handed', n, latency)
        && HandedFees(handed') + PlannedFees(all[1..]) == HandedFees(handed) + PlannedFees(plans) + plan.feeReward
        && Select(all, n - latency, true) == [all[0]] && Select(all, n - latency, false) == all[1..]
      else
        && Scheduled(all, handed, n, latency) && PlannedFees(all) == PlannedFees(plans) + plan.feeReward
        && Select(all, 0, true) == [] && Select(all, 0, false) == all
  {
    if n > latency {
      ScheduledLate(plans, handed, n, latency, plan);
    } else {
      ScheduledEarly(plans, handed, n, latency, plan);
    }
  }

  class Pow {
    const blockReward: nat
    const latency: nat
    const shardCount: nat
    const shard: int
    const shardOf: Account -> int
    var plans: seq<RewardPlan>
    var totalFee: nat                // fees of the current block
    var info: Option<PowInfo>
    ghost var block: nat             // the last block finished
    ghost var withdrawn: nat         // all fees ever withdrawn, in finished blocks and since
    ghost var handed: seq<Handed>
    ghost var history: seq<RewardPlan>  // the plans of all blocks
    ghost var paid: nat              // all rewards ever paid in this shard

    ghost function Now(): Record reads this {
      Record(plans, handed, history, block, withdrawn, paid)
    }

    /** Between blocks. */
    ghost predicate Valid() reads this {
      shardCount > 0 && Kept(plans, handed, history, block, withdrawn, paid, 3)
    }

    /** The plans of the last blocks are pending, those before them were handed out in time, all fees are in one or the
        other, and what is due for the ones handed out has been paid; unfolded only by `KeptMeans`. */
    ghost predicate Good(r: Record) {
      Kept(r.plans, r.handed, r.history, r.block, r.withdrawn, r.paid, 3)
    }

    ghost predicate Kept(plans: seq<RewardPlan>, handed: seq<Handed>, history: seq<RewardPlan>, block: nat,
                         withdrawn: nat, paid: nat, steps: nat) {
      if steps > 0 then Kept(plans, handed, history, block, withdrawn, paid, steps - 1)
      else
        && Scheduled(plans, handed, block, latency) && history == PlansOf(handed) + plans
        && withdrawn == HandedFees(handed) + PlannedFees(plans) && paid == Due(PlansOf(handed))
    }

    lemma KeptMeans(plans: seq<RewardPlan>, handed: seq<Handed>, history: seq<RewardPlan>, block: nat, withdrawn: nat,
                    paid: nat)
      ensures Kept(plans, handed, history, block, withdrawn, paid, 3) <==>
              && Scheduled(plans, handed, block, latency) && history == PlansOf(handed) + plans
              && withdrawn == HandedFees(handed) + PlannedFees(plans) && paid == Due(PlansOf(handed))
    {
      assert Kept(plans, handed, history, block, withdrawn, paid, 1) ==
             Kept(plans, handed, history, block, withdrawn, paid, 0);
      assert Kept(plans, handed, history, block, withdrawn, paid, 2) ==
             Kept(plans, handed, history, block, withdrawn, paid, 1);
    }

    lemma GoodMeans(r: Record)
      ensures Good(r) <==>
              && Scheduled(r.plans, r.handed, r.block, latency) && r.history == PlansOf(r.handed) + r.plans
              && r.withdrawn == HandedFees(r.handed) + PlannedFees(r.plans) && r.paid == Due(PlansOf(r.handed))
    {
      KeptMeans(r.plans, r.handed, r.history, r.block, r.withdrawn, r.paid);
    }

    /** After one more block: its plan is added, the one due is handed out, and the payments are made. */
    ghost function Ended(r: Record, plan: RewardPlan, payments: seq<(Account, Amount)>): Record {
      var n, all := r.block + 1, r.plans + [plan];
      Record(if n > latency then all[1..] else all, if n > latency then r.handed + [Handed(all[0], n)] else r.handed,
             r.history + [plan], n, r.withdrawn + plan.feeReward, r.paid + Amounts(payments))
    }

    /** The payments are those for the plan due at the end of block `n`, if there is one. */
    ghost predicate PaysDue(history: seq<RewardPlan>, n: nat, payments: seq<(Account, Amount)>, current: PowInfo) {
      if n > latency then n - latency <= |history| && PaidFor(payments, history[n - latency - 1], current)
      else payments == []
    }

    /** One more block keeps it all. */
    lemma BlockEnds(r: Record, plan: RewardPlan, payments: seq<(Account, Amount)>, current: PowInfo)
      requires Good(r) && plan.block == r.block + 1 && PaysDue(r.history + [plan], r.block + 1, payments, current)
      ensures Good(Ended(r, plan, payments))
    {
      GoodMeans(r);
      if r.block + 1 > latency {
        ScheduledAfter(r, plan, payments);
        HistoryAfter(r, plan, payments);
        FeesAfter(r, plan, payments);
        PaidLate(r, plan, payments, current);
      } else {
        EndsEarly(r, plan, payments);
      }
      StaysGood(r, Ended(r, plan, payments), plan.feeReward, Amounts(payments));
    }

    lemma StaysGood(r: Record, r': Record, fee: nat, amount: nat)
      requires Good(r) && Scheduled(r'.plans, r'.handed, r'.block, latency)
      requires r'.history == PlansOf(r'.handed) + r'.plans
      requires r'.withdrawn == r.withdrawn + fee && r'.paid == r.paid + amount
      requires HandedFees(r'.handed) + PlannedFees(r'.plans) == HandedFees(r.handed) + PlannedFees(r.plans) + fee
      requires Due(PlansOf(r'.handed)) == Due(PlansOf(r.handed)) + amount
      ensures Good(r')
    {
      GoodMeans(r);
      GoodMeans(r');
    }

    lemma EndsEarly(r: Record, plan: RewardPlan, payments: seq<(Account, Amount)>)
      requires Scheduled(r.plans, r.handed, r.block, latency) && r.history == PlansOf(r.handed) + r.plans
      requires plan.block == r.block + 1 <= latency && payments == []
      ensures var r' := Ended(r, plan, payments);
        && Scheduled(r'.plans, r'.handed, r'.block, latency) && r'.history == PlansOf(r'.handed) + r'.plans
        && r'.handed == r.handed && PlannedFees(r'.plans) == PlannedFees(r.plans) + plan.feeReward && r'.paid == r.paid
    {
      ScheduledEarly(r.plans, r.handed, r.block + 1, latency, plan);
      MovesOn(r.plans, r.handed, r.block + 1, latency, plan);
    }

    lemma ScheduledAfter(r: Record, plan: RewardPlan, payments: seq<(Account, Amount)>)
      requires Scheduled(r.plans, r.handed, r.block, latency) && plan.block == r.block + 1 > latency
      ensures var r' := Ended(r, plan, payments); Scheduled(r'.plans, r'.handed, r'.block, latency)
    {
      ScheduledLate(r.plans, r.handed, r.block + 1, latency, plan);
    }

    lemma FeesAfter(r: Record, plan: RewardPlan, payments: seq<(Account, Amount)>)
      requires Scheduled(r.plans, r.handed, r.block, latency) && plan.block == r.block + 1 > latency
      ensures var r' := Ended(r, plan, payments);
        HandedFees(r'.handed) + PlannedFees(r'.plans) == HandedFees(r.handed) + PlannedFees(r.plans) + plan.feeReward
    {
      ScheduledLate(r.plans, r.handed, r.block + 1, latency, plan);
    }

    lemma HistoryAfter(r: Record, plan: RewardPlan, payments: seq<(Account, Amount)>)
      requires Scheduled(r.plans, r.handed, r.block, latency) && r.history == PlansOf(r.handed) + r.plans
      requires r.block + 1 > latency
      ensures var r' := Ended(r, plan, payments); r'.history == PlansOf(r'.handed) + r'.plans
    {
      MovesOn(r.plans, r.handed, r.block + 1, latency, plan);
    }

    lemma PaidLate(r: Record, plan: RewardPlan, payments: seq<(Account, Amount)>, current: PowInfo)
      requires Scheduled(r.plans, r.handed, r.block, latency) && r.history == PlansOf(r.handed) + r.plans
      requires r.block + 1 > latency && PaysDue(r.history + [plan], r.block + 1, payments, current)
      ensures var r' := Ended(r, plan, payments);
        Due(PlansOf(r'.handed)) == Due(PlansOf(r.handed)) + Amounts(payments)
    {
      var n, first := r.block + 1, (r.plans + [plan])[0];
      MovesOn(r.plans, r.handed, n, latency, plan);
      assert PaidFor(payments, first, current);
      DueNext(r.handed, Handed(first, n), payments, current);
    }

    lemma DueNext(handed: seq<Handed>, next: Handed, payments: seq<(Account, Amount)>, current: PowInfo)
      requires PaidFor(payments, next.plan, current)
      ensures Due(PlansOf(handed + [next])) == Due(PlansOf(handed)) + Amounts(payments)
    {
      var more := PlansOf(handed + [next]);
      assert more[..|more| - 1] == PlansOf(handed);
      if payments != [] {
        assert payments[..0] == [];
      }
    }

    /** What is due in this shard for these plans: block and fee reward of those whose coinbase is here, each an
        unchecked sum. */
    ghost function Due(plans: seq<RewardPlan>): nat {
      if plans == [] then 0
      else
        var p := Last(plans);
        Due(plans[..|plans| - 1])
        + if shardOf(p.coinbase) == shard then Wrap(p.coinbase, p.blockReward + p.feeReward) else 0
    }

    /** What these plans promise to coinbases of this shard. */
    ghost function Promised(plans: seq<RewardPlan>): nat {
      if plans == [] then 0
      else
        var p := Last(plans);
        Promised(plans[..|plans| - 1]) + if shardOf(p.coinbase) == shard then p.blockReward + p.feeReward else 0
    }

    /** Nothing of this shard's rewards is lost by a sum that wraps. */
    ghost predicate NoneWraps(plans: seq<RewardPlan>) {
      forall p | p in plans && shardOf(p.coinbase) == shard :: p.blockReward + p.feeReward <= MAX_BALANCE
    }

    lemma {:induction false} DueMeans(plans: seq<RewardPlan>)
      ensures Due(plans) <= Promised(plans) && (Due(plans) == Promised(plans) <==> NoneWraps(plans))
    {
      if plans != [] {
        var init := plans[..|plans| - 1];
        assert plans == init + [Last(plans)];
        DueMeans(init);
        WrapMeans(Last(plans).coinbase, Last(plans).blockReward + Last(plans).feeReward);
      }
    }

    /** Over any run of blocks: the rewards paid in this shard are the block rewards and the fees of all blocks whose
        plans were handed out and whose coinbase is here, exactly when none of the sums wraps. */
    lemma RewardsPaid()
      requires Valid()
      ensures |handed| <= |history|
      ensures var done := history[..|handed|];
        paid <= Promised(done) && (paid == Promised(done) <==> NoneWraps(done))
    {
      GoodMeans(Now());
      assert history[..|handed|] == PlansOf(handed);
      DueMeans(history[..|handed|]);
    }

    /** The payment for a plan: one to its coinbase, or to the current one when slashing, of the block and fee reward in
        an unchecked sum; none when its coinbase belongs to another shard. */
    ghost predicate PaidFor(payments: seq<(Account, Amount)>, plan: RewardPlan, current: PowInfo) {
      if shardOf(plan.coinbase) != shard then payments == []
      else
        && |payments| == 1
        && payments[0].0 == (if current.condition == Normal then plan.coinbase else current.coinbase)
        && payments[0].1 == Wrap(plan.coinbase, plan.blockReward + plan.feeReward)
    }

    constructor (blockReward: nat, latency: nat, shardCount: nat, shard: int, shardOf: Account -> int)
      requires shardCount > 0
      ensures Valid() && block == 0 && plans == [] && handed == [] && history == [] && withdrawn == 0 && paid == 0
      ensures this.blockReward == blockReward && this.latency == latency && this.shardCount == shardCount
      ensures this.shard == shard && this.shardOf == shardOf && info == None
    {
      this.blockReward, this.latency, this.shardCount, this.shard, this.shardOf := blockReward, latency, shardCount,
          shard, shardOf;
      plans, totalFee, info, block, withdrawn, handed, history, paid := [], 0, None, 0, 0, [], [], 0;
      new;
      KeptMeans(plans, handed, history, block, withdrawn, paid);
    }

    /** The block reward of this shard; unfolded only by `ShareMeans`. */
    function Share(steps: nat := 3): nat
      requires shardCount > 0
    {
      if steps > 0 then Share(steps - 1) else blockReward / shardCount
    }

    lemma ShareMeans()
      requires shardCount > 0
      ensures Share() == blockReward / shardCount
    {
      assert Share(1) == Share(0);
      assert Share(2) == Share(1);
    }

    method OnInitialize()
      modifies this`totalFee
      ensures totalFee == 0
    {
      totalFee := 0;
    }

    method SetPowInfo(newInfo: PowInfo)
      modifies this`info
      ensures info == Some(newInfo)
    {
      info := Some(newInfo);
    }

    method OnFeeWithdrawn(amount: nat)
      modifies this`totalFee, this`withdrawn
      ensures totalFee == old(totalFee) + amount && withdrawn == old(withdrawn) + amount
    {
      totalFee := totalFee + amount;
      withdrawn := withdrawn + amount;
    }

    /** Who is paid how much for a plan: nobody when its coinbase belongs to another shard. */
    function Reward(plan: RewardPlan, current: PowInfo): seq<(Account, Amount)> {
      var target := match current.condition case Normal => plan.coinbase case SlashCoinbase => current.coinbase;
      if shardOf(plan.coinbase) == shard then [(target, RewardAmount(plan))] else []
    }

    /** Between the fees of block `n` and its end. */
    ghost predicate Pending(n: nat) reads this {
      shardCount > 0 && n == block + 1 && withdrawn >= totalFee && Good(Before())
    }

    /** As before the fees of the current block. */
    ghost function Before(): Record
      requires withdrawn >= totalFee
      reads this
    {
      Record(plans, handed, history, block, withdrawn - totalFee, paid)
    }

    /** The end of a block: its plan is added, and the one due is handed out. Nothing happens before the first pow
        inherent. */
    method OnFinalize(n: nat) returns (payments: seq<(Account, Amount)>)
      requires Pending(n)
      modifies this`plans, this`block, this`handed, this`history, this`paid
      ensures info.None? ==> unchanged(this) && payments == []
      ensures info.Some? ==>
                && Valid() && PaysDue(history, n, payments, info.value)
                && Now() == Ended(old(Before()), RewardPlan(n, info.value.coinbase, Share(), totalFee), payments)
    {
      if info.None? {
        return [];
      }
      payments := Finish(n, RewardPlan(n, info.value.coinbase, Share(), totalFee), info.value);
    }

    method Finish(n: nat, plan: RewardPlan, current: PowInfo) returns (payments: seq<(Account, Amount)>)
      requires Pending(n) && plan.block == n && plan.feeReward == totalFee
      modifies this`plans, this`block, this`handed, this`history, this`paid
      ensures Valid() && PaysDue(history, n, payments, current) && Now() == Ended(old(Before()), plan, payments)
    {
      ghost var r := Before();
      payments, plans := EndBlock(r, plans, n, plan, current);
      ghost var r' := Ended(r, plan, payments);
      handed, history, paid, block := r'.handed, r'.history, r'.paid, r'.block;
    }

    /** Hands out the plan due once a block's own is added. */
    method EndBlock(ghost r: Record, plans: seq<RewardPlan>, n: nat, plan: RewardPlan, current: PowInfo)
      returns (payments: seq<(Account, Amount)>, newPlans: seq<RewardPlan>)
      requires Good(r) && r.plans == plans && n == r.block + 1 && plan.block == n
      ensures Good(Ended(r, plan, payments)) && newPlans == Ended(r, plan, payments).plans
      ensures PaysDue(r.history + [plan], n, payments, current)
    {
      DueNow(r, n, plan);
      var done, kept := Retain(plans + [plan], if n > latency then n - latency else 0);
      payments := Pay(done, current);
      newPlans := kept;
      BlockEnds(r, plan, payments, current);
    }

    /** The one plan due. */
    lemma DueNow(r: Record, n: nat, plan: RewardPlan)
      requires Good(r) && n == r.block + 1 && plan.block == n
      ensures var all, history := r.plans + [plan], r.history + [plan];
        if n > latency
        then
          && n - latency <= |history| && Select(all, n - latency, true) == [history[n - latency - 1]]
          && Select(all, n - latency, false) == all[1..]
        else Select(all, 0, true) == [] && Select(all, 0, false) == all
    {
      GoodMeans(r);
      ScheduledNext(r.plans, r.handed, n, latency, plan);
      MovesOn(r.plans, r.handed, n, latency, plan);
    }

    /** Works out the payments for the plans due. */
    method Pay(paid: seq<RewardPlan>, current: PowInfo) returns (payments: seq<(Account, Amount)>)
      ensures payments == Rewards(paid, current)
      ensures (|paid| == 1 ==> PaidFor(payments, paid[0], current)) && (paid == [] ==> payments == [])
    {
      payments := [];
      for i := 0 to |paid|
        invariant payments == Rewards(paid[..i], current)
      {
        assert paid[..i + 1][..i] == paid[..i];
        payments := payments + Reward(paid[i], current);
      }
      assert paid[..|paid|] == paid;
      if |paid| == 1 {
        assert Rewards(paid[..0], current) == [];
        assert [] + Reward(paid[0], current) == Reward(paid[0], current);
      }
    }

    ghost function Rewards(paid: seq<RewardPlan>, current: PowInfo): seq<(Account, Amount)> {
      if paid == [] then [] else Rewards(paid[..|paid| - 1], current) + Reward(paid[|paid| - 1], current)
    }

    /** A transaction with a fee, in the shard's balances: what it withdraws is added to the block's fees. */
    method Charge(shard: Balances, call: Call) returns (fee: Amount)
      requires shard.Valid()
      modifies shard, this`totalFee, this`withdrawn
      ensures shard.Valid() && shard.open == old(shard.open) && shard.received == old(shard.received)
      ensures shard.Now() == Called(old(shard.Now()), call) && fee == FeeOf(old(shard.Now()), call)
      ensures shard.Settled(CallEffect(old(shard.Now()), call))
      ensures totalFee == old(totalFee) + fee && withdrawn == old(withdrawn) + fee
    {
      fee := 0;
      match call {
        case Transfer(from, dest, value, elsewhere, allowed) =>
          var r := shard.Transfer(from, dest, value, elsewhere, allowed);
          if r.Ok? {
            fee := r.value;
          }
        case Payment(who, length, allowed) =>
          var r := shard.MakePayment(who, length, allowed);
          if r.Ok? {
            fee := r.value;
          }
      }
      OnFeeWithdrawn(fee);
    }

    /** The transactions of a block, one after the other. */
    method ChargeAll(shard: Balances, calls: seq<Call>)
      requires shard.Valid()
      modifies shard, this`totalFee, this`withdrawn
      ensures shard.Valid() && shard.open == old(shard.open) && shard.received == old(shard.received)
      ensures shard.Now() == AllCalled(old(shard.Now()), calls)
      ensures totalFee == old(totalFee) + FeesOf(old(shard.Now()), calls)
      ensures withdrawn == old(withdrawn) + FeesOf(old(shard.Now()), calls)
    {
      for i := 0 to |calls|
        invariant shard.Valid() && shard.open == old(shard.open) && shard.received == old(shard.received)
        invariant shard.Now() == AllCalled(old(shard.Now()), calls[..i])
        invariant totalFee == old(totalFee) + FeesOf(old(shard.Now()), calls[..i])
        invariant withdrawn == old(withdrawn) + FeesOf(old(shard.Now()), calls[..i])
      {
        assert calls[..i + 1][..i] == calls[..i];
        var _ := Charge(shard, calls[i]);
      }
      assert calls[..|calls|] == calls;
    }

    /** A whole block with its pow inherent: its transactions are charged in the shard's balances, all they withdraw
        becomes the fee reward of the block's plan, and the plan due is paid out there. */
    method RunBlock(n: nat, newInfo: PowInfo, shard: Balances, calls: seq<Call>)
      returns (payments: seq<(Account, Amount)>)
      requires Valid() && n == block + 1 && shard.Valid()
      modifies this, shard
      ensures Valid() && PaysDue(history, n, payments, newInfo)
      ensures Now() == Ended(old(Now()), RewardPlan(n, newInfo.coinbase, Share(), FeesOf(old(shard.Now()), calls)),
                             payments)
      ensures shard.Valid() && shard.open == old(shard.open) && shard.received == old(shard.received)
      ensures shard.Now() == PaidOut(AllCalled(old(shard.Now()), calls), payments)
    {
      OnInitialize();
      SetPowInfo(newInfo);
      ChargeAll(shard, calls);
      payments := OnFinalize(n);
      PayOut(shard, payments);
    }

    /** Any run of blocks, with all their transactions in the shard. */
    method RunBlocks(n: nat, shard: Balances, blocks: seq<(PowInfo, seq<Call>)>)
      requires Valid() && block == n && shard.Valid()
      modifies this, shard
      ensures Valid() && shard.Valid() && block == n + |blocks| && old(history) <= history
    {
      for i := 0 to |blocks|
        invariant Valid() && shard.Valid() && block == n + i && old(history) <= history
      {
        var _ := RunBlock(n + i + 1, blocks[i].0, shard, blocks[i].1);
      }
    }

    /** The plan of block `b` is handed out exactly once, in block `b + latency`. */
    lemma PaidOnce(b: nat)
      requires Valid() && 1 <= b
      ensures b + latency <= block <==> exists j :: 0 <= j < |handed| && handed[j].plan.block == b
      ensures forall j, k | 0 <= j < |handed| && 0 <= k < |handed| && handed[j].plan.block == b
              && handed[k].plan.block == b :: j == k
      ensures forall j | 0 <= j < |handed| && handed[j].plan.block == b :: handed[j].at == b + latency
    {
      GoodMeans(Now());
      if b + latency <= block {
        assert handed[b - 1].plan.block == b;
      }
    }
  }

  ghost function PlansOf(handed: seq<Handed>): (r: seq<RewardPlan>)
    ensures |r| == |handed| && forall j | 0 <= j < |r| :: r[j] == handed[j].plan
  {
    seq(|handed|, j requires 0 <= j < |handed| => handed[j].plan)
  }

  /** All plans, handed out or not, stay in the order of their blocks. */
  lemma MovesOn(plans: seq<RewardPlan>, handed: seq<Handed>, n: nat, latency: nat, plan: RewardPlan)
    requires n > 0 && Scheduled(plans, handed, n - 1, latency)
    ensures var history, all := PlansOf(handed) + plans + [plan], plans + [plan];
      if n > latency then |handed| == n - latency - 1 && history[n - latency - 1] == all[0]
                          && history == PlansOf(handed + [Handed(all[0], n)]) + all[1..]
      else history == PlansOf(handed) + all
  {
    var all := plans + [plan];
    if n > latency {
      assert PlansOf(handed + [Handed(all[0], n)]) == PlansOf(handed) + [all[0]];
      assert all == [all[0]] + all[1..];
    }
  }

  ghost function Amounts(payments: seq<(Account, Amount)>): nat {
    if payments == [] then 0 else Amounts(payments[..|payments| - 1]) + Last(payments).1
  }

  /** A transaction that pays a fee. */
  datatype Call =
    | Transfer(from: Account, dest: Account, value: Amount, elsewhere: bool, allowed: bool)
    | Payment(who: Account, length: nat, allowed: bool)

  /** The fee a transaction withdraws, in the state it meets. */
  ghost function FeeOf(b: Sheet, call: Call): Amount
    requires b.Valid()
  {
    match call
    case Transfer(from, dest, value, elsewhere, allowed) =>
      if b.TransferOk(from, dest, value, elsewhere, allowed) && (elsewhere || from != dest) then b.transferFee else 0
    case Payment(who, length, allowed) =>
      if b.WithdrawOk(who, b.Fee(who, length), allowed, true) then b.Fee(who, length) else 0
  }

  ghost function CallEffect(b: Sheet, call: Call): Effect
    requires b.Valid()
  {
    match call
    case Transfer(from, dest, value, elsewhere, allowed) => b.TransferEffect(from, dest, value, elsewhere, allowed)
    case Payment(who, length, allowed) => EffectOf(b, MakePayment(who, length, allowed))
  }

  /** The shard after a transaction. */
  ghost function Called(b: Sheet, call: Call): (r: Sheet)
    requires b.Valid()
    ensures r.Valid()
  {
    match call
    case Transfer(from, dest, value, elsewhere, allowed) =>
      TransferredSurplus(b, from, dest, value, elsewhere, allowed);
      b.Transferred(from, dest, value, elsewhere, allowed)
    case Payment(who, length, allowed) =>
      AppliedSurplus(b, MakePayment(who, length, allowed));
      Applied(b, MakePayment(who, length, allowed))
  }

  ghost function AllCalled(b: Sheet, calls: seq<Call>): (r: Sheet)
    requires b.Valid()
    ensures r.Valid()
  {
    if calls == [] then b else Called(AllCalled(b, calls[..|calls| - 1]), calls[|calls| - 1])
  }

  /** All fees that transactions withdraw, each in the state it meets. */
  ghost function FeesOf(b: Sheet, calls: seq<Call>): nat
    requires b.Valid()
  {
    if calls == [] then 0
    else
      var init := calls[..|calls| - 1];
      FeesOf(b, init) + FeeOf(AllCalled(b, init), calls[|calls| - 1])
  }

  /** What a transaction burns is its fee and dust. */
  lemma FeeIsBurnt(b: Sheet, call: Call)
    requires b.Valid()
    ensures var e := CallEffect(b, call);
      && FeeOf(b, call) <= e.burnt && e.issued == 0 && e.wrapped == 0 && (b.deposit == 0 ==> e.burnt == FeeOf(b, call))
      && Called(b, call).issuance == SaturatingSub(b.issuance, e.burnt) && Called(b, call).deposit == b.deposit
  {
    var e := CallEffect(b, call);
    NothingMeans(b.issuance);
    OnlyBurns(e.burnt, 0, b.issuance);
  }

  /** Over a whole block at least the fees leave the issuance, before they are issued again as a reward; without an
      existential deposit there is no dust, and nothing else leaves it. */
  lemma {:induction false} FeesAreBurnt(b: Sheet, calls: seq<Call>)
    requires b.Valid()
    ensures AllCalled(b, calls).issuance <= SaturatingSub(b.issuance, FeesOf(b, calls))
    ensures b.deposit == 0 ==> AllCalled(b, calls).issuance == SaturatingSub(b.issuance, FeesOf(b, calls))
    ensures AllCalled(b, calls).deposit == b.deposit
  {
    if calls != [] {
      var init := calls[..|calls| - 1];
      FeesAreBurnt(b, init);
      FeeIsBurnt(AllCalled(b, init), calls[|calls| - 1]);
    }
  }

  /** The shard after rewards are paid, as newly issued funds. */
  ghost function PaidOut(b: Sheet, payments: seq<(Account, Amount)>): (r: Sheet)
    requires b.Valid()
    ensures r.Valid()
  {
    if payments == [] then b
    else
      var before, last := PaidOut(b, payments[..|payments| - 1]), payments[|payments| - 1];
      AppliedSurplus(before, DepositCreating(last.0, last.1));
      Applied(before, DepositCreating(last.0, last.1))
  }

  /** Pays the rewards into the accounts of the shard. */
  method PayOut(shard: Balances, payments: seq<(Account, Amount)>)
    requires shard.Valid()
    modifies shard`free, shard`reserved, shard`issuance, shard`open
    ensures shard.Valid() && shard.open == old(shard.open) && shard.Now() == PaidOut(old(shard.Now()), payments)
  {
    for i := 0 to |payments|
      invariant shard.Valid() && shard.open == old(shard.open)
      invariant shard.Now() == PaidOut(old(shard.Now()), payments[..i])
    {
      assert payments[..i + 1][..i] == payments[..i];
      Apply(shard, DepositCreating(payments[i].0, payments[i].1));
    }
    assert payments[..|payments|] == payments;
  }

  // ---- A block as a run of all shards ----

  ghost function StepOf(i: nat, call: Call): Step {
    match call
    case Transfer(from, dest, value, _, allowed) => Pay(i, from, dest, value, allowed)
    case Payment(who, length, allowed) => Local(i, MakePayment(who, length, allowed))
  }

  ghost function CallSteps(i: nat, calls: seq<Call>): seq<Step> {
    seq(|calls|, k requires 0 <= k < |calls| => StepOf(i, calls[k]))
  }

  ghost function PaymentSteps(i: nat, payments: seq<(Account, Amount)>): seq<Step> {
    seq(|payments|, k requires 0 <= k < |payments| => Local(i, DepositCreating(payments[k].0, payments[k].1)))
  }

  /** Transfers know which accounts belong to another shard. */
  ghost predicate Placed(place: Account -> int, i: nat, calls: seq<Call>) {
    forall k | 0 <= k < |calls| && calls[k].Transfer? :: calls[k].elsewhere == (place(calls[k].dest) != i)
  }

  lemma CallIsStep(v: View, place: Account -> int, i: nat, call: Call)
    requires v.Valid() && i < |v.shards| && (call.Transfer? ==> call.elsewhere == (place(call.dest) != i))
    ensures var r := Next(v, place, StepOf(i, call));
      |r.shards| == |v.shards| && r.shards[i] == Called(v.shards[i], call)
  {
  }

  lemma PaymentIsStep(v: View, place: Account -> int, i: nat, who: Account, amount: Amount)
    requires v.Valid() && i < |v.shards|
    ensures var r := Next(v, place, Local(i, DepositCreating(who, amount)));
      |r.shards| == |v.shards| && r.shards[i] == Applied(v.shards[i], DepositCreating(who, amount))
  {
  }

  lemma {:induction false} CallsAreSteps(v: View, place: Account -> int, i: nat, calls: seq<Call>)
    requires v.Valid() && i < |v.shards| && Placed(place, i, calls)
    ensures var r := After(v, place, CallSteps(i, calls));
      |r.shards| == |v.shards| && r.shards[i] == AllCalled(v.shards[i], calls)
  {
    if calls != [] {
      var last := |calls| - 1;
      CallsAreSteps(v, place, i, calls[..last]);
      assert CallSteps(i, calls)[..last] == CallSteps(i, calls[..last]);
      CallIsStep(After(v, place, CallSteps(i, calls[..last])), place, i, calls[last]);
    }
  }

  /** A block is a run of all shards' steps, so that what holds of every run holds of blocks. */
  lemma {:induction false} BlockIsRun(v: View, place: Account -> int, i: nat, calls: seq<Call>,
                                      payments: seq<(Account, Amount)>)
    requires v.Valid() && i < |v.shards| && Placed(place, i, calls)
    ensures var r := After(v, place, CallSteps(i, calls) + PaymentSteps(i, payments));
      |r.shards| == |v.shards| && r.shards[i] == PaidOut(AllCalled(v.shards[i], calls), payments)
  {
    if payments == [] {
      CallsAreSteps(v, place, i, calls);
      assert CallSteps(i, calls) + PaymentSteps(i, payments) == CallSteps(i, calls);
    } else {
      var last := |payments| - 1;
      BlockIsRun(v, place, i, calls, payments[..last]);
      var steps := CallSteps(i, calls) + PaymentSteps(i, payments);
      assert steps[..|steps| - 1] == CallSteps(i, calls) + PaymentSteps(i, payments[..last]);
      PaymentIsStep(After(v, place, steps[..|steps| - 1]), place, i, payments[last].0, payments[last].1);
    }
  }
}
