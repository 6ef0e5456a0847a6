/** All shards together, with the cross-shard transfers on their way between them. */
module ShardWorld {
  import opened Wrappers
  import opened ShardBalances

  /** A debit made in one shard, to be credited in another. */
  datatype Relay = Relay(from: Account, to: Account, amount: Amount)

  /** What can happen within one shard. An imbalance an operation answers is dropped afterwards. */
  datatype Operation =
    | Withdraw(who: Account, value: Amount, allowed: bool, keepAlive: bool)
    | Slash(who: Account, value: Amount)
    | DepositIntoExisting(who: Account, value: Amount)
    | DepositCreating(who: Account, value: Amount)
    | MakeFreeBalanceBe(who: Account, value: Amount)
    | Reserve(who: Account, value: Amount, allowed: bool)
    | Unreserve(who: Account, value: Amount)
    | SlashReserved(who: Account, value: Amount)
    | RepatriateReserved(who: Account, beneficiary: Account, value: Amount)
    | MakePayment(who: Account, length: nat, allowed: bool)

  /** A step of the world: a transfer or another operation in a shard, or the arrival of a relay. */
  datatype Step =
    | Pay(shard: nat, from: Account, dest: Account, amount: Amount, allowed: bool)
    | Arrive(relay: nat)
    | Local(shard: nat, op: Operation)

  ghost function InFlight(relays: seq<Relay>): nat {
    if relays == [] then 0 else InFlight(relays[..|relays| - 1]) + relays[|relays| - 1].amount
  }

  lemma {:induction false} InFlightWithout(relays: seq<Relay>, k: nat)
    requires k < |relays|
    ensures InFlight(relays[..k] + relays[k + 1..]) == InFlight(relays) - relays[k].amount
  {
    var last := |relays| - 1;
    if k == last {
      assert relays[..k] + relays[k + 1..] == relays[..last];
    } else {
      var rest := relays[..k] + relays[k + 1..];
      assert rest[..|rest| - 1] == relays[..last][..k] + relays[..last][k + 1..];
      InFlightWithout(relays[..last], k);
    }
  }

  // ---- One operation, as a value ----

  /** What an operation burns, issues and loses, with the imbalance it leaves dropped. */
  ghost function EffectOf(b: Sheet, op: Operation): Effect
    requires b.Valid()
  {
    match op
    case Withdraw(who, value, allowed, keepAlive) =>
      if b.WithdrawOk(who, value, allowed, keepAlive)
      then Effect(Dust(b.deposit, SaturatingSub(b.Free(who), value)) + value, 0, 0) else NOTHING
    case Slash(who, value) =>
      Effect(b.SlashDust(who, value) + Min(value, b.Free(who) + b.Reserved(who)), 0, 0)
    case DepositIntoExisting(who, value) =>
      if b.Exists(who)
      then Effect(Dust(b.deposit, Plus(who, b.Free(who), value)), value, Wrapped(who, b.Free(who), value)) else NOTHING
    case DepositCreating(who, value) =>
      Effect(b.DepositCreatingBurns(who, value), b.DepositCreatingIssues(who, value), 0)
    case MakeFreeBalanceBe(who, value) =>
      if value < b.deposit && b.Free(who) == 0 then NOTHING
      else Effect(Dust(b.deposit, value) + SaturatingSub(b.Free(who), value), SaturatingSub(value, b.Free(who)), 0)
    case Reserve(who, value, allowed) => b.ReserveEffect(who, value, allowed)
    case Unreserve(who, value) => b.ReleaseEffect(who, who, value)
    case SlashReserved(who, value) =>
      Effect(Dust(b.deposit, SaturatingSub(b.Reserved(who), value)) + Min(b.Reserved(who), value), 0, 0)
    case RepatriateReserved(who, beneficiary, value) =>
      if b.Exists(beneficiary) then b.ReleaseEffect(who, beneficiary, value) else NOTHING
    case MakePayment(who, length, allowed) =>
      if b.WithdrawOk(who, b.Fee(who, length), allowed, true) then Effect(b.Fee(who, length), 0, 0) else NOTHING
  }

  ghost function FreeAfter(b: Sheet, op: Operation): Funds
    requires b.Valid()
  {
    match op
    case Withdraw(who, value, allowed, keepAlive) =>
      if b.WithdrawOk(who, value, allowed, keepAlive)
      then Put(b.free, b.deposit, who, SaturatingSub(b.Free(who), value)) else b.free
    case Slash(who, value) => Put(b.free, b.deposit, who, SaturatingSub(b.Free(who), value))
    case DepositIntoExisting(who, value) =>
      if b.Exists(who) then Put(b.free, b.deposit, who, Plus(who, b.Free(who), value)) else b.free
    case DepositCreating(who, value) =>
      if b.Free(who) == 0 && value < b.deposit then b.free
      else Put(b.free, b.deposit, who, Plus(who, b.Free(who), value))
    case MakeFreeBalanceBe(who, value) =>
      if b.Free(who) == 0 && value < b.deposit then b.free else Put(b.free, b.deposit, who, value)
    case Reserve(who, value, allowed) =>
      if value <= b.Free(who) && allowed then Put(b.free, b.deposit, who, SaturatingSub(b.Free(who), value)) else b.free
    case Unreserve(who, value) => Put(b.free, b.deposit, who, Plus(who, b.Free(who), Min(b.Reserved(who), value)))
    case SlashReserved(_, _) => b.free
    case RepatriateReserved(who, beneficiary, value) =>
      if b.Exists(beneficiary)
      then Put(b.free, b.deposit, beneficiary, Plus(beneficiary, b.Free(beneficiary), Min(b.Reserved(who), value)))
      else b.free
    case MakePayment(who, length, allowed) =>
      if b.WithdrawOk(who, b.Fee(who, length), allowed, true)
      then Put(b.free, b.deposit, who, SaturatingSub(b.Free(who), b.Fee(who, length))) else b.free
  }

  ghost function ReservedAfter(b: Sheet, op: Operation): Funds
    requires b.Valid()
  {
    match op
    case Slash(who, value) =>
      if b.Lacking(who, value) == 0 then b.reserved
      else Put(b.reserved, b.deposit, who, SaturatingSub(b.Reserved(who), b.Lacking(who, value)))
    case Reserve(who, value, allowed) =>
      if value <= b.Free(who) && allowed then Put(b.reserved, b.deposit, who, Plus(who, b.Reserved(who), value))
      else b.reserved
    case Unreserve(who, value) => Put(b.reserved, b.deposit, who, SaturatingSub(b.Reserved(who), value))
    case SlashReserved(who, value) => Put(b.reserved, b.deposit, who, SaturatingSub(b.Reserved(who), value))
    case RepatriateReserved(who, beneficiary, value) =>
      if b.Exists(beneficiary) then Put(b.reserved, b.deposit, who, SaturatingSub(b.Reserved(who), value))
      else b.reserved
    case _ => b.reserved
  }

  /** The shard after an operation. */
  ghost function Applied(b: Sheet, op: Operation): Sheet
    requires b.Valid()
  {
    b.(free := FreeAfter(b, op), reserved := ReservedAfter(b, op), issuance := EffectOf(b, op).Issuance(b.issuance))
  }

  // ---- What an operation does to the sum of all funds ----

  lemma FreePut(b: Sheet, who: Account, amount: Amount)
    requires b.Valid()
    ensures Worth(Put(b.free, b.deposit, who, amount)) == Worth(b.free) - b.Free(who) + amount - Dust(b.deposit, amount)
    ensures b.(free := Put(b.free, b.deposit, who, amount)).Valid()
  {
    PutSum(b.free, b.deposit, who, amount);
    PutStored(b.free, b.deposit, who, amount);
  }

  lemma ReservedPut(b: Sheet, who: Account, amount: Amount)
    requires b.Valid()
    ensures Worth(Put(b.reserved, b.deposit, who, amount)) ==
            Worth(b.reserved) - b.Reserved(who) + amount - Dust(b.deposit, amount)
    ensures b.(reserved := Put(b.reserved, b.deposit, who, amount)).Valid()
  {
    PutSum(b.reserved, b.deposit, who, amount);
    PutStored(b.reserved, b.deposit, who, amount);
  }

  /** An operation on a valid sheet: the funds move by what is issued, less what is burnt and lost. */
  ghost predicate Moves(b: Sheet, op: Operation)
    requires b.Valid()
  {
    var e := EffectOf(b, op);
    && Worth(FreeAfter(b, op)) + Worth(ReservedAfter(b, op)) == b.Held() + e.issued - e.burnt - e.wrapped
    && b.(free := FreeAfter(b, op), reserved := ReservedAfter(b, op)).Valid()
  }

  lemma SlashMoves(b: Sheet, who: Account, value: Amount)
    requires b.Valid()
    ensures Moves(b, Operation.Slash(who, value))
  {
    FreePut(b, who, SaturatingSub(b.Free(who), value));
    if b.Lacking(who, value) != 0 {
      ReservedPut(b, who, SaturatingSub(b.Reserved(who), b.Lacking(who, value)));
    }
  }

  lemma DepositMoves(b: Sheet, who: Account, value: Amount)
    requires b.Valid()
    ensures Moves(b, Operation.DepositIntoExisting(who, value)) && Moves(b, Operation.DepositCreating(who, value))
  {
    PlusMeans(who, b.Free(who), value);
    StoredGet(b.free, b.deposit, who);
    FreePut(b, who, Plus(who, b.Free(who), value));
  }

  lemma ReserveMoves(b: Sheet, who: Account, value: Amount, allowed: bool)
    requires b.Valid()
    ensures Moves(b, Operation.Reserve(who, value, allowed))
  {
    if value <= b.Free(who) && allowed {
      assert SaturatingSub(b.Free(who), value) == b.Free(who) - value;
      FreePut(b, who, SaturatingSub(b.Free(who), value));
      ReservedPut(b, who, Plus(who, b.Reserved(who), value));
    } else {
      NothingMeans(0);
    }
  }

  lemma TakenAndLeft(x: nat, y: nat)
    ensures SaturatingSub(x, y) + Min(x, y) == x
  {
  }

  lemma UnreserveMoves(b: Sheet, who: Account, value: Amount)
    requires b.Valid()
    ensures Moves(b, Operation.Unreserve(who, value))
  {
    TakenAndLeft(b.Reserved(who), value);
    FreePut(b, who, Plus(who, b.Free(who), Min(b.Reserved(who), value)));
    ReservedPut(b, who, SaturatingSub(b.Reserved(who), value));
  }

  lemma RepatriateMoves(b: Sheet, who: Account, to: Account, value: Amount)
    requires b.Valid()
    ensures Moves(b, Operation.RepatriateReserved(who, to, value))
  {
    TakenAndLeft(b.Reserved(who), value);
    FreePut(b, to, Plus(to, b.Free(to), Min(b.Reserved(who), value)));
    ReservedPut(b, who, SaturatingSub(b.Reserved(who), value));
  }

  lemma WithdrawMoves(b: Sheet, who: Account, value: Amount, allowed: bool, keepAlive: bool)
    requires b.Valid()
    ensures Moves(b, Operation.Withdraw(who, value, allowed, keepAlive))
  {
    FreePut(b, who, SaturatingSub(b.Free(who), value));
  }

  lemma PaymentMoves(b: Sheet, who: Account, length: nat, allowed: bool)
    requires b.Valid()
    ensures Moves(b, Operation.MakePayment(who, length, allowed))
  {
    FreePut(b, who, SaturatingSub(b.Free(who), b.Fee(who, length)));
  }

  lemma SettingMoves(b: Sheet, who: Account, value: Amount)
    requires b.Valid()
    ensures Moves(b, Operation.MakeFreeBalanceBe(who, value))
  {
    FreePut(b, who, value);
  }

  lemma SlashReservedMoves(b: Sheet, who: Account, value: Amount)
    requires b.Valid()
    ensures Moves(b, Operation.SlashReserved(who, value))
  {
    TakenAndLeft(b.Reserved(who), value);
    ReservedPut(b, who, SaturatingSub(b.Reserved(who), value));
  }

  lemma OperationMoves(b: Sheet, op: Operation)
    requires b.Valid()
    ensures Moves(b, op)
  {
    match op
    case Withdraw(who, value, allowed, keepAlive) => WithdrawMoves(b, who, value, allowed, keepAlive);
    case Slash(who, value) => SlashMoves(b, who, value);
    case DepositIntoExisting(who, value) => DepositMoves(b, who, value);
    case DepositCreating(who, value) => DepositMoves(b, who, value);
    case MakeFreeBalanceBe(who, value) => SettingMoves(b, who, value);
    case Reserve(who, value, allowed) => ReserveMoves(b, who, value, allowed);
    case Unreserve(who, value) => UnreserveMoves(b, who, value);
    case SlashReserved(who, value) => SlashReservedMoves(b, who, value);
    case RepatriateReserved(who, beneficiary, value) => RepatriateMoves(b, who, beneficiary, value);
    case MakePayment(who, length, allowed) => PaymentMoves(b, who, length, allowed);
  }

  /** By how much what a shard has issued exceeds what its accounts have. */
  ghost function Surplus(b: Sheet): int {
    b.issuance - b.Held()
  }

  /** An operation moves the surplus by the drift of its effect, and keeps the shard valid. */
  lemma AppliedSurplus(b: Sheet, op: Operation)
    requires b.Valid()
    ensures Applied(b, op).Valid() && Surplus(Applied(b, op)) == Surplus(b) + EffectOf(b, op).Drift(b.issuance)
  {
    OperationMoves(b, op);
    IssuanceMoves(EffectOf(b, op), b.issuance);
  }

  /** So does a transfer, with what it sends away. */
  lemma TransferredSurplus(b: Sheet, from: Account, dest: Account, value: Amount, elsewhere: bool, allowed: bool)
    requires b.Valid()
    ensures var b' := b.Transferred(from, dest, value, elsewhere, allowed);
      var e := b.TransferEffect(from, dest, value, elsewhere, allowed);
      var away := if elsewhere && b.TransferOk(from, dest, value, elsewhere, allowed) then value else 0;
      b'.Valid() && Surplus(b') == Surplus(b) + e.Drift(b.issuance) + away
  {
    IssuanceMoves(b.TransferEffect(from, dest, value, elsewhere, allowed), b.issuance);
    NothingMeans(b.issuance);
    if b.TransferOk(from, dest, value, elsewhere, allowed) && (elsewhere || from != dest) {
      var left := b.Debited(from, value);
      FreePut(b, from, left);
      if !elsewhere {
        PutElsewhere(b.free, b.deposit, from, left, dest);
        FreePut(b.(free := Put(b.free, b.deposit, from, left)), dest, b.Credited(dest, value));
      }
    }
  }

  /** And a relay, with what it brings. */
  lemma RelayedSurplus(b: Sheet, to: Account, amount: Amount)
    requires b.Valid()
    ensures var b', e := b.Relayed(to, amount), b.RelayEffect(to, amount);
      var brought := if b.Credited(to, amount) <= MAX_BALANCE then amount else 0;
      b'.Valid() && Surplus(b') == Surplus(b) + e.Drift(b.issuance) - brought
  {
    IssuanceMoves(b.RelayEffect(to, amount), b.issuance);
    NothingMeans(b.issuance);
    if b.Credited(to, amount) <= MAX_BALANCE {
      FreePut(b, to, b.Credited(to, amount));
    }
  }

  // ---- One operation, in a shard ----

  /** The shard has gone through an operation. */
  twostate predicate Done(shard: Balances, op: Operation)
    requires old(shard.Valid())
    reads shard
  {
    && shard.free == FreeAfter(old(shard.Now()), op) && shard.reserved == ReservedAfter(old(shard.Now()), op)
    && shard.Settled(EffectOf(old(shard.Now()), op))
  }

  // Operations that leave an imbalance, which is dropped.

  method ApplyWithdraw(shard: Balances, who: Account, value: Amount, allowed: bool, keepAlive: bool)
    requires shard.Valid()
    modifies shard`free, shard`reserved, shard`issuance, shard`open
    ensures shard.Valid() && shard.open == old(shard.open)
    ensures Done(shard, Operation.Withdraw(who, value, allowed, keepAlive))
  {
    ghost var before, gap := shard.issuance, shard.Gap();
    ghost var whole := EffectOf(shard.Now(), Operation.Withdraw(who, value, allowed, keepAlive));
    ghost var dust, lost := Dust(shard.deposit, SaturatingSub(shard.Free(who), value)), 0;
    NothingMeans(before);
    var r := shard.Withdraw(who, value, allowed, keepAlive);
    if r.Ok? {
      shard.DropAfter(r.value, dust, lost, whole, before, gap);
    }
  }

  method ApplySlash(shard: Balances, who: Account, value: Amount)
    requires shard.Valid()
    modifies shard`free, shard`reserved, shard`issuance, shard`open
    ensures shard.Valid() && shard.open == old(shard.open)
    ensures Done(shard, Operation.Slash(who, value))
  {
    ghost var before, gap := shard.issuance, shard.Gap();
    ghost var whole := EffectOf(shard.Now(), Operation.Slash(who, value));
    ghost var dust, lost := shard.Now().SlashDust(who, value), 0;
    var x, _ := shard.Slash(who, value);
    shard.DropAfter(x, dust, lost, whole, before, gap);
  }

  method ApplyDepositIntoExisting(shard: Balances, who: Account, value: Amount)
    requires shard.Valid()
    modifies shard`free, shard`reserved, shard`issuance, shard`open
    ensures shard.Valid() && shard.open == old(shard.open)
    ensures Done(shard, Operation.DepositIntoExisting(who, value))
  {
    ghost var before, gap := shard.issuance, shard.Gap();
    ghost var whole := EffectOf(shard.Now(), Operation.DepositIntoExisting(who, value));
    ghost var dust := Dust(shard.deposit, Plus(who, shard.Free(who), value));
    ghost var lost := Wrapped(who, shard.Free(who), value);
    NothingMeans(before);
    var r := shard.DepositIntoExisting(who, value);
    if r.Ok? {
      shard.DropAfter(r.value, dust, lost, whole, before, gap);
    }
  }

  method ApplyDepositCreating(shard: Balances, who: Account, value: Amount)
    requires shard.Valid()
    modifies shard`free, shard`reserved, shard`issuance, shard`open
    ensures shard.Valid() && shard.open == old(shard.open)
    ensures Done(shard, Operation.DepositCreating(who, value))
  {
    ghost var before, gap := shard.issuance, shard.Gap();
    ghost var whole := EffectOf(shard.Now(), Operation.DepositCreating(who, value));
    ghost var dust, lost := shard.Now().DepositCreatingBurns(who, value), 0;
    var x := shard.DepositCreating(who, value);
    shard.DropAfter(x, dust, lost, whole, before, gap);
  }

  lemma SetWhole(b: Sheet, who: Account, value: Amount)
    requires b.Valid()
    ensures EffectOf(b, Operation.MakeFreeBalanceBe(who, value))
            .Completes(b.SettingBurns(who, value), 0, MadeBy(b.deposit, b.Free(who), value))
  {
    NothingMeans(0);
  }

  method ApplyMakeFreeBalanceBe(shard: Balances, who: Account, value: Amount)
    requires shard.Valid()
    modifies shard`free, shard`reserved, shard`issuance, shard`open
    ensures shard.Valid() && shard.open == old(shard.open)
    ensures Done(shard, Operation.MakeFreeBalanceBe(who, value))
  {
    ghost var before, gap := shard.issuance, shard.Gap();
    ghost var whole := EffectOf(shard.Now(), Operation.MakeFreeBalanceBe(who, value));
    ghost var dust, lost := shard.Now().SettingBurns(who, value), 0;
    SetWhole(shard.Now(), who, value);
    var x := shard.MakeFreeBalanceBe(who, value);
    shard.DropAfter(x, dust, lost, whole, before, gap);
  }

  method ApplySlashReserved(shard: Balances, who: Account, value: Amount)
    requires shard.Valid()
    modifies shard`free, shard`reserved, shard`issuance, shard`open
    ensures shard.Valid() && shard.open == old(shard.open)
    ensures Done(shard, Operation.SlashReserved(who, value))
  {
    ghost var before, gap := shard.issuance, shard.Gap();
    ghost var whole := EffectOf(shard.Now(), Operation.SlashReserved(who, value));
    ghost var dust, lost := Dust(shard.deposit, SaturatingSub(shard.Reserved(who), value)), 0;
    var x, _ := shard.SlashReserved(who, value);
    shard.DropAfter(x, dust, lost, whole, before, gap);
  }

  /** Runs an operation and drops the imbalance it leaves: the shard is then as the operation's value says, and its
      books have moved by the drift of its effect. */
  method Apply(shard: Balances, op: Operation)
    requires shard.Valid()
    modifies shard`free, shard`reserved, shard`issuance, shard`open
    ensures shard.Valid() && shard.open == old(shard.open) && shard.Now() == Applied(old(shard.Now()), op)
    ensures shard.Settled(EffectOf(old(shard.Now()), op))
  {
    NothingMeans(shard.issuance);
    match op {
      case Withdraw(who, value, allowed, keepAlive) =>
        ApplyWithdraw(shard, who, value, allowed, keepAlive);
      case Slash(who, value) =>
        ApplySlash(shard, who, value);
      case DepositIntoExisting(who, value) =>
        ApplyDepositIntoExisting(shard, who, value);
      case DepositCreating(who, value) =>
        ApplyDepositCreating(shard, who, value);
      case MakeFreeBalanceBe(who, value) =>
        ApplyMakeFreeBalanceBe(shard, who, value);
      case SlashReserved(who, value) =>
        ApplySlashReserved(shard, who, value);
      case Reserve(who, value, allowed) =>
        var _ := shard.Reserve(who, value, allowed);
      case Unreserve(who, value) =>
        var _ := shard.Unreserve(who, value);
      case RepatriateReserved(who, beneficiary, value) =>
        var _ := shard.RepatriateReserved(who, beneficiary, value);
      case MakePayment(who, length, allowed) =>
        var _ := shard.MakePayment(who, length, allowed);
    }
  }

  // ---- Effects are in range ----

  /** The accounts an operation is about. */
  ghost function Parties(op: Operation): (Account, Account) {
    match op
    case RepatriateReserved(who, beneficiary, _) => (who, beneficiary)
    case _ => (op.who, op.who)
  }

  /** An effect in range: its losses cannot make up for each other. */
  ghost predicate InRange(e: Effect) {
    e.issued <= MAX_BALANCE && (e.wrapped == 0 || e.wrapped > MAX_BALANCE)
  }

  /** The unchecked sums of an operation. */
  lemma SumsMean(b: Sheet, op: Operation)
    requires b.Valid()
    ensures EffectOf(b, op).wrapped in {0, MAX_BALANCE + 1}
    ensures var (from, to) := Parties(op); var e := EffectOf(b, op);
      b.Free(to) + b.Reserved(from) + e.issued <= MAX_BALANCE ==> e.wrapped == 0
    ensures op.DepositCreating? ==> b.DepositCreatingBurns(op.who, op.value) <= b.Free(op.who)
  {
    match op
    case DepositIntoExisting(who, value) => PlusMeans(who, b.Free(who), value);
    case DepositCreating(who, value) => PlusMeans(who, b.Free(who), value);
    case Reserve(who, value, _) => PlusMeans(who, b.Reserved(who), value);
    case Unreserve(who, value) => PlusMeans(who, b.Free(who), Min(b.Reserved(who), value));
    case RepatriateReserved(who, to, value) => PlusMeans(to, b.Free(to), Min(b.Reserved(who), value));
    case _ =>
  }

  lemma EffectInRange(b: Sheet, op: Operation)
    requires b.Valid()
    ensures InRange(EffectOf(b, op))
  {
    SumsMean(b, op);
  }

  // ---- When a shard burns within its means ----

  lemma GetSum(m: Funds, a: Account, b: Account)
    ensures Get(m, a) <= Worth(m) && (a != b ==> Get(m, a) + Get(m, b) <= Worth(m))
  {
    WorthIsSum(m);
    if a in m {
      SumWithout(m, a);
      if b in m && a != b {
        SumWithout(m - {a}, b);
      }
    } else if b in m {
      SumWithout(m, b);
    }
  }

  lemma SlashBurnsOwn(b: Sheet, who: Account, value: Amount)
    requires b.Valid()
    ensures b.SlashDust(who, value) + Min(value, b.Free(who) + b.Reserved(who)) <= b.Free(who) + b.Reserved(who)
  {
  }

  lemma ReleaseBurnsOwn(b: Sheet, from: Account, to: Account, value: Amount)
    requires b.Valid()
    ensures b.ReleaseEffect(from, to, value).burnt <= b.Free(to) + b.Reserved(from)
  {
    TakenAndLeft(b.Reserved(from), value);
    DustWithin(b.deposit, Plus(to, b.Free(to), Min(b.Reserved(from), value)));
    DustWithin(b.deposit, SaturatingSub(b.Reserved(from), value));
  }

  lemma DustWithin(deposit: nat, amount: nat)
    ensures Dust(deposit, amount) <= amount
  {
  }

  lemma DepositBurnsOwn(b: Sheet, who: Account, value: Amount)
    requires b.Valid()
    ensures EffectOf(b, Operation.DepositIntoExisting(who, value)).burnt <= b.Free(who) + b.Reserved(who)
  {
    PlusMeans(who, b.Free(who), value);
    PlusMeans(who, b.Free(who), b.Reserved(who));
    StoredGet(b.free, b.deposit, who);
    StoredGet(b.reserved, b.deposit, who);
  }

  /** An operation burns at most what its accounts hold. */
  lemma BurnsOwn(b: Sheet, op: Operation)
    requires b.Valid()
    ensures var (from, to) := Parties(op); EffectOf(b, op).burnt <= b.Free(to) + b.Reserved(from)
  {
    match op
    case Slash(who, value) => SlashBurnsOwn(b, who, value);
    case Reserve(who, value, _) => PlusMeans(who, b.Reserved(who), value);
    case DepositIntoExisting(who, value) => DepositBurnsOwn(b, who, value);
    case DepositCreating(who, value) => SumsMean(b, op);
    case Unreserve(who, value) => ReleaseBurnsOwn(b, who, who, value);
    case RepatriateReserved(who, to, value) => ReleaseBurnsOwn(b, who, to, value);
    case MakeFreeBalanceBe(who, _) => StoredGet(b.free, b.deposit, who);
    case _ =>
  }

  /** A shard that holds no more than it has issued burns within its means: every operation fits that issues within the
      maximum. */
  lemma SolventFits(b: Sheet, op: Operation)
    requires b.Valid() && b.Held() <= b.issuance && b.issuance + EffectOf(b, op).issued <= MAX_BALANCE
    ensures EffectOf(b, op).Fits(b.issuance)
  {
    BurnsOwn(b, op);
    SumsMean(b, op);
    var (from, to) := Parties(op);
    GetSum(b.free, to, to);
    GetSum(b.reserved, from, from);
  }

  lemma SolventTransferFits(b: Sheet, from: Account, dest: Account, value: Amount, elsewhere: bool, allowed: bool)
    requires b.Valid() && b.Held() <= b.issuance
    ensures b.TransferEffect(from, dest, value, elsewhere, allowed).Fits(b.issuance)
  {
    GetSum(b.free, from, dest);
  }

  /** A shard's issuance is what it holds plus what it has sent away, less what it has received. */
  ghost predicate Even(shard: Balances) reads shard {
    shard.Valid() && shard.open == 0 && shard.Gap() == 0
  }

  /** A shard that has not received more than it has sent keeps its books even: nothing it burns can saturate, and
      what it issues only where it exceeds the maximum. */
  lemma NetSenderFits(shard: Balances, op: Operation)
    requires Even(shard) && shard.received <= shard.sent
    requires shard.issuance + EffectOf(shard.Now(), op).issued <= MAX_BALANCE
    ensures EffectOf(shard.Now(), op).Fits(shard.issuance)
  {
    SolventFits(shard.Now(), op);
  }

  lemma NetSenderTransferFits(shard: Balances, from: Account, dest: Account, value: Amount, elsewhere: bool,
                              allowed: bool)
    requires Even(shard) && shard.received <= shard.sent
    ensures shard.Now().TransferEffect(from, dest, value, elsewhere, allowed).Fits(shard.issuance)
  {
    SolventTransferFits(shard.Now(), from, dest, value, elsewhere, allowed);
  }

  // ---- All shards, as values ----

  /** All shards at one moment, and the relays in flight between them. */
  datatype View = View(shards: seq<Sheet>, inFlight: seq<Relay>) {
    ghost predicate Valid() {
      forall i | 0 <= i < |shards| :: shards[i].Valid()
    }
  }

  ghost function Issued(shards: seq<Sheet>): nat {
    if shards == [] then 0 else Issued(shards[..|shards| - 1]) + shards[|shards| - 1].issuance
  }

  ghost function HeldIn(shards: seq<Sheet>): nat {
    if shards == [] then 0 else HeldIn(shards[..|shards| - 1]) + shards[|shards| - 1].Held()
  }

  /** By how much the issuance of all shards exceeds what accounts hold and what is in flight between them. */
  ghost function GapOf(v: View): int {
    Issued(v.shards) - HeldIn(v.shards) - InFlight(v.inFlight)
  }

  lemma {:induction false} ShardChanged(shards: seq<Sheet>, i: nat, b: Sheet)
    requires i < |shards|
    ensures Issued(shards[i := b]) - HeldIn(shards[i := b]) ==
            Issued(shards) - HeldIn(shards) - Surplus(shards[i]) + Surplus(b)
  {
    var last := |shards| - 1;
    if i == last {
      assert shards[i := b][..last] == shards[..last];
    } else {
      assert shards[i := b][..last] == shards[..last][i := b];
      ShardChanged(shards[..last], i, b);
    }
  }

  /** There is such a shard or relay. `place` is the shard that an account belongs to. */
  ghost predicate CanDo(v: View, place: Account -> int, step: Step) {
    match step
    case Pay(i, _, _, _, _) => i < |v.shards|
    case Arrive(k) => k < |v.inFlight| && 0 <= place(v.inFlight[k].to) < |v.shards|
    case Local(i, _) => i < |v.shards|
  }

  /** The shard a step happens in. */
  ghost function Where(v: View, place: Account -> int, step: Step): (i: nat)
    requires CanDo(v, place, step)
    ensures i < |v.shards|
  {
    match step case Pay(i, _, _, _, _) => i case Arrive(k) => place(v.inFlight[k].to) case Local(i, _) => i
  }

  /** What a step burns, issues and loses there. */
  ghost function StepEffect(v: View, place: Account -> int, step: Step): Effect
    requires v.Valid() && CanDo(v, place, step)
  {
    var b := v.shards[Where(v, place, step)];
    match step
    case Pay(i, from, dest, amount, allowed) => b.TransferEffect(from, dest, amount, place(dest) != i, allowed)
    case Arrive(k) => b.RelayEffect(v.inFlight[k].to, v.inFlight[k].amount)
    case Local(_, op) => EffectOf(b, op)
  }

  ghost function SheetAfter(v: View, place: Account -> int, step: Step): Sheet
    requires v.Valid() && CanDo(v, place, step)
  {
    var b := v.shards[Where(v, place, step)];
    match step
    case Pay(i, from, dest, amount, allowed) => b.Transferred(from, dest, amount, place(dest) != i, allowed)
    case Arrive(k) => b.Relayed(v.inFlight[k].to, v.inFlight[k].amount)
    case Local(_, op) => Applied(b, op)
  }

  ghost function FlightAfter(v: View, place: Account -> int, step: Step): seq<Relay>
    requires v.Valid() && CanDo(v, place, step)
  {
    var b := v.shards[Where(v, place, step)];
    match step
    case Pay(i, from, dest, amount, allowed) =>
      if place(dest) != i && b.TransferOk(from, dest, amount, true, allowed)
      then v.inFlight + [Relay(from, dest, amount)] else v.inFlight
    case Arrive(k) =>
      if b.Credited(v.inFlight[k].to, v.inFlight[k].amount) <= MAX_BALANCE then v.inFlight[..k] + v.inFlight[k + 1..]
      else v.inFlight
    case Local(_, _) => v.inFlight
  }

  /** The world after a step; a step that cannot be done changes nothing. */
  ghost function Next(v: View, place: Account -> int, step: Step): View
    requires v.Valid()
  {
    if !CanDo(v, place, step) then v
    else View(v.shards[Where(v, place, step) := SheetAfter(v, place, step)], FlightAfter(v, place, step))
  }

  /** A step burns at most the issuance of its shard, issues within the maximum and wraps no sum. */
  ghost predicate StepFits(v: View, place: Account -> int, step: Step)
    requires v.Valid()
  {
    CanDo(v, place, step) ==> StepEffect(v, place, step).Fits(v.shards[Where(v, place, step)].issuance)
  }

  ghost function StepDrift(v: View, place: Account -> int, step: Step): int
    requires v.Valid()
  {
    if CanDo(v, place, step) then StepEffect(v, place, step).Drift(v.shards[Where(v, place, step)].issuance) else 0
  }

  /** What a step does to the surplus of its shard is drift and what it puts in flight. */
  lemma StepSurplus(v: View, place: Account -> int, step: Step)
    requires v.Valid() && CanDo(v, place, step)
    ensures SheetAfter(v, place, step).Valid()
    ensures Surplus(SheetAfter(v, place, step)) - InFlight(FlightAfter(v, place, step)) ==
            Surplus(v.shards[Where(v, place, step)]) - InFlight(v.inFlight) + StepDrift(v, place, step)
  {
    var b := v.shards[Where(v, place, step)];
    match step
    case Pay(i, from, dest, amount, allowed) =>
      TransferredSurplus(b, from, dest, amount, place(dest) != i, allowed);
      assert (v.inFlight + [Relay(from, dest, amount)])[..|v.inFlight|] == v.inFlight;
    case Arrive(k) =>
      RelayedSurplus(b, v.inFlight[k].to, v.inFlight[k].amount);
      InFlightWithout(v.inFlight, k);
    case Local(_, op) =>
      AppliedSurplus(b, op);
  }

  /** Every step moves the gap by exactly the drift of its effect. */
  lemma StepMovesGap(v: View, place: Account -> int, step: Step)
    requires v.Valid()
    ensures Next(v, place, step).Valid() && GapOf(Next(v, place, step)) == GapOf(v) + StepDrift(v, place, step)
  {
    if CanDo(v, place, step) {
      StepSurplus(v, place, step);
      ShardChanged(v.shards, Where(v, place, step), SheetAfter(v, place, step));
    }
  }

  lemma StepInRange(v: View, place: Account -> int, step: Step)
    requires v.Valid()
    ensures StepDrift(v, place, step) == 0 <==> StepFits(v, place, step)
  {
    if CanDo(v, place, step) {
      var e, b := StepEffect(v, place, step), v.shards[Where(v, place, step)];
      if step.Local? {
        EffectInRange(b, step.op);
      } else {
        NothingMeans(0);
      }
      NoDrift(e, b.issuance);
    }
  }

  /** A shard has the funds of another but for one account, whose free ones are as told. */
  ghost predicate OnlyFree(b: Sheet, b': Sheet, who: Account, amount: nat)
    requires b.Valid() && b'.Valid()
  {
    && b'.reserved == b.reserved && b'.Free(who) == amount
    && forall other | other != who :: b'.Free(other) == b.Free(other)
  }

  lemma PutOnly(b: Sheet, b': Sheet, who: Account, amount: Amount)
    requires b.Valid() && b'.Valid() && b'.free == Put(b.free, b.deposit, who, amount) && b'.reserved == b.reserved
    ensures OnlyFree(b, b', who, Kept(b.deposit, amount))
  {
    PutGet(b.free, b.deposit, who, amount);
    forall other | other != who ensures b'.Free(other) == b.Free(other) {
      PutElsewhere(b.free, b.deposit, who, amount, other);
    }
  }

  /** The sender is debited the amount and the fee. */
  lemma Sent(v: View, place: Account -> int, i: nat, from: Account, dest: Account, amount: Amount)
    requires v.Valid() && i < |v.shards| && place(dest) != i
    requires v.shards[i].TransferOk(from, dest, amount, true, true)
    ensures var v', b := Next(v, place, Pay(i, from, dest, amount, true)), v.shards[i];
      && v'.Valid() && |v'.shards| == |v.shards| && v'.inFlight == v.inFlight + [Relay(from, dest, amount)]
      && OnlyFree(b, v'.shards[i], from, Kept(b.deposit, b.Free(from) - amount - b.transferFee))
      && forall k | 0 <= k < |v.shards| && k != i :: v'.shards[k] == v.shards[k]
  {
    var pay := Pay(i, from, dest, amount, true);
    StepMovesGap(v, place, pay);
    PutOnly(v.shards[i], Next(v, place, pay).shards[i], from, v.shards[i].Debited(from, amount));
  }

  /** The receiver of a relay is credited its amount. */
  lemma Received(v: View, place: Account -> int, k: nat)
    requires v.Valid() && k < |v.inFlight| && 0 <= place(v.inFlight[k].to) < |v.shards|
    requires v.shards[place(v.inFlight[k].to)].Free(v.inFlight[k].to) + v.inFlight[k].amount <= MAX_BALANCE
    ensures var v', relay := Next(v, place, Arrive(k)), v.inFlight[k];
      var j := place(relay.to);
      && v'.Valid() && |v'.shards| == |v.shards| && v'.inFlight == v.inFlight[..k] + v.inFlight[k + 1..]
      && OnlyFree(v.shards[j], v'.shards[j], relay.to,
                  Kept(v.shards[j].deposit, v.shards[j].Free(relay.to) + relay.amount))
      && forall i | 0 <= i < |v.shards| && i != j :: v'.shards[i] == v.shards[i]
  {
    var relay, j := v.inFlight[k], place(v.inFlight[k].to);
    StepMovesGap(v, place, Arrive(k));
    PutOnly(v.shards[j], Next(v, place, Arrive(k)).shards[j], relay.to, v.shards[j].Credited(relay.to, relay.amount));
  }

  /** A transfer to another shard, once it has arrived: the sender is debited the amount and the fee, the receiver is
      credited the amount, both in their own shards, and all other funds are as they were. */
  lemma TransferArrives(v: View, place: Account -> int, i: nat, from: Account, dest: Account, amount: Amount)
    requires v.Valid() && i < |v.shards| && 0 <= place(dest) < |v.shards| && place(dest) != i
    requires v.shards[i].TransferOk(from, dest, amount, true, true)
    requires v.shards[place(dest)].Free(dest) + amount <= MAX_BALANCE
    ensures var sent := Next(v, place, Pay(i, from, dest, amount, true));
      && sent.Valid()
      && var v', j := Next(sent, place, Arrive(|v.inFlight|)), place(dest);
      && v'.Valid() && |v'.shards| == |v.shards| && v'.inFlight == v.inFlight
      && OnlyFree(v.shards[i], v'.shards[i], from,
                  Kept(v.shards[i].deposit, v.shards[i].Free(from) - amount - v.shards[i].transferFee))
      && OnlyFree(v.shards[j], v'.shards[j], dest, Kept(v.shards[j].deposit, v.shards[j].Free(dest) + amount))
      && forall k | 0 <= k < |v.shards| && k != i && k != j :: v'.shards[k] == v.shards[k]
  {
    Sent(v, place, i, from, dest, amount);
    var sent := Next(v, place, Pay(i, from, dest, amount, true));
    Received(sent, place, |v.inFlight|);
    assert sent.inFlight[..|v.inFlight|] + sent.inFlight[|v.inFlight| + 1..] == v.inFlight;
  }

  // ---- Runs ----

  ghost function After(v: View, place: Account -> int, steps: seq<Step>): (r: View)
    requires v.Valid()
    ensures r.Valid()
  {
    if steps == [] then v
    else
      var before, step := After(v, place, steps[..|steps| - 1]), steps[|steps| - 1];
      StepMovesGap(before, place, step);
      Next(before, place, step)
  }

  /** The drift of a whole run. */
  ghost function RunDrift(v: View, place: Account -> int, steps: seq<Step>): int
    requires v.Valid()
  {
    if steps == [] then 0
    else
      var init := steps[..|steps| - 1];
      RunDrift(v, place, init) + StepDrift(After(v, place, init), place, steps[|steps| - 1])
  }

  /** Over any run the gap moves by exactly the drifts of its steps. */
  lemma {:induction false} RunMovesGap(v: View, place: Account -> int, steps: seq<Step>)
    requires v.Valid()
    ensures GapOf(After(v, place, steps)) == GapOf(v) + RunDrift(v, place, steps)
  {
    if steps != [] {
      var init := steps[..|steps| - 1];
      RunMovesGap(v, place, init);
      StepMovesGap(After(v, place, init), place, steps[|steps| - 1]);
    }
  }

  /** The first `n` steps of a run all fit, each in the state it meets. */
  ghost predicate FitUpTo(v: View, place: Account -> int, steps: seq<Step>, n: nat)
    requires v.Valid() && n <= |steps|
  {
    forall k | 0 <= k < n :: StepFits(After(v, place, steps[..k]), place, steps[k])
  }

  /** The law, over every run from a state where it holds: it holds after every step up to the first that does not fit,
      and does not hold after that one. */
  lemma {:induction false} RunKeepsLaw(v: View, place: Account -> int, steps: seq<Step>, n: nat)
    requires v.Valid() && GapOf(v) == 0 && n <= |steps| && FitUpTo(v, place, steps, n)
    ensures GapOf(After(v, place, steps[..n])) == 0
    ensures n < |steps| ==>
              (GapOf(After(v, place, steps[..n + 1])) == 0 <==> StepFits(After(v, place, steps[..n]), place, steps[n]))
  {
    if n > 0 {
      RunKeepsLaw(v, place, steps, n - 1);
      assert StepFits(After(v, place, steps[..n - 1]), place, steps[n - 1]);
    }
    if n < |steps| {
      AfterNext(v, place, steps, n);
      StepKeepsLaw(After(v, place, steps[..n]), place, steps[n]);
    }
  }

  lemma AfterNext(v: View, place: Account -> int, steps: seq<Step>, n: nat)
    requires v.Valid() && n < |steps|
    ensures After(v, place, steps[..n + 1]) == Next(After(v, place, steps[..n]), place, steps[n])
  {
    assert steps[..n + 1][..n] == steps[..n];
  }

  lemma StepKeepsLaw(v: View, place: Account -> int, step: Step)
    requires v.Valid() && GapOf(v) == 0
    ensures GapOf(Next(v, place, step)) == 0 <==> StepFits(v, place, step)
  {
    StepMovesGap(v, place, step);
    StepInRange(v, place, step);
  }

  // ---- All shards ----

  class World {
    const shards: seq<Balances>
    const shardOf: Account -> int   // the shard that an account belongs to
    var inFlight: seq<Relay>

    /** Shards are different, and every account belongs to one. */
    ghost predicate Apart() {
      && (forall i, j | 0 <= i < j < |shards| :: shards[i] != shards[j])
      && (forall who :: 0 <= shardOf(who) < |shards|)
    }

    ghost predicate Valid() reads this, shards {
      Apart() && forall i | 0 <= i < |shards| :: ShardOk(i)
    }

    ghost predicate ShardOk(i: int)
      requires 0 <= i < |shards|
      reads shards[i]
    {
      shards[i].Valid() && shards[i].open == 0
    }

    ghost function Now(): (v: View)
      reads this, shards
      ensures Valid() ==> v.Valid()
    {
      assert Valid() ==> forall i | 0 <= i < |shards| :: ShardOk(i) && shards[i].Now().Valid();
      View(seq(|shards|, i requires 0 <= i < |shards| reads shards => shards[i].Now()), inFlight)
    }

    /** Genesis. */
    constructor (shards: seq<Balances>, shardOf: Account -> int)
      requires forall i, j | 0 <= i < j < |shards| :: shards[i] != shards[j]
      requires forall who :: 0 <= shardOf(who) < |shards|
      requires forall i | 0 <= i < |shards| :: Even(shards[i]) && shards[i].sent == shards[i].received
      ensures Valid() && GapOf(Now()) == 0 && this.shards == shards && this.shardOf == shardOf && inFlight == []
    {
      this.shards, this.shardOf, inFlight := shards, shardOf, [];
      new;
      NoSurplus(Now().shards);
    }

    /** Only one shard has changed. */
    twostate lemma OneChanged(new i: nat, new b: Sheet, new relays: seq<Relay>)
      requires i < |shards| && old(Valid()) && shards[i].Now() == b && inFlight == relays
      requires shards[i].Valid() && shards[i].open == 0
      requires forall j | 0 <= j < |shards| && j != i :: unchanged(shards[j])
      ensures Valid() && Now() == View(old(Now()).shards[i := b], relays)
    {
      forall j | 0 <= j < |shards| ensures ShardOk(j) {
        assert old(ShardOk(j));
      }
      assert Now().shards == old(Now()).shards[i := b];
    }

    /** A transfer in shard `i`: to an account of another shard it is debited here and sent on its way. */
    method Transfer(i: nat, from: Account, dest: Account, value: Amount, allowed: bool)
      returns (r: Result<Amount, Failure>)
      requires Valid() && i < |shards|
      modifies this, shards[i]
      ensures Valid() && Now() == Next(old(Now()), shardOf, Pay(i, from, dest, value, allowed))
      ensures r.Ok? <==> old(Now()).shards[i].TransferOk(from, dest, value, shardOf(dest) != i, allowed)
    {
      var elsewhere := shardOf(dest) != i;
      assert ShardOk(i);
      r := shards[i].Transfer(from, dest, value, elsewhere, allowed);
      if r.Ok? && elsewhere {
        inFlight := inFlight + [Relay(from, dest, value)];
      }
      OneChanged(i, shards[i].Now(), inFlight);
    }

    /** A relay arrives in the shard of its receiver, once. */
    method Deliver(k: nat) returns (r: Result<(), Failure>)
      requires Valid() && k < |inFlight|
      modifies this, shards[shardOf(inFlight[k].to)]
      ensures Valid() && Now() == Next(old(Now()), shardOf, Arrive(k))
      ensures inFlight == if r.Ok? then old(inFlight)[..k] + old(inFlight)[k + 1..] else old(inFlight)
    {
      var relay := inFlight[k];
      var i := shardOf(relay.to);
      assert ShardOk(i);
      r := shards[i].RelayTransfer(relay.to, relay.amount);
      if r.Ok? {
        inFlight := inFlight[..k] + inFlight[k + 1..];
      }
      OneChanged(i, shards[i].Now(), inFlight);
    }

    /** Anything else that happens within one shard. */
    method Operate(i: nat, op: Operation)
      requires Valid() && i < |shards|
      modifies shards[i]
      ensures Valid() && Now() == Next(old(Now()), shardOf, Step.Local(i, op))
    {
      assert ShardOk(i);
      Apply(shards[i], op);
      OneChanged(i, shards[i].Now(), inFlight);
    }

    /** Any step, if there is such a shard or relay. From a state where the law holds it is kept exactly when the step
        fits. */
    method Do(step: Step)
      requires Valid()
      modifies this, shards
      ensures Valid() && Now() == Next(old(Now()), shardOf, step)
      ensures GapOf(Now()) == GapOf(old(Now())) + StepDrift(old(Now()), shardOf, step)
      ensures GapOf(old(Now())) == 0 ==> (GapOf(Now()) == 0 <==> StepFits(old(Now()), shardOf, step))
    {
      StepMovesGap(Now(), shardOf, step);
      StepInRange(Now(), shardOf, step);
      match step {
        case Pay(i, from, dest, amount, allowed) =>
          if i < |shards| {
            var _ := Transfer(i, from, dest, amount, allowed);
          }
        case Arrive(k) =>
          if k < |inFlight| {
            var _ := Deliver(k);
          }
        case Local(i, op) =>
          if i < |shards| {
            Operate(i, op);
          }
      }
    }

    /** A whole run comes to what the values say, and with it the law: it holds at the end if all steps fit. */
    method Run(steps: seq<Step>)
      requires Valid() && GapOf(Now()) == 0
      modifies this, shards
      ensures Valid() && Now() == After(old(Now()), shardOf, steps)
      ensures GapOf(Now()) == RunDrift(old(Now()), shardOf, steps)
      ensures FitUpTo(old(Now()), shardOf, steps, |steps|) ==> GapOf(Now()) == 0
    {
      for n := 0 to |steps|
        invariant Valid() && Now() == After(old(Now()), shardOf, steps[..n])
      {
        assert steps[..n + 1][..n] == steps[..n];
        Do(steps[n]);
      }
      assert steps[..|steps|] == steps;
      RunMovesGap(old(Now()), shardOf, steps);
      if FitUpTo(old(Now()), shardOf, steps, |steps|) {
        RunKeepsLaw(old(Now()), shardOf, steps, |steps|);
      }
    }
  }

  lemma {:induction false} NoSurplus(shards: seq<Sheet>)
    requires forall i | 0 <= i < |shards| :: Surplus(shards[i]) == 0
    ensures Issued(shards) == HeldIn(shards)
  {
    if shards != [] {
      NoSurplus(shards[..|shards| - 1]);
    }
  }

  // ---- Where the law is lost ----

  /** A shard that has issued nothing and receives less than the existential deposit for a new account burns dust that
      its issuance does not have. */
  method DustCanClip(to: Account, deposit: nat, amount: Amount) returns (shard: Balances)
    requires 0 < amount < deposit
    ensures shard.Valid() && shard.open == 0 && shard.Gap() == amount
  {
    var none: Funds := map[];
    shard := new Balances(deposit, 0, 0, 0, none, 0);
    OnlyBurns(amount, 0, 0);
    var _ := shard.RelayTransfer(to, amount);
  }

  /** A shard that has issued nothing and has received funds from elsewhere. */
  method Funded(who: Account, deposit: nat, fee: Amount, amount: Amount) returns (shard: Balances)
    requires deposit <= amount
    ensures fresh(shard) && shard.Valid() && shard.deposit == deposit && shard.transferFee == fee
    ensures shard.open == 0 && shard.Gap() == 0 && shard.issuance == 0 && shard.free == map[who := amount]
  {
    var none: Funds := map[];
    shard := new Balances(deposit, fee, 0, 0, none, 0);
    PutMeans(none, deposit, who, amount);
    OnlyBurns(0, 0, 0);
    var _ := shard.RelayTransfer(who, amount);
  }

  /** So does a fee paid out of funds received, with no dust at all. */
  method FeeCanClip(from: Account, dest: Account, deposit: nat, fee: Amount, value: Amount, rest: Amount)
    returns (shard: Balances)
    requires from != dest && deposit <= value && deposit <= rest && 0 < fee && value + fee + rest <= MAX_BALANCE
    ensures shard.Valid() && shard.open == 0 && shard.Gap() == fee
    ensures shard.free == map[from := rest, dest := value]
  {
    shard := Funded(from, deposit, fee, value + fee + rest);
    PutMeans(shard.free, deposit, from, rest);
    assert shard.free[from := rest] == map[from := rest];
    PutMeans(map[from := rest], deposit, dest, value);
    OnlyBurns(fee, 0, 0);
    var _ := shard.Transfer(from, dest, value, false, true);
    assert shard.free == map[from := rest, dest := value];
  }
}
