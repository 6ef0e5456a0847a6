/** Vote values as a commutative monoid, and the plain definition of a block's weight:
    the combination of every vote cast at that block or above it. */
module Votes {
  import opened BlockTree

  /** The `AddAssign + Default` operations a vote-graph needs from its vote type. */
  datatype Monoid<!V> = Monoid(zero: V, add: (V, V) -> V)

  ghost predicate Commutes<V>(m: Monoid<V>, x: V, y: V) {
    m.add(x, y) == m.add(y, x)
  }

  ghost predicate Associates<V>(m: Monoid<V>, x: V, y: V, z: V) {
    m.add(m.add(x, y), z) == m.add(x, m.add(y, z))
  }

  ghost predicate Neutral<V>(m: Monoid<V>, x: V) {
    m.add(m.zero, x) == x
  }

  ghost predicate Lawful<V(!new)>(m: Monoid<V>) {
    && (forall x, y :: Commutes(m, x, y))
    && (forall x, y, z :: Associates(m, x, y, z))
    && (forall x :: Neutral(m, x))
  }

  ghost predicate Preserves<V>(m: Monoid<V>, cond: V -> bool, x: V, y: V) {
    cond(x) ==> cond(m.add(x, y))
  }

  /** Adding votes never makes a condition fail. */
  ghost predicate Monotone<V(!new)>(m: Monoid<V>, cond: V -> bool) {
    forall x, y :: Preserves(m, cond, x, y)
  }

  type Log<V> = seq<(Hash, V)>

  /** The votes of `log` cast on a block of `s`, combined in order. */
  ghost function SumIn<V>(m: Monoid<V>, log: Log<V>, s: set<Hash>): V {
    if log == [] then m.zero
    else
      var rest := SumIn(m, log[..|log| - 1], s);
      var (h, v) := log[|log| - 1];
      if h in s then m.add(rest, v) else rest
  }

  /** `b` and everything above it. */
  ghost function Up(c: Chain, b: Hash): set<Hash> {
    set x | x in c.number && AtOrBelow(c, b, x)
  }

  ghost function UpAll(c: Chain, bs: seq<Hash>): set<Hash> {
    set x | x in c.number && exists b | b in bs :: AtOrBelow(c, b, x)
  }

  ghost function Weight<V>(m: Monoid<V>, c: Chain, log: Log<V>, b: Hash): V {
    SumIn(m, log, Up(c, b))
  }

  lemma {:induction false} SumAgree<V>(m: Monoid<V>, log: Log<V>, s: set<Hash>, t: set<Hash>)
    requires forall i | 0 <= i < |log| :: log[i].0 in s <==> log[i].0 in t
    ensures SumIn(m, log, s) == SumIn(m, log, t)
  {
    if log != [] {
      assert log[|log| - 1].0 in s <==> log[|log| - 1].0 in t;
      SumAgree(m, log[..|log| - 1], s, t);
    }
  }

  lemma {:induction false} SumNone<V>(m: Monoid<V>, log: Log<V>, s: set<Hash>)
    requires forall i | 0 <= i < |log| :: log[i].0 !in s
    ensures SumIn(m, log, s) == m.zero
  {
    if log != [] {
      assert log[|log| - 1].0 !in s;
      SumNone(m, log[..|log| - 1], s);
    }
  }

  lemma Rearrange<V(!new)>(m: Monoid<V>, x: V, y: V, v: V)
    requires Lawful(m)
    ensures m.add(m.add(x, v), y) == m.add(m.add(x, y), v)
    ensures m.add(x, m.add(y, v)) == m.add(m.add(x, y), v)
    ensures m.add(x, m.zero) == x
  {
    assert Associates(m, x, v, y) && Associates(m, x, y, v) && Commutes(m, v, y);
    assert Commutes(m, m.zero, x) && Neutral(m, x);
  }

  lemma {:induction false} SumDisjoint<V(!new)>(m: Monoid<V>, log: Log<V>, s: set<Hash>, t: set<Hash>)
    requires Lawful(m)
    requires forall i | 0 <= i < |log| :: !(log[i].0 in s && log[i].0 in t)
    ensures SumIn(m, log, s + t) == m.add(SumIn(m, log, s), SumIn(m, log, t))
  {
    if log != [] {
      var init := log[..|log| - 1];
      var (h, v) := log[|log| - 1];
      assert !(h in s && h in t);
      SumDisjoint(m, init, s, t);
      Rearrange(m, SumIn(m, init, s), SumIn(m, init, t), v);
    } else {
      Rearrange(m, m.zero, m.zero, m.zero);
    }
  }

  lemma SumMonotone<V(!new)>(m: Monoid<V>, log: Log<V>, s: set<Hash>, t: set<Hash>, cond: V -> bool)
    requires Lawful(m) && Monotone(m, cond)
    requires forall i | 0 <= i < |log| :: log[i].0 in s ==> log[i].0 in t
    requires cond(SumIn(m, log, s))
    ensures cond(SumIn(m, log, t))
  {
    SumDisjoint(m, log, s, t - s);
    SumAgree(m, log, s + (t - s), t);
    assert Preserves(m, cond, SumIn(m, log, s), SumIn(m, log, t - s));
  }

  lemma SumAppend<V>(m: Monoid<V>, log: Log<V>, h: Hash, v: V, s: set<Hash>)
    ensures SumIn(m, log + [(h, v)], s)
         == if h in s then m.add(SumIn(m, log, s), v) else SumIn(m, log, s)
  {
    assert (log + [(h, v)])[..|log|] == log;
  }

  /** A condition that holds of a block holds of every block below it. */
  lemma WeightMonotone<V(!new)>(m: Monoid<V>, c: Chain, log: Log<V>, x: Hash, y: Hash, cond: V -> bool)
    requires Lawful(m) && Monotone(m, cond) && AtOrBelow(c, x, y)
    requires cond(Weight(m, c, log, y))
    ensures cond(Weight(m, c, log, x))
  {
    forall i | 0 <= i < |log| ensures log[i].0 in Up(c, y) ==> log[i].0 in Up(c, x) {
      if log[i].0 in Up(c, y) {
        BelowTrans(c, x, y, log[i].0);
      }
    }
    SumMonotone(m, log, Up(c, y), Up(c, x), cond);
  }

  /** Adding one more incomparable block to a collection adds exactly its weight. */
  lemma UpAllExtend<V(!new)>(m: Monoid<V>, c: Chain, log: Log<V>, bs: seq<Hash>, b: Hash)
    requires Lawful(m)
    requires forall x | x in bs :: !Comparable(c, x, b)
    ensures SumIn(m, log, UpAll(c, bs + [b])) == m.add(SumIn(m, log, UpAll(c, bs)), Weight(m, c, log, b))
  {
    forall x | x in UpAll(c, bs) && x in Up(c, b) ensures false {
      var y :| y in bs && AtOrBelow(c, y, x);
      BelowLinear(c, y, b, x);
      BelowLinear(c, b, y, x);
      assert Comparable(c, y, b);
    }
    SumDisjoint(m, log, UpAll(c, bs), Up(c, b));
    assert UpAll(c, bs + [b]) == UpAll(c, bs) + Up(c, b);
  }
}
