/** The 100-slot defender pool: which prefab each spawned defender copies,
    its reset layout, and the "convert up to N matching slots" operation
    that the shop applies. */
module Pool {

  /** A prefab is identified by its name; every spawned copy inherits it. */
  type Prefab = string

  const PoolSize: nat := 100
  const ShooterSlots: nat := 10

  /** The neutral base archetype (it is not in the combat stat table). */
  const Bubble: Prefab := "Bubble"
  /** The base combat archetype. */
  const Shooter: Prefab := "Shooter"

  function Min(a: int, b: int): int { if a <= b then a else b }
  function Max(a: int, b: int): int { if a <= b then b else a }

  /** The layout a reset produces: ten Shooter slots, then ninety Bubble slots. */
  function DefaultPool(): (s: seq<Prefab>)
    ensures |s| == PoolSize
  {
    seq(PoolSize, i => if i < ShooterSlots then Shooter else Bubble)
  }

  /** The scan of the conversion loop: walking the slots in index order
      with a budget of n, each slot holding p is rewritten to q while the
      budget is positive, and the budget drops by one per rewrite. */
  function Converted<T(==)>(s: seq<T>, p: T, q: T, n: int): (r: seq<T>)
    ensures |r| == |s|
  {
    if s == [] || n <= 0 then s
    else if s[0] == p then [q] + Converted(s[1..], p, q, n - 1)
    else [s[0]] + Converted(s[1..], p, q, n)
  }

  /** Slot i is rewritten exactly when it holds p and fewer than n of the
      slots before it hold p: the conversion takes the first matches. */
  lemma {:induction false} ConvertedAt<T>(s: seq<T>, p: T, q: T, n: int, i: nat)
    requires i < |s|
    ensures Converted(s, p, q, n)[i] ==
              if s[i] == p && multiset(s[..i])[p] < n then q else s[i]
  {
    if n <= 0 {
    } else if i == 0 {
    } else {
      var n' := if s[0] == p then n - 1 else n;
      ConvertedAt(s[1..], p, q, n', i - 1);
      assert s[..i] == [s[0]] + s[1..][..i - 1];
      assert s[1..][i - 1] == s[i];
    }
  }

  /** Exactly min(n, #matches) slots move from p to q (for p != q), and
      the count of every other prefab is untouched. */
  lemma {:induction false} ConvertedCounts(s: seq<Prefab>, p: Prefab, q: Prefab, n: int, x: Prefab)
    requires p != q
    ensures var m := Min(Max(n, 0), multiset(s)[p]);
            var r := Converted(s, p, q, n);
            && multiset(r)[p] == multiset(s)[p] - m
            && multiset(r)[q] == multiset(s)[q] + m
            && (x != p && x != q ==> multiset(r)[x] == multiset(s)[x])
  {
    if s == [] || n <= 0 {
    } else {
      var t := s[1..];
      assert s == [s[0]] + t;
      assert multiset(s) == multiset{s[0]} + multiset(t);
      var n' := if s[0] == p then n - 1 else n;
      var h := if s[0] == p then q else s[0];
      ConvertedCounts(t, p, q, n', x);
      assert Converted(s, p, q, n) == [h] + Converted(t, p, q, n');
      assert multiset(Converted(s, p, q, n)) == multiset{h} + multiset(Converted(t, p, q, n'));
    }
  }

  /** Converting with a budget of zero or less leaves the pool as it is. */
  lemma ConvertedNoBudget<T>(s: seq<T>, p: T, q: T, n: int)
    requires n <= 0
    ensures Converted(s, p, q, n) == s
  {
  }

  /** What the conversion loop learns at slot i: the count of p grows by
      one exactly at a slot holding p, and while fewer than n earlier
      slots hold p, the slot is rewritten exactly when it holds p. */
  lemma ScanSlot<T>(orig: seq<T>, p: T, q: T, n: int, i: nat)
    requires i < |orig|
    ensures multiset(orig[..i + 1])[p] == multiset(orig[..i])[p] + (if orig[i] == p then 1 else 0)
    ensures multiset(orig[..i])[p] < n ==> Converted(orig, p, q, n)[i] == if orig[i] == p then q else orig[i]
  {
    assert orig[..i + 1] == orig[..i] + [orig[i]];
    ConvertedAt(orig, p, q, n, i);
  }

  /** Once n slots holding p have been met, the rest is left alone. */
  lemma ScanRest<T>(orig: seq<T>, p: T, q: T, n: int, i: nat)
    requires i <= |orig| && multiset(orig[..i])[p] >= n
    ensures forall k :: i <= k < |orig| ==> Converted(orig, p, q, n)[k] == orig[k]
  {
    forall k | i <= k < |orig|
      ensures Converted(orig, p, q, n)[k] == orig[k]
    {
      ConvertedAt(orig, p, q, n, k);
      assert orig[..k] == orig[..i] + orig[i..k];
    }
  }

  /** The number of slots holding x in a run of k copies of x. */
  lemma {:induction false} CountConstant(k: nat, x: Prefab, y: Prefab)
    ensures multiset(seq(k, _ => x))[y] == if x == y then k else 0
  {
    if k > 0 {
      assert seq(k, _ => x) == seq(k - 1, _ => x) + [x];
      CountConstant(k - 1, x, y);
    }
  }

  /** The reset pool holds 10 Shooter and 90 Bubble slots. */
  lemma DefaultPoolCounts()
    ensures multiset(DefaultPool())[Shooter] == ShooterSlots
    ensures multiset(DefaultPool())[Bubble] == PoolSize - ShooterSlots
  {
    var shooters := seq(ShooterSlots, _ => Shooter);
    var bubbles := seq(PoolSize - ShooterSlots, _ => Bubble);
    assert DefaultPool() == shooters + bubbles;
    CountConstant(ShooterSlots, Shooter, Shooter);
    CountConstant(ShooterSlots, Shooter, Bubble);
    CountConstant(PoolSize - ShooterSlots, Bubble, Shooter);
    CountConstant(PoolSize - ShooterSlots, Bubble, Bubble);
  }

  /** Converting ten Bubble slots to Shooter on a fresh pool converts all
      ten: the pool then holds 20 Shooter and 80 Bubble slots. */
  lemma FreshPoolConvertsTen()
    ensures multiset(Converted(DefaultPool(), Bubble, Shooter, 10))[Shooter] == 20
    ensures multiset(Converted(DefaultPool(), Bubble, Shooter, 10))[Bubble] == 80
  {
    DefaultPoolCounts();
    ConvertedCounts(DefaultPool(), Bubble, Shooter, 10, Bubble);
  }

  /** Reset: a fresh array of 100 slots, filled in index order. */
  method NewDefaultPool() returns (pool: array<Prefab>)
    ensures fresh(pool)
    ensures pool.Length == PoolSize
    ensures pool[..] == DefaultPool()
  {
    pool := new Prefab[PoolSize];
    for i := 0 to pool.Length
      invariant forall k :: 0 <= k < i ==> pool[k] == if k < ShooterSlots then Shooter else Bubble
    {
      pool[i] := if i < ShooterSlots then Shooter else Bubble;
    }
  }

  /** The in-place conversion loop: scan while slots remain and the budget
      is positive; each slot holding p becomes q and uses one unit. */
  method ConvertUpTo<T(==)>(pool: array<T>, p: T, q: T, n: int)
    modifies pool
    ensures pool[..] == Converted(old(pool[..]), p, q, n)
  {
    ghost var orig := pool[..];
    ghost var target := Converted(orig, p, q, n);
    var toConvert := n;
    var index := 0;
    while index < pool.Length && toConvert > 0
      invariant 0 <= index <= pool.Length == |orig|
      invariant toConvert == n - multiset(orig[..index])[p]
      invariant forall k :: 0 <= k < index ==> pool[k] == target[k]
      invariant forall k :: index <= k < pool.Length ==> pool[k] == orig[k]
    {
      ScanSlot(orig, p, q, n, index);
      if pool[index] == p {
        pool[index] := q;
        toConvert := toConvert - 1;
      }
      index := index + 1;
    }
    if index < pool.Length {
      ScanRest(orig, p, q, n, index);
    }
    assert pool[..] == target;
  }
}
