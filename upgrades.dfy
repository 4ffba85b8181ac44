/** The upgrade selector: which configured upgrade rules the current pool
    can afford, with the bootstrap substitution for rules whose Bubble
    prerequisite has run out, and the in-place shuffle of the draft. */
module Upgrades {
  import opened Pool

  /** A configured upgrade: convert up to countToChange slots holding
      prerequisite into prefab. */
  datatype UpgradeRule = UpgradeRule(countToChange: int, prerequisite: Prefab, prefab: Prefab)

  /** The count of x in a tally dictionary; a missing key reads as 0. */
  function Lookup(counts: map<Prefab, nat>, x: Prefab): nat
  {
    if x in counts then counts[x] else 0
  }

  /** The tally loop: one dictionary entry per prefab present in the pool,
      holding the number of slots with that prefab. */
  method CountPrefabs(pool: array<Prefab>) returns (counts: map<Prefab, nat>)
    ensures forall x :: x in counts <==> x in pool[..]
    ensures forall x :: Lookup(counts, x) == multiset(pool[..])[x]
  {
    counts := map[];
    for i := 0 to pool.Length
      invariant forall x :: x in counts <==> x in pool[..i]
      invariant forall x :: Lookup(counts, x) == multiset(pool[..i])[x]
    {
      var bubble := pool[i];
      if bubble !in counts {
        counts := counts[bubble := 0];
      }
      counts := counts[bubble := counts[bubble] + 1];
      assert pool[..i + 1] == pool[..i] + [bubble];
    }
    assert pool[..] == pool[..pool.Length];
  }

  /** The rule as tested and drafted: a rule converting Bubble into
      anything but Shooter, while no Bubble slot is left, is taken to
      convert Shooter slots instead. */
  function Effective(rule: UpgradeRule, pool: seq<Prefab>): (r: UpgradeRule)
    ensures r.countToChange == rule.countToChange && r.prefab == rule.prefab
    ensures r.prerequisite != rule.prerequisite <==>
              rule.prerequisite == Bubble && multiset(pool)[Bubble] == 0 && rule.prefab != Shooter
    ensures r.prerequisite != rule.prerequisite ==> r.prerequisite == Shooter
  {
    if rule.prerequisite == Bubble && multiset(pool)[Bubble] == 0 && rule.prefab != Shooter
    then rule.(prerequisite := Shooter)
    else rule
  }

  /** A rule is affordable when its effective prerequisite fills at least
      its threshold of slots (the threshold is inclusive). */
  predicate Affordable(rule: UpgradeRule, pool: seq<Prefab>): (b: bool)
    ensures rule.prerequisite == Bubble && multiset(pool)[Bubble] == 0 && rule.prefab != Shooter ==>
              (b <==> multiset(pool)[Shooter] >= rule.countToChange)
    ensures !(rule.prerequisite == Bubble && multiset(pool)[Bubble] == 0 && rule.prefab != Shooter) ==>
              (b <==> multiset(pool)[rule.prerequisite] >= rule.countToChange)
    ensures rule.countToChange <= 0 ==> b
  {
    multiset(pool)[Effective(rule, pool).prerequisite] >= rule.countToChange
  }

  /** The affordable rules, in configuration order, each in its effective
      form. */
  function EligibleRules(rules: seq<UpgradeRule>, pool: seq<Prefab>): (r: seq<UpgradeRule>)
    ensures |r| <= |rules|
    ensures forall u :: u in r ==> multiset(pool)[u.prerequisite] >= u.countToChange
  {
    if rules == [] then []
    else
      var last := rules[|rules| - 1];
      EligibleRules(rules[..|rules| - 1], pool)
        + (if Affordable(last, pool) then [Effective(last, pool)] else [])
  }

  /** A rule is drafted exactly when it is the effective form of some
      affordable configured rule. */
  lemma {:induction false} EligibleRulesExactly(rules: seq<UpgradeRule>, pool: seq<Prefab>, u: UpgradeRule)
    ensures u in EligibleRules(rules, pool) <==>
              exists i :: 0 <= i < |rules| && Affordable(rules[i], pool) && u == Effective(rules[i], pool)
  {
    if rules != [] {
      var init := rules[..|rules| - 1];
      EligibleRulesExactly(init, pool, u);
      if u in EligibleRules(rules, pool) && u !in EligibleRules(init, pool) {
        assert Affordable(rules[|rules| - 1], pool) && u == Effective(rules[|rules| - 1], pool);
      }
      if exists i :: 0 <= i < |rules| && Affordable(rules[i], pool) && u == Effective(rules[i], pool) {
        var i :| 0 <= i < |rules| && Affordable(rules[i], pool) && u == Effective(rules[i], pool);
        if i < |rules| - 1 {
          assert init[i] == rules[i];
        }
      }
    }
  }

  /** Applying a drafted rule converts its full threshold: the slots
      holding its result grow by exactly countToChange. */
  lemma DraftedRuleConvertsFully(rules: seq<UpgradeRule>, pool: seq<Prefab>, u: UpgradeRule)
    requires u in EligibleRules(rules, pool)
    requires u.countToChange >= 0 && u.prerequisite != u.prefab
    ensures multiset(Converted(pool, u.prerequisite, u.prefab, u.countToChange))[u.prefab]
              == multiset(pool)[u.prefab] + u.countToChange
    ensures multiset(Converted(pool, u.prerequisite, u.prefab, u.countToChange))[u.prerequisite]
              == multiset(pool)[u.prerequisite] - u.countToChange
  {
    ConvertedCounts(pool, u.prerequisite, u.prefab, u.countToChange, u.prefab);
  }

  /** The filter loop over the configured rules, reading prerequisite
      counts from the tally dictionary. */
  method SelectEligible(rules: seq<UpgradeRule>, counts: map<Prefab, nat>, ghost pool: seq<Prefab>)
    returns (upgrades: seq<UpgradeRule>)
    requires forall x :: Lookup(counts, x) == multiset(pool)[x]
    ensures upgrades == EligibleRules(rules, pool)
  {
    upgrades := [];
    for i := 0 to |rules|
      invariant upgrades == EligibleRules(rules[..i], pool)
    {
      var upgrade := rules[i];
      var count := Lookup(counts, upgrade.prerequisite);
      if upgrade.prerequisite == Bubble && count == 0 && upgrade.prefab != Shooter {
        count := Lookup(counts, Shooter);
        upgrade := upgrade.(prerequisite := Shooter);
      }
      assert rules[..i + 1][..i] == rules[..i];
      if count < upgrade.countToChange {
        continue;
      }
      upgrades := upgrades + [upgrade];
    }
    assert rules[..|rules|] == rules;
  }

  /** What the random source promises for the shuffle of n items: the
      draw for step i (1 <= i < n) lies in [0, i). */
  predicate ValidDraws(draws: seq<int>, n: nat)
  {
    |draws| >= n && forall i :: 0 < i < n ==> 0 <= draws[i] < i
  }

  function Swap<T>(s: seq<T>, r: nat, i: nat): (t: seq<T>)
    requires r < |s| && i < |s|
    ensures |t| == |s|
  {
    s[r := s[i]][i := s[r]]
  }

  lemma SwapPermutes<T>(s: seq<T>, r: nat, i: nat)
    requires r < |s| && i < |s|
    ensures multiset(Swap(s, r, i)) == multiset(s)
  {
  }

  /** The shuffle's steps i, i-1, ..., 1: step k swaps slot k with the
      slot drawn for it. */
  function ShuffledFrom<T>(s: seq<T>, draws: seq<int>, i: int): (r: seq<T>)
    requires i < |s| && ValidDraws(draws, |s|)
    ensures |r| == |s|
    decreases i
  {
    if i <= 0 then s else ShuffledFrom(Swap(s, draws[i], i), draws, i - 1)
  }

  /** The shuffle is a permutation of its input. */
  lemma {:induction false} ShufflePermutes<T>(s: seq<T>, draws: seq<int>, i: int)
    requires i < |s| && ValidDraws(draws, |s|)
    ensures multiset(ShuffledFrom(s, draws, i)) == multiset(s)
    decreases i
  {
    if i > 0 {
      SwapPermutes(s, draws[i], i);
      ShufflePermutes(Swap(s, draws[i], i), draws, i - 1);
    }
  }

  /** The whole shuffle, from the last slot down to slot 1. */
  function Shuffled<T>(s: seq<T>, draws: seq<int>): (r: seq<T>)
    requires ValidDraws(draws, |s|)
    ensures multiset(r) == multiset(s)
  {
    ShufflePermutes(s, draws, |s| - 1);
    ShuffledFrom(s, draws, |s| - 1)
  }

  /** The in-place shuffle loop. */
  method Shuffle<T>(a: array<T>, draws: seq<int>)
    requires ValidDraws(draws, a.Length)
    modifies a
    ensures a[..] == Shuffled(old(a[..]), draws)
    ensures multiset(a[..]) == multiset(old(a[..]))
  {
    var i := a.Length - 1;
    while i > 0
      invariant -1 <= i < a.Length
      invariant ShuffledFrom(a[..], draws, i) == Shuffled(old(a[..]), draws)
    {
      var r := draws[i];
      ghost var before := a[..];
      a[r], a[i] := a[i], a[r];
      assert a[..] == Swap(before, r, i);
      i := i - 1;
    }
  }

  /** Steps i, ..., 1 never touch a slot above i, and step i fills slot i
      from a strictly lower slot, which no later step touches again. */
  lemma {:induction false} ShuffleFillsFromBelow<T>(s: seq<T>, draws: seq<int>, i: int)
    requires i < |s| && ValidDraws(draws, |s|)
    ensures forall k :: 0 <= k < |s| && i < k ==> ShuffledFrom(s, draws, i)[k] == s[k]
    ensures 1 <= i ==> draws[i] < i && ShuffledFrom(s, draws, i)[i] == s[draws[i]]
    decreases i
  {
    if i > 0 {
      ShuffleFillsFromBelow(Swap(s, draws[i], i), draws, i - 1);
    }
  }

  /** The slots 0, 1, ..., n-1. */
  function Iota(n: nat): (r: seq<nat>)
    ensures |r| == n && forall k :: 0 <= k < n ==> r[k] == k
  {
    seq(n, k => k)
  }

  /** The items of s picked out by the slot numbers in idx. */
  function Pick<T>(s: seq<T>, idx: seq<nat>): (r: seq<T>)
    requires forall k :: 0 <= k < |idx| ==> idx[k] < |s|
    ensures |r| == |idx| && forall k :: 0 <= k < |idx| ==> r[k] == s[idx[k]]
  {
    seq(|idx|, k requires 0 <= k < |idx| => s[idx[k]])
  }

  /** Shuffling slot numbers keeps them below any bound they were below. */
  lemma {:induction false} ShuffleKeepsBound(idx: seq<nat>, n: nat, draws: seq<int>, i: int)
    requires forall k :: 0 <= k < |idx| ==> idx[k] < n
    requires i < |idx| && ValidDraws(draws, |idx|)
    ensures forall k :: 0 <= k < |idx| ==> ShuffledFrom<nat>(idx, draws, i)[k] < n
    decreases i
  {
    if i > 0 {
      var idx' := Swap(idx, draws[i], i);
      forall k | 0 <= k < |idx'| ensures idx'[k] < n {
        assert idx'[k] == idx[k] || idx'[k] == idx[draws[i]] || idx'[k] == idx[i];
      }
      ShuffleKeepsBound(idx', n, draws, i - 1);
    }
  }

  /** The shuffle moves positions, not values: shuffling the items picked
      by idx picks them by the shuffled idx. */
  lemma {:induction false} ShufflePicks<T>(s: seq<T>, idx: seq<nat>, draws: seq<int>, i: int)
    requires forall k :: 0 <= k < |idx| ==> idx[k] < |s|
    requires i < |idx| && ValidDraws(draws, |idx|)
    ensures var perm := ShuffledFrom<nat>(idx, draws, i);
            && (forall k :: 0 <= k < |perm| ==> perm[k] < |s|)
            && ShuffledFrom(Pick(s, idx), draws, i) == Pick(s, perm)
    decreases i
  {
    ShuffleKeepsBound(idx, |s|, draws, i);
    if i > 0 {
      var r := draws[i];
      var idx' := Swap(idx, r, i);
      ShuffleKeepsBound(idx, |s|, draws, 0);
      ShuffleKeepsBound(idx', |s|, draws, 0);
      assert Swap(Pick(s, idx), r, i) == Pick(s, idx');
      ShufflePicks(s, idx', draws, i - 1);
    }
  }

  /** The core of the no-fixed-point argument, on slot numbers: before
      step i, every slot at or below i holds its own number or one above
      i, and every slot above i already holds a number other than its own. */
  lemma {:induction false} NoFixedPointFrom(t: seq<nat>, draws: seq<int>, i: int)
    requires 1 <= i < |t| && ValidDraws(draws, |t|)
    requires forall j :: 0 <= j <= i ==> t[j] == j || t[j] > i
    requires forall j :: i < j < |t| ==> t[j] != j
    ensures forall k :: 0 <= k < |t| ==> ShuffledFrom(t, draws, i)[k] != k
    decreases i
  {
    var t' := Swap(t, draws[i], i);
    if i > 1 {
      NoFixedPointFrom(t', draws, i - 1);
    }
  }

  /** Because every draw is strictly below its step, the shuffle leaves
      no item where it was: with two or more items, slot k of the result
      holds the item from some other slot of the input. */
  lemma ShuffleMovesEveryItem<T>(s: seq<T>, draws: seq<int>, k: nat)
    requires 2 <= |s| && ValidDraws(draws, |s|) && k < |s|
    ensures exists j :: 0 <= j < |s| && j != k && Shuffled(s, draws)[k] == s[j]
  {
    var perm := ShuffledFrom<nat>(Iota(|s|), draws, |s| - 1);
    NoFixedPointFrom(Iota(|s|), draws, |s| - 1);
    ShufflePicks(s, Iota(|s|), draws, |s| - 1);
    assert Pick(s, Iota(|s|)) == s;
    assert Shuffled(s, draws)[k] == s[perm[k]];
  }

  /** GetValidUpgrades: tally the pool, keep the affordable rules in their
      effective form, shuffle them in place. */
  method GetValidUpgrades(pool: array<Prefab>, rules: seq<UpgradeRule>, draws: seq<int>)
    returns (upgrades: seq<UpgradeRule>)
    requires ValidDraws(draws, |rules|)
    ensures ValidDraws(draws, |EligibleRules(rules, pool[..])|)
    ensures upgrades == Shuffled(EligibleRules(rules, pool[..]), draws)
    ensures multiset(upgrades) == multiset(EligibleRules(rules, pool[..]))
    ensures forall u :: u in upgrades ==> multiset(pool[..])[u.prerequisite] >= u.countToChange
  {
    var counts := CountPrefabs(pool);
    var eligible := SelectEligible(rules, counts, pool[..]);
    var list := new UpgradeRule[|eligible|](k requires 0 <= k < |eligible| => eligible[k]);
    assert list[..] == eligible;
    Shuffle(list, draws);
    upgrades := list[..];
    ShufflePermutes(eligible, draws, |eligible| - 1);
    forall u | u in upgrades ensures multiset(pool[..])[u.prerequisite] >= u.countToChange {
      assert u in multiset(upgrades);
      assert u in eligible;
    }
  }
}
