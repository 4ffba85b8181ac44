/** The enemy-tier decision StartRound makes once per 0.05 s quantum.
    Level arithmetic follows C#: integer `/` and `%` truncate toward zero,
    which matters for the warm-up round, whose level is -1. The two uniform
    draws Game.cs makes are inputs; the probability thresholds are whole
    numbers of fifths. */
module Spawn {

  import Pool

  /** C# integer division: truncates toward zero. */
  function CsDiv(a: int, b: int): (q: int)
    requires b > 0
    ensures a >= 0 ==> q >= 0 && q * b <= a < q * b + b
    ensures a < 0 ==> q <= 0 && q * b - b < a <= q * b
  {
    if a >= 0 then
      DivBounds(a, b);
      a / b
    else
      DivBounds(-a, b);
      -((-a) / b)
  }

  /** Division of a natural number rounds down. */
  lemma DivBounds(n: nat, b: int)
    requires b > 0
    ensures 0 <= n / b && (n / b) * b <= n < (n / b) * b + b
    ensures (-(n / b)) * b == -((n / b) * b)
  {
  }

  /** C# remainder: takes the sign of the dividend. */
  function CsRem(a: int, b: int): (r: int)
    requires b > 0
    ensures a == CsDiv(a, b) * b + r
    ensures a >= 0 ==> 0 <= r < b
    ensures a < 0 ==> -b < r <= 0
  {
    a - CsDiv(a, b) * b
  }

  /** The outcome of one quantum's enemy decision: no enemy, or the index
      into the enemy tier table (which Game.cs then reads unchecked). */
  datatype EnemySpawn = NoEnemy | Enemy(tier: int)

  /** startIndex: the level's five-level band, capped (from above only) at
      the last tier. */
  function StartIndex(level: int, tierCount: int): (r: int)
    ensures r <= tierCount - 1
    ensures level >= 0 ==> r <= level / 5 && (r == level / 5 || r == tierCount - 1)
    ensures level < 0 ==> r <= 0
  {
    Pool.Min(CsDiv(level, 5), tierCount - 1)
  }

  /** baseAmount = (level % 5) * 0.2 + 0.2, in fifths. */
  function BaseFifths(level: int): (r: int)
    ensures level >= 0 ==> r == level % 5 + 1 && 1 <= r <= 5
    ensures level < 0 ==> -3 <= r <= 1
  {
    CsRem(level, 5) + 1
  }

  /** secondAmount = ((level % 5) / 2) * 0.2, in fifths. */
  function SecondFifths(level: int): (r: int)
    ensures level >= 0 ==> r == (level % 5) / 2 && 0 <= r <= 2 && (r == 0 <==> level % 5 < 2)
    ensures level < 0 ==> -2 <= r <= 0
  {
    CsDiv(CsRem(level, 5), 2)
  }

  /** The first-match-wins decision chain. u1 and u2 are the two uniform
      draws in [0, 1]; Game.cs draws u1 only when the next tier exists
      and u2 only when the defender count is not 1. */
  function SpawnTier(level: int, defenders: nat, tierCount: int, u1: real, u2: real): (s: EnemySpawn)
    ensures tierCount >= 2 && s.Enemy? ==> 0 <= s.tier < tierCount
    ensures level < 0 && s.Enemy? ==> s.tier == 0
  {
    var startIndex := StartIndex(level, tierCount);
    if level < 0 then
      (if defenders % 3 == 0 && defenders < 4 * 3 then Enemy(0) else NoEnemy)
    else if CsRem(level, 5) == 4 && startIndex < tierCount - 2 && defenders == 100 then
      Enemy(startIndex + 2)
    else if startIndex < tierCount - 1 && u1 <= SecondFifths(level) as real / 5.0 then
      Enemy(startIndex + 1)
    else if defenders == 1 || u2 <= BaseFifths(level) as real / 5.0 then
      Enemy(startIndex)
    else if level >= 5 then
      Enemy(startIndex - 1)
    else
      NoEnemy
  }

  /** The warm-up round (level < 0) spawns a tier-0 enemy exactly on the
      quanta that find 0, 3, 6 or 9 defenders, whatever the draws. */
  lemma WarmupSchedule(level: int, defenders: nat, tierCount: int, u1: real, u2: real)
    requires level < 0
    ensures SpawnTier(level, defenders, tierCount, u1, u2) ==
              if defenders in {0, 3, 6, 9} then Enemy(0) else NoEnemy
  {
    if defenders % 3 == 0 && defenders < 12 {
      assert defenders == 3 * (defenders / 3);
      assert defenders / 3 < 4;
    }
  }

  /** On the last level of a band, with room for a tier two above the
      band's and exactly 100 defenders, that tier spawns whatever the
      draws are. */
  lemma BossOverridesDraws(level: int, tierCount: int, u1: real, u2: real)
    requires level >= 0 && level % 5 == 4
    requires StartIndex(level, tierCount) < tierCount - 2
    ensures SpawnTier(level, 100, tierCount, u1, u2) == Enemy(StartIndex(level, tierCount) + 2)
  {
    assert CsRem(level, 5) == level % 5;
  }

  /** On the last level of a band the base amount is the whole unit
      interval, so every quantum of a normal round spawns an enemy. */
  lemma BandEndAlwaysSpawns(level: int, defenders: nat, tierCount: int, u1: real, u2: real)
    requires level >= 0 && level % 5 == 4 && u2 <= 1.0
    ensures SpawnTier(level, defenders, tierCount, u1, u2).Enemy?
  {
    assert CsRem(level, 5) == 4;
  }

  /** On the first two levels of a band the second amount is zero, so a
      draw above zero never yields the tier above the band's. */
  lemma NextTierNotBeforeThirdLevel(level: int, defenders: nat, tierCount: int, u1: real, u2: real)
    requires level >= 0 && level % 5 < 2 && u1 > 0.0
    ensures SpawnTier(level, defenders, tierCount, u1, u2) != Enemy(StartIndex(level, tierCount) + 1)
  {
    assert CsRem(level, 5) == level % 5;
    assert SecondFifths(level) == 0;
  }

  /** With a one-tier table and level >= 5, the fallback branch picks
      index -1 exactly when the defender count is not 1 and the second
      draw misses the base amount. */
  lemma SingleTierFallbackUnderflows(level: int, defenders: nat, u1: real, u2: real)
    requires level >= 5
    ensures SpawnTier(level, defenders, 1, u1, u2) == Enemy(-1) <==>
              defenders != 1 && u2 > BaseFifths(level) as real / 5.0
  {
    assert StartIndex(level, 1) == 0;
  }

  /** A concrete instance: level 5, two defenders, one tier, draws 0.5. */
  lemma SingleTierUnderflowExample()
    ensures SpawnTier(5, 2, 1, 0.5, 0.5) == Enemy(-1)
  {
    SingleTierFallbackUnderflows(5, 2, 0.5, 0.5);
  }
}
