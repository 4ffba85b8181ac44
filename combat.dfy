/** The PlayRound combat tick: enemies within radius 30 of the centre form
    the in-range list; each defender in child order looks up its stats,
    reloads if its scale is below 1, or fires one projectile at the nearest
    in-range enemy within its range and takes that enemy off the list for
    the rest of the tick. Positions are exact reals; projectile geometry,
    jitter draws and lifetime are left to the engine. */
module Combat {

  datatype Vec = Vec(x: real, y: real)

  function SqrMagnitude(v: Vec): real { v.x * v.x + v.y * v.y }

  function SqrDistance(a: Vec, b: Vec): real { SqrMagnitude(Vec(a.x - b.x, a.y - b.y)) }

  /** Enemies further than 30 from the centre (squared 900) are ignored. */
  const EngageRadiusSqr: real := 900.0

  /** The scale a defender drops to when it fires; 1 means loaded. */
  const MinSize: real := 0.75

  /** A defender as combat sees it: its name (the prefab's), position and
      scale, which doubles as its reload state. */
  datatype Defender = Defender(name: string, pos: Vec, scale: real)

  /** An archetype's stats. The range is kept squared, since it is only
      ever compared with squared distances: 100 for range 10, 400 for
      range 20. */
  datatype Stats = Stats(rangeSqr: real, fireRate: real, speed: real, bulletCount: nat)

  /** The stat switch: names outside it are inert and never act. */
  datatype StatLookup = Inert | Armed(stats: Stats)

  /** One projectile: who fired it (defender index), at which enemy
      (enemy index), the name tag it carries, its speed and the bound of
      its angular jitter in degrees. */
  datatype Shot = Shot(shooter: nat, target: nat, tag: string, speed: real, maxAngle: int)

  function StatsOf(name: string): (r: StatLookup)
    ensures r.Armed? ==> r.stats.bulletCount >= 1 && r.stats.fireRate > 0.0 && r.stats.speed > 0.0
    ensures r.Armed? ==> r.stats.rangeSqr == 10.0 * 10.0 || r.stats.rangeSqr == 20.0 * 20.0
  {
    if name == "Shooter" then Armed(Stats(100.0, 0.25, 5.0, 1))
    else if name == "RapidShooter" then Armed(Stats(100.0, 0.5, 5.0, 1))
    else if name == "RapiderShooter" then Armed(Stats(100.0, 1.0, 5.0, 1))
    else if name == "RapidestShooter" then Armed(Stats(100.0, 2.0, 5.0, 1))
    else if name == "DoubleShooter" then Armed(Stats(100.0, 0.5, 5.0, 2))
    else if name == "QuintupleShooter" then Armed(Stats(100.0, 0.5, 5.0, 5))
    else if name == "Sniper" then Armed(Stats(400.0, 0.1, 12.0, 1))
    else if name == "Sniperer" then Armed(Stats(400.0, 0.1, 12.0, 3))
    else if name == "Sniperest" then Armed(Stats(400.0, 0.1, 12.0, 5))
    else Inert
  }

  /** The nine armed names; every other name, Bubble included, is inert. */
  lemma ArmedExactlyTheNine(name: string)
    ensures StatsOf(name).Armed? <==>
              name in ["Shooter", "RapidShooter", "RapiderShooter", "RapidestShooter", "DoubleShooter",
                       "QuintupleShooter", "Sniper", "Sniperer", "Sniperest"]
  {
  }

  /** Whether t occurs in s as a contiguous substring. */
  function Contains(s: string, t: string): bool
    decreases |s|
  {
    |t| <= |s| && (s[..|t|] == t || (|s| > 0 && Contains(s[1..], t)))
  }

  /** t sits in s at offset i. */
  predicate OccursAt(s: string, t: string, i: int)
  {
    0 <= i && i + |t| <= |s| && s[i..i + |t|] == t
  }

  /** Contains finds t exactly when t sits at some offset of s. */
  lemma {:induction false} ContainsAt(s: string, t: string)
    ensures Contains(s, t) <==> exists i :: OccursAt(s, t, i)
    decreases |s|
  {
    if |t| <= |s| && s[..|t|] == t {
      assert OccursAt(s, t, 0);
    } else if |t| <= |s| && |s| > 0 {
      ContainsAt(s[1..], t);
      if exists i :: OccursAt(s, t, i) {
        var i :| OccursAt(s, t, i);
        assert i != 0;
        assert s[1..][i - 1..i - 1 + |t|] == s[i..i + |t|];
        assert OccursAt(s[1..], t, i - 1);
      }
      if exists j :: OccursAt(s[1..], t, j) {
        var j :| OccursAt(s[1..], t, j);
        assert s[1..][j..j + |t|] == s[j + 1..j + 1 + |t|];
        assert OccursAt(s, t, j + 1);
      }
    }
  }

  /** Jitter bound: no jitter for names containing "Sniper", else 5 degrees. */
  function MaxAngle(name: string): (r: int)
    ensures r == 0 || r == 5
    ensures r == 0 <==> exists i :: OccursAt(name, "Sniper", i)
  {
    ContainsAt(name, "Sniper");
    if Contains(name, "Sniper") then 0 else 5
  }

  /** The three sniper archetypes fire without jitter. */
  lemma SnipersAimStraight()
    ensures MaxAngle("Sniper") == 0 && MaxAngle("Sniperer") == 0 && MaxAngle("Sniperest") == 0
  {
    assert "Sniperer"[..6] == "Sniper";
    assert "Sniperest"[..6] == "Sniper";
  }

  function Clamp01(v: real): (r: real)
    ensures 0.0 <= r <= 1.0
    ensures 0.0 <= v <= 1.0 ==> r == v
  {
    if v < 0.0 then 0.0 else if v > 1.0 then 1.0 else v
  }

  /** Reload progress of a scale: where it sits between MinSize and 1,
      clamped to [0, 1] (Mathf.InverseLerp). The span 1 - MinSize is
      written out as 0.25 here and below. */
  function Progress(scale: real): real
  {
    Clamp01((scale - MinSize) / 0.25)
  }

  /** One reload step: progress grows by step (deltaTime times the fire
      rate), then maps back onto [MinSize, 1] (Mathf.Lerp, Mathf.Clamp01). */
  function Reloaded(scale: real, step: real): (next: real)
    ensures MinSize <= next <= 1.0
    ensures step >= 0.0 && MinSize <= scale <= 1.0 ==> next >= scale
    ensures next == 1.0 <==> Progress(scale) + step >= 1.0
  {
    Clamp01(MinSize + 0.25 * Clamp01(Progress(scale) + step))
  }

  /** The scale of a defender that fired and then spent k combat ticks
      reloading with the given per-tick step (it stops at 1). */
  function ScaleAfter(k: nat, step: real): real
  {
    if k == 0 then MinSize
    else
      var s := ScaleAfter(k - 1, step);
      if s < 1.0 then Reloaded(s, step) else s
  }

  /** One tick of reloading from a scale whose progress is Clamp01(x). */
  lemma ReloadOnce(x: real, step: real)
    requires x >= 0.0 && step >= 0.0
    ensures var s := MinSize + 0.25 * Clamp01(x);
            (if s < 1.0 then Reloaded(s, step) else s) == MinSize + 0.25 * Clamp01(x + step)
  {
    var s := MinSize + 0.25 * Clamp01(x);
    assert Progress(s) == Clamp01(x);
  }

  /** The reload progress k ticks of the given step add up to. */
  function Elapsed(k: nat, step: real): real
  {
    if k == 0 then 0.0 else Elapsed(k - 1, step) + step
  }

  lemma {:induction false} ElapsedIsProduct(k: nat, step: real)
    ensures Elapsed(k, step) == k as real * step
  {
    if k > 0 {
      ElapsedIsProduct(k - 1, step);
    }
  }

  /** Reload is linear in the number of ticks: after k ticks the scale is
      MinSize + 0.25 * min(1, k * step), so a defender is loaded again
      exactly once k * deltaTime * fireRate reaches 1. */
  lemma {:induction false} ReloadTime(k: nat, step: real)
    requires step >= 0.0
    ensures ScaleAfter(k, step) == MinSize + 0.25 * Clamp01(k as real * step)
    ensures ScaleAfter(k, step) == 1.0 <==> k as real * step >= 1.0
  {
    ReloadLinear(k, step);
    ElapsedIsProduct(k, step);
  }

  lemma {:induction false} ReloadLinear(k: nat, step: real)
    requires step >= 0.0
    ensures Elapsed(k, step) >= 0.0
    ensures ScaleAfter(k, step) == MinSize + 0.25 * Clamp01(Elapsed(k, step))
  {
    if k > 0 {
      ReloadLinear(k - 1, step);
      ReloadOnce(Elapsed(k - 1, step), step);
    }
  }

  /** All entries of idx are valid indices into a list of n enemies. */
  predicate IndicesIn(idx: seq<nat>, n: nat)
  {
    forall j :: 0 <= j < |idx| ==> idx[j] < n
  }

  predicate StrictlyIncreasing(s: seq<nat>)
  {
    forall a, b :: 0 <= a < b < |s| ==> s[a] < s[b]
  }

  /** The in-range list after the first n enemies: their indices, in
      order, for those within radius 30 of the centre. */
  function InRangeUpTo(enemies: seq<Vec>, n: nat): (r: seq<nat>)
    requires n <= |enemies|
    ensures IndicesIn(r, n) && StrictlyIncreasing(r)
    ensures forall k :: 0 <= k < |r| ==> SqrMagnitude(enemies[r[k]]) <= EngageRadiusSqr
    ensures forall i :: 0 <= i < n && SqrMagnitude(enemies[i]) <= EngageRadiusSqr ==> i in r
  {
    if n == 0 then []
    else
      var r := InRangeUpTo(enemies, n - 1);
      if SqrMagnitude(enemies[n - 1]) > EngageRadiusSqr then r else r + [n - 1]
  }

  /** The loop that builds the in-range list. */
  method CollectInRange(enemies: seq<Vec>) returns (inRange: seq<nat>)
    ensures inRange == InRangeUpTo(enemies, |enemies|)
  {
    inRange := [];
    for i := 0 to |enemies|
      invariant inRange == InRangeUpTo(enemies, i)
    {
      var distance := SqrMagnitude(enemies[i]);
      if distance > EngageRadiusSqr {
        continue;
      }
      inRange := inRange + [i];
    }
  }

  /** Squared distance from pos to the j-th entry of the in-range list. */
  function EnemyDistance(enemies: seq<Vec>, remaining: seq<nat>, j: nat, pos: Vec): real
    requires j < |remaining| && IndicesIn(remaining, |enemies|)
  {
    SqrDistance(enemies[remaining[j]], pos)
  }

  /** The target search over the first n list entries: -1 when none is
      within range; otherwise an entry within range that no entry within
      range is strictly closer than, and the last such entry, since an
      equal distance replaces the best found so far. */
  function Nearest(enemies: seq<Vec>, remaining: seq<nat>, pos: Vec, rangeSqr: real, n: nat): (k: int)
    requires n <= |remaining| && IndicesIn(remaining, |enemies|)
    ensures -1 <= k < n
    ensures k < 0 <==> forall j :: 0 <= j < n ==> EnemyDistance(enemies, remaining, j, pos) > rangeSqr
    ensures k >= 0 ==> EnemyDistance(enemies, remaining, k, pos) <= rangeSqr
    ensures k >= 0 ==> forall j :: 0 <= j < n && EnemyDistance(enemies, remaining, j, pos) <= rangeSqr ==>
                          EnemyDistance(enemies, remaining, k, pos) <= EnemyDistance(enemies, remaining, j, pos)
    ensures k >= 0 ==> forall j :: k < j < n ==>
                          EnemyDistance(enemies, remaining, j, pos) > rangeSqr
                          || EnemyDistance(enemies, remaining, j, pos) > EnemyDistance(enemies, remaining, k, pos)
  {
    if n == 0 then -1
    else
      var k := Nearest(enemies, remaining, pos, rangeSqr, n - 1);
      var dist := EnemyDistance(enemies, remaining, n - 1, pos);
      if dist > rangeSqr then k
      else if k >= 0 && dist > EnemyDistance(enemies, remaining, k, pos) then k
      else n - 1
  }

  /** The search loop; closestIndex < 0 stands for closestDistance being
      still infinite. */
  method FindTarget(enemies: seq<Vec>, remaining: seq<nat>, pos: Vec, rangeSqr: real) returns (closestIndex: int)
    requires IndicesIn(remaining, |enemies|)
    ensures closestIndex == Nearest(enemies, remaining, pos, rangeSqr, |remaining|)
  {
    closestIndex := -1;
    var closestDistance := 0.0;
    for index := 0 to |remaining|
      invariant closestIndex == Nearest(enemies, remaining, pos, rangeSqr, index)
      invariant closestIndex >= 0 ==> closestDistance == EnemyDistance(enemies, remaining, closestIndex, pos)
    {
      var dist := SqrDistance(enemies[remaining[index]], pos);
      if dist > rangeSqr {
        continue;
      }
      if closestIndex >= 0 && dist > closestDistance {
        continue;
      }
      closestDistance := dist;
      closestIndex := index;
    }
  }

  /** What one defender's turn leaves behind. */
  datatype Turn = Turn(defender: Defender, remaining: seq<nat>, shots: seq<Shot>)

  /** One defender's turn against the enemies still on the in-range list. */
  function Engage(d: Defender, index: nat, enemies: seq<Vec>, remaining: seq<nat>, dt: real): (t: Turn)
    requires IndicesIn(remaining, |enemies|)
    ensures t.defender.name == d.name && t.defender.pos == d.pos
    ensures |t.shots| <= 1 && (|t.shots| == 1 ==> t.shots[0].shooter == index && t.shots[0].tag == d.name)
  {
    TurnUnder(StatsOf(d.name), d, index, enemies, remaining, dt)
  }

  /** The turn of a defender whose stat lookup gave lookup: a name
      without stats is skipped. */
  function TurnUnder(lookup: StatLookup, d: Defender, index: nat, enemies: seq<Vec>, remaining: seq<nat>, dt: real): (t: Turn)
    requires IndicesIn(remaining, |enemies|)
    ensures t.defender.name == d.name && t.defender.pos == d.pos
    ensures |t.shots| <= 1 && (|t.shots| == 1 ==> t.shots[0].shooter == index && t.shots[0].tag == d.name)
  {
    match lookup
    case Inert => Turn(d, remaining, [])
    case Armed(st) => ArmedTurn(d, st, st.rangeSqr, dt * st.fireRate, index, enemies, remaining)
  }

  /** The turn of a defender with stats: reload while the scale is below
      1; otherwise, when an enemy on the list is within range, drop to
      MinSize and fire once at the nearest one. The bullet loop ends in a
      break after its first pass, so a bullet count of 0 fires nothing and
      any larger count fires one projectile. rangeSqr is the range squared
      and step is deltaTime times the fire rate. */
  function ArmedTurn(d: Defender, st: Stats, rangeSqr: real, step: real, index: nat, enemies: seq<Vec>, remaining: seq<nat>): (t: Turn)
    requires IndicesIn(remaining, |enemies|)
    ensures t.defender.name == d.name && t.defender.pos == d.pos
    ensures |t.shots| <= 1 && (|t.shots| == 1 ==> t.shots[0].shooter == index && t.shots[0].tag == d.name)
  {
    if d.scale < 1.0 then
      Turn(d.(scale := Reloaded(d.scale, step)), remaining, [])
    else
      var k := Nearest(enemies, remaining, d.pos, rangeSqr, |remaining|);
      if k < 0 then Turn(d, remaining, [])
      else if st.bulletCount == 0 then Turn(d.(scale := MinSize), remaining, [])
      else Turn(d.(scale := MinSize), remaining[..k] + remaining[k + 1..],
                [Shot(index, remaining[k], d.name, st.speed, MaxAngle(d.name))])
  }

  /** Any two positive bullet counts give the same turn: the double,
      quintuple and multi-shot sniper archetypes fire a single projectile
      per shot, like the single-shot ones. */
  lemma BulletCountIgnored(d: Defender, st: Stats, b: nat, rangeSqr: real, step: real, index: nat,
                           enemies: seq<Vec>, remaining: seq<nat>)
    requires IndicesIn(remaining, |enemies|) && st.bulletCount >= 1 && b >= 1
    ensures ArmedTurn(d, st.(bulletCount := b), rangeSqr, step, index, enemies, remaining)
              == ArmedTurn(d, st, rangeSqr, step, index, enemies, remaining)
  {
  }

  /** Removing the entry at k removes one occurrence of its value. */
  lemma RemoveAtCount(s: seq<nat>, k: nat)
    requires k < |s|
    ensures multiset(s[..k] + s[k + 1..]) == multiset(s) - multiset{s[k]}
  {
    assert s == s[..k] + [s[k]] + s[k + 1..];
  }

  /** A firing defender shoots one enemy that was still on the list,
      within its range, with no enemy on the list within range strictly
      closer, and takes exactly that entry off the list. */
  lemma FiresAtNearest(d: Defender, st: Stats, rangeSqr: real, step: real, index: nat, enemies: seq<Vec>, remaining: seq<nat>)
    requires IndicesIn(remaining, |enemies|)
    ensures var t := ArmedTurn(d, st, rangeSqr, step, index, enemies, remaining);
            |t.shots| == 1 ==>
              var target := t.shots[0].target;
              && target in remaining
              && multiset(t.remaining) == multiset(remaining) - multiset{target}
              && SqrDistance(enemies[target], d.pos) <= rangeSqr
              && forall j :: 0 <= j < |remaining| && SqrDistance(enemies[remaining[j]], d.pos) <= rangeSqr ==>
                   SqrDistance(enemies[target], d.pos) <= SqrDistance(enemies[remaining[j]], d.pos)
  {
    var t := ArmedTurn(d, st, rangeSqr, step, index, enemies, remaining);
    if |t.shots| == 1 {
      var k := Nearest(enemies, remaining, d.pos, rangeSqr, |remaining|);
      assert k >= 0 && t.shots[0].target == remaining[k] && t.remaining == remaining[..k] + remaining[k + 1..];
      RemoveAtCount(remaining, k);
      var near := SqrDistance(enemies[remaining[k]], d.pos);
      assert near == EnemyDistance(enemies, remaining, k, d.pos);
      forall j | 0 <= j < |remaining| && SqrDistance(enemies[remaining[j]], d.pos) <= rangeSqr
        ensures near <= SqrDistance(enemies[remaining[j]], d.pos)
      {
        assert SqrDistance(enemies[remaining[j]], d.pos) == EnemyDistance(enemies, remaining, j, d.pos);
      }
    }
  }

  /** What a turn keeps of a defender whose stat lookup gave lookup: its
      name and position, a scale within [MinSize, 1], and, without stats,
      everything. */
  predicate Kept(lookup: StatLookup, before: Defender, after: Defender)
  {
    && after.name == before.name && after.pos == before.pos
    && (MinSize <= before.scale <= 1.0 ==> MinSize <= after.scale <= 1.0)
    && (lookup.Inert? ==> after == before)
  }

  /** A defender with stats that is still reloading takes one reload step. */
  predicate ReloadStep(lookup: StatLookup, before: Defender, after: Defender, dt: real)
  {
    lookup.Armed? && before.scale < 1.0 ==> after.scale == Reloaded(before.scale, dt * lookup.stats.fireRate)
  }

  /** Only a loaded defender with stats fires; the projectile carries its
      name, and the defender drops to MinSize. */
  predicate FiredBy(lookup: StatLookup, before: Defender, after: Defender, shot: Shot)
  {
    && lookup.Armed? && before.scale >= 1.0
    && shot.tag == before.name && after.scale == MinSize
  }

  /** What the turn of a defender with stats guarantees: name and
      position stay, the scale stays within [MinSize, 1], a reloading
      defender takes one reload step and holds fire, at most one
      projectile leaves, from a loaded defender that drops to MinSize, and
      the list loses exactly the enemy targeted. */
  lemma ArmedFacts(d: Defender, st: Stats, rangeSqr: real, step: real, index: nat, enemies: seq<Vec>, remaining: seq<nat>)
    requires IndicesIn(remaining, |enemies|)
    ensures var t := ArmedTurn(d, st, rangeSqr, step, index, enemies, remaining);
            && t.defender.name == d.name && t.defender.pos == d.pos
            && (MinSize <= d.scale <= 1.0 ==> MinSize <= t.defender.scale <= 1.0)
            && (d.scale < 1.0 ==> t.defender.scale == Reloaded(d.scale, step) && t.shots == [])
            && |t.shots| <= 1
            && multiset(t.remaining) + multiset(Targets(t.shots)) == multiset(remaining)
            && (|t.shots| == 1 ==>
                  && t.shots[0].shooter == index && t.shots[0].tag == d.name
                  && d.scale >= 1.0 && t.defender.scale == MinSize)
  {
    var t := ArmedTurn(d, st, rangeSqr, step, index, enemies, remaining);
    FiresAtNearest(d, st, rangeSqr, step, index, enemies, remaining);
    if |t.shots| == 1 {
      assert multiset(Targets(t.shots)) == multiset{t.shots[0].target};
    }
  }

  /** Whether an enemy on the list is within the given squared range of pos. */
  predicate HasTarget(enemies: seq<Vec>, remaining: seq<nat>, pos: Vec, rangeSqr: real)
    requires IndicesIn(remaining, |enemies|)
  {
    exists j :: 0 <= j < |remaining| && EnemyDistance(enemies, remaining, j, pos) <= rangeSqr
  }

  /** A loaded defender with stats fires exactly when some enemy on the
      list is within its range; with none in range its turn changes
      nothing, neither the defender nor the list. */
  lemma ArmedFiresIffTarget(d: Defender, st: Stats, rangeSqr: real, step: real, index: nat, enemies: seq<Vec>, remaining: seq<nat>)
    requires IndicesIn(remaining, |enemies|)
    ensures var t := ArmedTurn(d, st, rangeSqr, step, index, enemies, remaining);
            d.scale >= 1.0 && st.bulletCount >= 1 ==> (|t.shots| == 1 <==> HasTarget(enemies, remaining, d.pos, rangeSqr))
    ensures var t := ArmedTurn(d, st, rangeSqr, step, index, enemies, remaining);
            d.scale >= 1.0 && !HasTarget(enemies, remaining, d.pos, rangeSqr) ==> t == Turn(d, remaining, [])
  {
    var k := Nearest(enemies, remaining, d.pos, rangeSqr, |remaining|);
    if k >= 0 {
      assert EnemyDistance(enemies, remaining, k, d.pos) <= rangeSqr;
    }
  }

  /** The defender half of a turn: it is kept and takes its reload step. */
  lemma KeepsUnder(lookup: StatLookup, d: Defender, index: nat, enemies: seq<Vec>, remaining: seq<nat>, dt: real)
    requires IndicesIn(remaining, |enemies|)
    ensures var t := TurnUnder(lookup, d, index, enemies, remaining, dt);
            Kept(lookup, d, t.defender) && ReloadStep(lookup, d, t.defender, dt)
  {
    match lookup
    case Inert =>
    case Armed(st) =>
      ArmedFacts(d, st, st.rangeSqr, dt * st.fireRate, index, enemies, remaining);
  }

  /** The projectile half of a turn: at most one projectile leaves,
      tagged with the shooter's index and fired as entitled, and the list
      loses exactly the enemy it targets. */
  lemma ShotsUnder(lookup: StatLookup, d: Defender, index: nat, enemies: seq<Vec>, remaining: seq<nat>, dt: real)
    requires IndicesIn(remaining, |enemies|)
    ensures var t := TurnUnder(lookup, d, index, enemies, remaining, dt);
            && |t.shots| <= 1
            && multiset(t.remaining) + multiset(Targets(t.shots)) == multiset(remaining)
            && (|t.shots| == 1 ==> t.shots[0].shooter == index && FiredBy(lookup, d, t.defender, t.shots[0]))
  {
    match lookup
    case Inert =>
    case Armed(st) =>
      ArmedFacts(d, st, st.rangeSqr, dt * st.fireRate, index, enemies, remaining);
  }

  /** When a turn fires: a name without stats never acts, and a loaded
      defender with stats (and a positive bullet count) fires exactly when
      an enemy on the list is within its range, and otherwise leaves
      everything as it was. */
  lemma TargetsUnder(lookup: StatLookup, d: Defender, index: nat, enemies: seq<Vec>, remaining: seq<nat>, dt: real)
    requires IndicesIn(remaining, |enemies|)
    ensures var t := TurnUnder(lookup, d, index, enemies, remaining, dt);
            lookup.Inert? ==> t == Turn(d, remaining, [])
    ensures var t := TurnUnder(lookup, d, index, enemies, remaining, dt);
            lookup.Armed? && d.scale >= 1.0 ==>
              && (lookup.stats.bulletCount >= 1 ==>
                    (|t.shots| == 1 <==> HasTarget(enemies, remaining, d.pos, lookup.stats.rangeSqr)))
              && (!HasTarget(enemies, remaining, d.pos, lookup.stats.rangeSqr) ==> t == Turn(d, remaining, []))
  {
    match lookup
    case Inert =>
    case Armed(st) =>
      ArmedFiresIffTarget(d, st, st.rangeSqr, dt * st.fireRate, index, enemies, remaining);
  }

  /** What any turn guarantees: the defender is kept and reloads, at most
      one projectile leaves, tagged with the shooter's index, the list
      loses exactly the enemy it targets, so list and targets together
      are the list the turn started from; a loaded defender with stats
      fires if and only if an enemy on the list is within its range, and
      with none in range its turn changes nothing. */
  lemma TurnFacts(d: Defender, index: nat, enemies: seq<Vec>, remaining: seq<nat>, dt: real)
    requires IndicesIn(remaining, |enemies|)
    ensures var t := Engage(d, index, enemies, remaining, dt);
            && Kept(StatsOf(d.name), d, t.defender) && ReloadStep(StatsOf(d.name), d, t.defender, dt)
            && |t.shots| <= 1
            && multiset(t.remaining) + multiset(Targets(t.shots)) == multiset(remaining)
            && (|t.shots| == 1 ==> t.shots[0].shooter == index && FiredBy(StatsOf(d.name), d, t.defender, t.shots[0]))
    ensures var t := Engage(d, index, enemies, remaining, dt);
            StatsOf(d.name).Inert? ==> t == Turn(d, remaining, [])
    ensures var t := Engage(d, index, enemies, remaining, dt);
            StatsOf(d.name).Armed? && d.scale >= 1.0 ==>
              var rangeSqr := StatsOf(d.name).stats.rangeSqr;
              && (|t.shots| == 1 <==> HasTarget(enemies, remaining, d.pos, rangeSqr))
              && (!HasTarget(enemies, remaining, d.pos, rangeSqr) ==> t == Turn(d, remaining, []))
  {
    var lookup := StatsOf(d.name);
    KeepsUnder(lookup, d, index, enemies, remaining, dt);
    ShotsUnder(lookup, d, index, enemies, remaining, dt);
    TargetsUnder(lookup, d, index, enemies, remaining, dt);
  }

  /** The state of the tick after the first n defenders. */
  datatype TickState = TickState(defenders: seq<Defender>, remaining: seq<nat>, shots: seq<Shot>)

  function RunUpTo(defs: seq<Defender>, enemies: seq<Vec>, inRange: seq<nat>, dt: real, n: nat): (t: TickState)
    requires n <= |defs| && IndicesIn(inRange, |enemies|)
    ensures |t.defenders| == n && IndicesIn(t.remaining, |enemies|)
  {
    if n == 0 then TickState([], inRange, [])
    else
      var t := RunUpTo(defs, enemies, inRange, dt, n - 1);
      var turn := Engage(defs[n - 1], n - 1, enemies, t.remaining, dt);
      TickState(t.defenders + [turn.defender], turn.remaining, t.shots + turn.shots)
  }

  /** The outcome of a combat tick: the defenders afterwards and the
      projectiles fired. */
  datatype Volley = Volley(defenders: seq<Defender>, shots: seq<Shot>)

  /** A combat tick: with no enemy in range nothing happens, not even a
      reload; otherwise every defender takes its turn in order. */
  function CombatTick(defs: seq<Defender>, enemies: seq<Vec>, dt: real): (v: Volley)
    ensures |v.defenders| == |defs|
  {
    var inRange := InRangeUpTo(enemies, |enemies|);
    if |inRange| == 0 then Volley(defs, [])
    else
      var t := RunUpTo(defs, enemies, inRange, dt, |defs|);
      Volley(t.defenders, t.shots)
  }

  /** The enemy indices the projectiles target, in firing order. */
  function Targets(shots: seq<Shot>): (r: seq<nat>)
    ensures |r| == |shots| && forall k :: 0 <= k < |shots| ==> r[k] == shots[k].target
  {
    seq(|shots|, k requires 0 <= k < |shots| => shots[k].target)
  }

  lemma TargetsAppend(a: seq<Shot>, b: seq<Shot>)
    ensures multiset(Targets(a + b)) == multiset(Targets(a)) + multiset(Targets(b))
  {
    assert Targets(a + b) == Targets(a) + Targets(b);
  }

  /** After the first n turns each of those defenders is kept and has
      taken its reload step. */
  lemma {:induction false} RunDefenders(defs: seq<Defender>, enemies: seq<Vec>, inRange: seq<nat>, dt: real, n: nat)
    requires n <= |defs| && IndicesIn(inRange, |enemies|)
    ensures var t := RunUpTo(defs, enemies, inRange, dt, n);
            forall i :: 0 <= i < n ==>
              Kept(StatsOf(defs[i].name), defs[i], t.defenders[i]) && ReloadStep(StatsOf(defs[i].name), defs[i], t.defenders[i], dt)
  {
    if n > 0 {
      RunDefenders(defs, enemies, inRange, dt, n - 1);
      var t := RunUpTo(defs, enemies, inRange, dt, n - 1);
      var turn := Engage(defs[n - 1], n - 1, enemies, t.remaining, dt);
      var lookup := StatsOf(defs[n - 1].name);
      assert Kept(lookup, defs[n - 1], turn.defender) && ReloadStep(lookup, defs[n - 1], turn.defender, dt) by {
        KeepsUnder(lookup, defs[n - 1], n - 1, enemies, t.remaining, dt);
      }
      KeptAppend(defs, t.defenders, n - 1, turn.defender, dt);
    }
  }

  /** One more defender kept and reloaded extends the record. */
  lemma KeptAppend(defs: seq<Defender>, before: seq<Defender>, n: nat, d: Defender, dt: real)
    requires n < |defs| && |before| == n
    requires forall i :: 0 <= i < n ==>
               Kept(StatsOf(defs[i].name), defs[i], before[i]) && ReloadStep(StatsOf(defs[i].name), defs[i], before[i], dt)
    requires Kept(StatsOf(defs[n].name), defs[n], d) && ReloadStep(StatsOf(defs[n].name), defs[n], d, dt)
    ensures var after := before + [d];
            forall i :: 0 <= i < n + 1 ==>
              Kept(StatsOf(defs[i].name), defs[i], after[i]) && ReloadStep(StatsOf(defs[i].name), defs[i], after[i], dt)
  {
    var after := before + [d];
    forall i | 0 <= i < n + 1
      ensures Kept(StatsOf(defs[i].name), defs[i], after[i]) && ReloadStep(StatsOf(defs[i].name), defs[i], after[i], dt)
    {
      if i < n {
        assert after[i] == before[i];
      }
    }
  }

  /** Projectiles fired by defenders below n, in defender order, each by
      a defender that was entitled to fire (see FiredBy). */
  predicate ShotsFired(defs: seq<Defender>, after: seq<Defender>, shots: seq<Shot>, n: nat)
  {
    && n <= |defs| && n <= |after|
    && (forall k :: 0 <= k < |shots| ==>
          && shots[k].shooter < n
          && FiredBy(StatsOf(defs[shots[k].shooter].name), defs[shots[k].shooter], after[shots[k].shooter], shots[k]))
    && forall a, b :: 0 <= a < b < |shots| ==> shots[a].shooter < shots[b].shooter
  }

  /** Every projectile of the first n turns was fired by one of those
      defenders, in turn order, so no defender fires twice in a tick. */
  lemma {:induction false} RunShots(defs: seq<Defender>, enemies: seq<Vec>, inRange: seq<nat>, dt: real, n: nat)
    requires n <= |defs| && IndicesIn(inRange, |enemies|)
    ensures ShotsFired(defs, RunUpTo(defs, enemies, inRange, dt, n).defenders, RunUpTo(defs, enemies, inRange, dt, n).shots, n)
  {
    if n > 0 {
      RunShots(defs, enemies, inRange, dt, n - 1);
      var t := RunUpTo(defs, enemies, inRange, dt, n - 1);
      var turn := Engage(defs[n - 1], n - 1, enemies, t.remaining, dt);
      assert |turn.shots| <= 1 && (|turn.shots| == 1 ==>
               turn.shots[0].shooter == n - 1 && FiredBy(StatsOf(defs[n - 1].name), defs[n - 1], turn.defender, turn.shots[0])) by {
        ShotsUnder(StatsOf(defs[n - 1].name), defs[n - 1], n - 1, enemies, t.remaining, dt);
      }
      ShotsFiredAppend(defs, t.defenders, t.shots, n - 1, turn.defender, turn.shots);
    }
  }

  /** One more turn, firing at most once and only as entitled, keeps the
      record of who fired. */
  lemma ShotsFiredAppend(defs: seq<Defender>, before: seq<Defender>, shots: seq<Shot>, n: nat,
                         d: Defender, more: seq<Shot>)
    requires n < |defs| && |before| == n && ShotsFired(defs, before, shots, n)
    requires |more| <= 1 && (|more| == 1 ==> more[0].shooter == n && FiredBy(StatsOf(defs[n].name), defs[n], d, more[0]))
    ensures ShotsFired(defs, before + [d], shots + more, n + 1)
  {
    var after := before + [d];
    var all := shots + more;
    forall k | 0 <= k < |all|
      ensures all[k].shooter < n + 1 && FiredBy(StatsOf(defs[all[k].shooter].name), defs[all[k].shooter], after[all[k].shooter], all[k])
    {
      if k < |shots| {
        assert all[k] == shots[k];
        assert after[shots[k].shooter] == before[shots[k].shooter];
      } else {
        assert all[k] == more[0];
      }
    }
    forall a, b | 0 <= a < b < |all|
      ensures all[a].shooter < all[b].shooter
    {
      assert all[a] == shots[a];
      if b < |shots| {
        assert all[b] == shots[b];
      } else {
        assert all[b] == more[0];
      }
    }
  }

  /** No enemy is lost or duplicated: the enemies still listed and the
      enemies targeted make up the in-range list exactly. */
  lemma {:induction false} RunConservesTargets(defs: seq<Defender>, enemies: seq<Vec>, inRange: seq<nat>, dt: real, n: nat)
    requires n <= |defs| && IndicesIn(inRange, |enemies|)
    ensures var t := RunUpTo(defs, enemies, inRange, dt, n);
            multiset(t.remaining) + multiset(Targets(t.shots)) == multiset(inRange)
  {
    if n > 0 {
      RunConservesTargets(defs, enemies, inRange, dt, n - 1);
      var t := RunUpTo(defs, enemies, inRange, dt, n - 1);
      var turn := Engage(defs[n - 1], n - 1, enemies, t.remaining, dt);
      ShotsUnder(StatsOf(defs[n - 1].name), defs[n - 1], n - 1, enemies, t.remaining, dt);
      TargetsAppend(t.shots, turn.shots);
    }
  }

  /** A list with no repeated entry counts each value at most once. */
  lemma {:induction false} IncreasingCountsOnce(s: seq<nat>, x: nat)
    requires StrictlyIncreasing(s)
    ensures multiset(s)[x] <= 1
  {
    if |s| > 0 {
      var init := s[..|s| - 1];
      assert s == init + [s[|s| - 1]];
      IncreasingCountsOnce(init, x);
      if s[|s| - 1] == x {
        assert x !in init;
      }
    }
  }

  /** A value at two positions is counted at least twice. */
  lemma CountsTwice(s: seq<nat>, a: nat, b: nat)
    requires a < b < |s| && s[a] == s[b]
    ensures multiset(s)[s[a]] >= 2
  {
    assert s == s[..b] + [s[b]] + s[b + 1..];
    assert s[..b][a] == s[a];
  }

  /** A tick keeps every defender's name and position, keeps scales
      within [MinSize, 1] and leaves defenders without stats alone; when
      some enemy is in range every reloading defender takes its step. */
  lemma CombatKeepsDefenders(defs: seq<Defender>, enemies: seq<Vec>, dt: real)
    ensures var v := CombatTick(defs, enemies, dt);
            && |v.defenders| == |defs|
            && (forall i :: 0 <= i < |defs| ==> Kept(StatsOf(defs[i].name), defs[i], v.defenders[i]))
            && (|InRangeUpTo(enemies, |enemies|)| > 0 ==>
                  forall i :: 0 <= i < |defs| ==> ReloadStep(StatsOf(defs[i].name), defs[i], v.defenders[i], dt))
  {
    var inRange := InRangeUpTo(enemies, |enemies|);
    if |inRange| > 0 {
      RunDefenders(defs, enemies, inRange, dt, |defs|);
    }
  }

  /** The in-range list is empty exactly when no enemy is within reach. */
  lemma {:induction false} NoneInRange(enemies: seq<Vec>, n: nat)
    requires n <= |enemies|
    requires forall j :: 0 <= j < n ==> SqrMagnitude(enemies[j]) > EngageRadiusSqr
    ensures InRangeUpTo(enemies, n) == []
  {
    if n > 0 {
      NoneInRange(enemies, n - 1);
    }
  }

  /** With no enemy within radius 30 of the centre the tick changes
      nothing and fires nothing. */
  lemma CombatIdleWithoutTargets(defs: seq<Defender>, enemies: seq<Vec>, dt: real)
    requires forall j :: 0 <= j < |enemies| ==> SqrMagnitude(enemies[j]) > EngageRadiusSqr
    ensures CombatTick(defs, enemies, dt) == Volley(defs, [])
  {
    NoneInRange(enemies, |enemies|);
  }

  /** Each enemy is targeted at most once per tick, and only enemies
      within radius 30 of the centre are targeted. */
  lemma CombatTargetsDistinct(defs: seq<Defender>, enemies: seq<Vec>, dt: real)
    ensures var shots := CombatTick(defs, enemies, dt).shots;
            && (forall k :: 0 <= k < |shots| ==>
                  shots[k].target < |enemies| && SqrMagnitude(enemies[shots[k].target]) <= EngageRadiusSqr)
            && forall a, b :: 0 <= a < b < |shots| ==> shots[a].target != shots[b].target
  {
    var inRange := InRangeUpTo(enemies, |enemies|);
    if |inRange| > 0 {
      var t := RunUpTo(defs, enemies, inRange, dt, |defs|);
      var targets := Targets(t.shots);
      RunConservesTargets(defs, enemies, inRange, dt, |defs|);
      assert multiset(targets) <= multiset(inRange);
      forall k | 0 <= k < |t.shots|
        ensures t.shots[k].target in inRange
      {
        assert targets[k] in multiset(targets);
      }
      forall a, b | 0 <= a < b < |t.shots|
        ensures t.shots[a].target != t.shots[b].target
      {
        if targets[a] == targets[b] {
          CountsTwice(targets, a, b);
          IncreasingCountsOnce(inRange, targets[a]);
          assert false;
        }
      }
    }
  }

  /** Each projectile comes from a distinct defender, in defender order;
      that defender had stats and was loaded, the projectile carries its
      name, and the defender ends the tick at MinSize. So a defender
      without stats, or one still reloading, never fires. */
  lemma CombatShooters(defs: seq<Defender>, enemies: seq<Vec>, dt: real)
    ensures ShotsFired(defs, CombatTick(defs, enemies, dt).defenders, CombatTick(defs, enemies, dt).shots, |defs|)
  {
    var inRange := InRangeUpTo(enemies, |enemies|);
    if |inRange| > 0 {
      RunShots(defs, enemies, inRange, dt, |defs|);
    }
  }

  /** The combat loop after i defenders: the first i array slots hold
      what their turns made of them, the rest are untouched, and the list
      and the projectiles are those of the first i turns. */
  ghost predicate TickProgress(orig: seq<Defender>, cur: seq<Defender>, i: nat, enemies: seq<Vec>, inRange: seq<nat>,
                               dt: real, remaining: seq<nat>, shots: seq<Shot>)
  {
    && i <= |orig| && |cur| == |orig| && IndicesIn(inRange, |enemies|)
    && cur[i..] == orig[i..]
    && var t := RunUpTo(orig, enemies, inRange, dt, i);
       cur[..i] == t.defenders && remaining == t.remaining && shots == t.shots
  }

  lemma TickStep(orig: seq<Defender>, cur: seq<Defender>, i: nat, enemies: seq<Vec>, inRange: seq<nat>,
                 dt: real, remaining: seq<nat>, shots: seq<Shot>)
    requires i < |orig| && TickProgress(orig, cur, i, enemies, inRange, dt, remaining, shots)
    ensures cur[i] == orig[i] && IndicesIn(remaining, |enemies|)
    ensures var turn := Engage(orig[i], i, enemies, remaining, dt);
            TickProgress(orig, cur[i := turn.defender], i + 1, enemies, inRange, dt, turn.remaining, shots + turn.shots)
  {
    assert cur[i] == cur[i..][0];
    var turn := Engage(orig[i], i, enemies, remaining, dt);
    var next := cur[i := turn.defender];
    assert next[..i + 1] == cur[..i] + [turn.defender];
    assert next[i + 1..] == orig[i + 1..] by {
      assert cur[i + 1..] == cur[i..][1..];
    }
  }

  lemma TickDone(orig: seq<Defender>, cur: seq<Defender>, enemies: seq<Vec>, inRange: seq<nat>,
                 dt: real, remaining: seq<nat>, shots: seq<Shot>)
    requires TickProgress(orig, cur, |orig|, enemies, inRange, dt, remaining, shots)
    ensures cur == RunUpTo(orig, enemies, inRange, dt, |orig|).defenders
  {
    assert cur == cur[..|orig|];
  }

  /** One pass of the combat loop's body for defender i: the stat
      switch, whose default case skips the defender. */
  method TakeTurn(d: Defender, i: nat, enemies: seq<Vec>, remaining: seq<nat>, dt: real)
    returns (after: Defender, left: seq<nat>, fired: seq<Shot>)
    requires IndicesIn(remaining, |enemies|)
    ensures Turn(after, left, fired) == Engage(d, i, enemies, remaining, dt)
  {
    var lookup := StatsOf(d.name);
    if lookup.Inert? {
      return d, remaining, [];
    }
    var st := lookup.stats;
    after, left, fired := ArmedStep(d, st, st.rangeSqr, dt * st.fireRate, i, enemies, remaining);
  }

  /** The rest of the body for a defender with stats: reload, or search
      for a target and fire at it. */
  method ArmedStep(d: Defender, st: Stats, rangeSqr: real, step: real, i: nat, enemies: seq<Vec>, remaining: seq<nat>)
    returns (after: Defender, left: seq<nat>, fired: seq<Shot>)
    requires IndicesIn(remaining, |enemies|)
    ensures Turn(after, left, fired) == ArmedTurn(d, st, rangeSqr, step, i, enemies, remaining)
  {
    after, left, fired := d, remaining, [];
    if d.scale < 1.0 {
      after := d.(scale := Reloaded(d.scale, step));
      return;
    }
    var k := FindTarget(enemies, remaining, d.pos, rangeSqr);
    if k < 0 {
      return;
    }
    after := d.(scale := MinSize);
    if st.bulletCount > 0 {
      fired := [Shot(i, remaining[k], d.name, st.speed, MaxAngle(d.name))];
      left := remaining[..k] + remaining[k + 1..];
    }
  }

  /** The PlayRound combat loop over the defender array: it updates scales
      in place and returns the projectiles fired, exactly as CombatTick
      describes. */
  method ResolveCombat(defenders: array<Defender>, enemies: seq<Vec>, dt: real) returns (shots: seq<Shot>)
    modifies defenders
    ensures Volley(defenders[..], shots) == CombatTick(old(defenders[..]), enemies, dt)
  {
    ghost var orig := defenders[..];
    var inRange := CollectInRange(enemies);
    shots := [];
    if |inRange| == 0 {
      return;
    }
    var remaining := inRange;
    for i := 0 to defenders.Length
      invariant TickProgress(orig, defenders[..], i, enemies, inRange, dt, remaining, shots)
    {
      TickStep(orig, defenders[..], i, enemies, inRange, dt, remaining, shots);
      var after, left, fired := TakeTurn(defenders[i], i, enemies, remaining, dt);
      defenders[i] := after;
      remaining := left;
      shots := shots + fired;
    }
    TickDone(orig, defenders[..], enemies, inRange, dt, remaining, shots);
  }
}
